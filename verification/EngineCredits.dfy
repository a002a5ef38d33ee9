/** Who holds the engine's credit blocks: the slots of active requests and of cache entries (src/engine.cpp:236-256,
    286-337, 357-385). */
module EngineCredits {
  import opened Arithmetic
  import opened Outcomes
  import opened RefCounts
  import opened EngineState
  import opened BlockPools
  import opened PrefixIndexes

  /** The slots holding a block. */
  ghost function Holding(table: seq<seq<nat>>, b: nat): set<nat> {
    set s | 0 <= s < |table| && b in table[s]
  }

  /** Each reference count is the number of slots holding the block. */
  ghost predicate CreditsExact(refs: seq<nat>, table: seq<seq<nat>>) {
    && (forall s :: 0 <= s < |table| ==> Within(table[s], |refs|) && Distinct(table[s]))
    && forall b :: 0 <= b < |refs| ==> refs[b] == |Holding(table, b)|
  }

  /** Free request slots are exactly those no active item occupies. */
  ghost predicate SlotsExact(free: seq<nat>, active: seq<Item>, n: nat) {
    && Distinct(free)
    && forall s: nat :: s in free <==> s < n && s !in BusySlots(active)
  }

  /** Free cache slots are exactly those without an entry. */
  ghost predicate CacheSlotsExact(free: seq<nat>, entries: map<int, Entry>, c: Config) {
    && Distinct(free)
    && (forall s: nat :: s in free <==> c.maxActive <= s < Slots(c) && s !in entries)
    && forall s :: s in entries ==> c.maxActive <= s < Slots(c)
  }

  /** Each slot holds the blocks of its item or entry; a free slot holds none. */
  ghost predicate TableExact(table: seq<seq<nat>>, active: seq<Item>, entries: map<int, Entry>, free: seq<nat>,
                             freeCache: seq<nat>, c: Config) {
    && |table| == Slots(c)
    && (forall i :: 0 <= i < |active| && !active[i].done ==>
          active[i].sequence < |table| && table[active[i].sequence] == active[i].blocks)
    && (forall s :: s in entries ==> 0 <= s < |table| && table[s] == entries[s].blocks)
    && (forall s :: s in free ==> s < |table| && table[s] == [])
    && (forall s :: s in freeCache ==> s < |table| && table[s] == [])
  }

  // ---- releasing ------------------------------------------------------------------

  lemma HeldIsLive(refs: seq<nat>, table: seq<seq<nat>>, slot: nat, n: nat)
    requires CreditsExact(refs, table) && slot < |table| && n <= |table[slot]|
    ensures LiveTable(refs, table[slot][..n])
  {
    forall i | 0 <= i < n ensures refs[table[slot][i]] > 0 {
      assert slot in Holding(table, table[slot][i]);
    }
  }

  lemma HoldingWithout(table: seq<seq<nat>>, slot: nat, b: nat)
    requires slot < |table|
    ensures |Holding(table[slot := []], b)| == |Holding(table, b)| - if b in table[slot] then 1 else 0
  {
    var table' := table[slot := []];
    if b in table[slot] {
      assert Holding(table, b) == Holding(table', b) + {slot};
    } else {
      assert Holding(table, b) == Holding(table', b);
    }
  }

  lemma ReleaseCredits(refs: seq<nat>, free: seq<nat>, table: seq<seq<nat>>, slot: nat)
    requires CreditsExact(refs, table) && slot < |table|
    ensures LiveTable(refs, table[slot])
    ensures CreditsExact(Released(refs, free, table[slot]).0, table[slot := []])
  {
    assert table[slot][..|table[slot]|] == table[slot];
    HeldIsLive(refs, table, slot, |table[slot]|);
    var refs', table' := Released(refs, free, table[slot]).0, table[slot := []];
    hide Released, Holding, FreeExact;
    forall b | 0 <= b < |refs'| ensures refs'[b] == |Holding(table', b)| {
      HoldingWithout(table, slot, b);
    }
  }

  // ---- granting: fresh blocks and a reused prefix of another slot -------------------------

  lemma GrantCredits(refs: seq<nat>, table: seq<seq<nat>>, slot: nat, held: seq<nat>, granted: seq<nat>)
    requires CreditsExact(refs, table) && slot < |table| && table[slot] == []
    requires LiveTable(refs, held)
    requires Distinct(granted) && Within(granted, |refs|) && forall i :: 0 <= i < |granted| ==> refs[granted[i]] == 0
    ensures LiveTable(Granted(refs, granted), held)
    ensures CreditsExact(Retained(Granted(refs, granted), held), table[slot := held + granted])
    ensures forall i :: 0 <= i < |granted| ==> granted[i] !in held
  {
    hide Holding, Granted, Retained;
    var refs1 := Granted(refs, granted);
    forall i, j | 0 <= i < |granted| && 0 <= j < |held| ensures granted[i] != held[j] {
      assert refs[held[j]] > 0 && refs[granted[i]] == 0;
    }
    var refs2, table' := Retained(refs1, held), table[slot := held + granted];
    forall b | 0 <= b < |refs| ensures refs2[b] == |Holding(table', b)| {
      HoldingWith(table, slot, held + granted, b);
      assert b in held + granted <==> b in held || b in granted;
    }
  }

  lemma HoldingWith(table: seq<seq<nat>>, slot: nat, blocks: seq<nat>, b: nat)
    requires slot < |table| && table[slot] == []
    ensures |Holding(table[slot := blocks], b)| == |Holding(table, b)| + if b in blocks then 1 else 0
  {
    if b in blocks {
      assert Holding(table[slot := blocks], b) == Holding(table, b) + {slot};
      assert slot !in Holding(table, b);
    } else {
      assert Holding(table[slot := blocks], b) == Holding(table, b);
    }
  }

  lemma UnheldBlock(refs: seq<nat>, table: seq<seq<nat>>, b: nat)
    requires CreditsExact(refs, table) && b < |refs| && refs[b] == 0
    ensures forall s :: 0 <= s < |table| ==> b !in table[s]
  {
    assert Holding(table, b) == {};
    forall s | 0 <= s < |table| ensures b !in table[s] {
      assert b in table[s] <==> s in Holding(table, b);
    }
  }

  /** Counts stay far below the pool's overflow check. */
  lemma CountsBounded(refs: seq<nat>, table: seq<seq<nat>>, b: nat)
    requires CreditsExact(refs, table) && b < |refs|
    ensures refs[b] <= |table|
  {
    SubsetSize(Holding(table, b), Below(|table|));
  }

  /** With nobody holding anything, every block is free. */
  lemma NobodyHolds(refs: seq<nat>, free: seq<nat>, table: seq<seq<nat>>)
    requires CreditsExact(refs, table) && FreeExact(refs, free)
    requires forall s :: 0 <= s < |table| ==> table[s] == []
    ensures |free| == |refs| && forall b :: 0 <= b < |refs| ==> refs[b] == 0
  {
    forall b | 0 <= b < |refs| ensures refs[b] == 0 {
      assert Holding(table, b) == {};
    }
    assert Used(refs) == {};
    FreeCount(refs, free);
  }

  // ---- slots --------------------------------------------------------------------------

  lemma PushSlot(free: seq<nat>, active: seq<Item>, i: nat, n: nat)
    requires SlotsExact(free, active, n) && i < |active| && !active[i].done && active[i].sequence < n
    requires forall j, k :: 0 <= j < k < |active| ==> Apart(active, j, k)
    ensures SlotsExact(free + [active[i].sequence], active[i := Ended(active[i])], n)
  {
    EndedSets(active, i);
    hide BusySlots, Ended, Apart;
    PushMember(free, active[i].sequence);
  }

  lemma PushMember(free: seq<nat>, s: nat)
    requires Distinct(free) && s !in free
    ensures Distinct(free + [s]) && forall x: nat :: x in free + [s] <==> x in free || x == s
  {
    forall x: nat ensures x in free + [s] <==> x in free || x == s {
      assert (free + [s])[|free|] == s;
      if x in free {
        var i :| 0 <= i < |free| && free[i] == x;
        assert (free + [s])[i] == x;
      }
    }
  }

  lemma PopMember(free: seq<nat>)
    requires Distinct(free) && free != []
    ensures var s, rest := free[|free| - 1], free[..|free| - 1];
      s in free && Distinct(rest) && forall x: nat :: x in rest <==> x in free && x != s
  {
    var s, rest := free[|free| - 1], free[..|free| - 1];
    forall x: nat ensures x in rest <==> x in free && x != s {
      if x in free && x != s {
        var i :| 0 <= i < |free| && free[i] == x;
        assert rest[i] == x;
      }
    }
  }

  /** The slot of a new item comes off the free list. */
  lemma TakeSlot(free: seq<nat>, active: seq<Item>, it: Item, n: nat)
    requires SlotsExact(free, active, n) && free != [] && it.sequence == free[|free| - 1] && !it.done
    ensures SlotsExact(free[..|free| - 1], active + [it], n)
    ensures it.sequence < n && it.sequence !in BusySlots(active)
  {
    PopMember(free);
    SetsSnoc(active, it);
  }

  lemma ReturnCacheSlot(free: seq<nat>, entries: map<int, Entry>, s: nat, c: Config)
    requires CacheSlotsExact(free, entries, c) && s in entries
    ensures CacheSlotsExact(free + [s], entries - {s}, c)
  {
    PushMember(free, s);
  }

  lemma TakeCacheSlot(free: seq<nat>, entries: map<int, Entry>, e: Entry, c: Config)
    requires CacheSlotsExact(free, entries, c) && free != [] && e.sequence == free[|free| - 1]
    ensures c.maxActive <= e.sequence < Slots(c) && e.sequence !in entries
    ensures CacheSlotsExact(free[..|free| - 1], entries[e.sequence := e], c)
  {
    PopMember(free);
  }

  // ---- the table -------------------------------------------------------------------------

  lemma EndTable(table: seq<seq<nat>>, active: seq<Item>, entries: map<int, Entry>, free: seq<nat>, freeCache: seq<nat>,
                 c: Config, i: nat)
    requires TableExact(table, active, entries, free, freeCache, c) && CacheSlotsExact(freeCache, entries, c)
    requires i < |active| && !active[i].done && active[i].sequence < c.maxActive
    requires forall j, k :: 0 <= j < k < |active| ==> Apart(active, j, k)
    ensures var s := active[i].sequence;
      TableExact(table[s := []], active[i := Ended(active[i])], entries, free + [s], freeCache, c)
  {
    var s := active[i].sequence;
    var active' := active[i := Ended(active[i])];
    forall j | 0 <= j < |active'| && !active'[j].done ensures active'[j].sequence != s && active'[j] == active[j] {
      assert if i < j then Apart(active, i, j) else Apart(active, j, i);
    }
  }

  lemma EvictTable(table: seq<seq<nat>>, active: seq<Item>, entries: map<int, Entry>, free: seq<nat>,
                   freeCache: seq<nat>,
                   c: Config, s: nat)
    requires TableExact(table, active, entries, free, freeCache, c) && s in entries && c.maxActive <= s
    requires forall j :: 0 <= j < |active| && !active[j].done ==> active[j].sequence < c.maxActive
    ensures TableExact(table[s := []], active, entries - {s}, free, freeCache + [s], c)
  {
  }

  lemma AdmitTable(table: seq<seq<nat>>, active: seq<Item>, entries: map<int, Entry>, free: seq<nat>,
                   freeCache: seq<nat>,
                   c: Config, it: Item)
    requires TableExact(table, active, entries, free, freeCache, c) && CacheSlotsExact(freeCache, entries, c)
    requires SlotsExact(free, active, c.maxActive) && free != [] && it.sequence == free[|free| - 1] && !it.done
    ensures it.sequence < |table| && table[it.sequence] == []
    ensures TableExact(table[it.sequence := it.blocks], active + [it], entries, free[..|free| - 1], freeCache, c)
  {
    PopMember(free);
    forall j | 0 <= j < |active| && !active[j].done ensures active[j].sequence != it.sequence {
      assert active[j].sequence in BusySlots(active);
    }
  }

  lemma CacheTable(table: seq<seq<nat>>, active: seq<Item>, entries: map<int, Entry>, free: seq<nat>,
                   freeCache: seq<nat>,
                   c: Config, e: Entry)
    requires TableExact(table, active, entries, free, freeCache, c) && CacheSlotsExact(freeCache, entries, c)
    requires SlotsExact(free, active, c.maxActive)
    requires freeCache != [] && e.sequence == freeCache[|freeCache| - 1]
    requires forall j :: 0 <= j < |active| && !active[j].done ==> active[j].sequence < c.maxActive
    ensures 0 <= e.sequence < |table| && table[e.sequence] == []
    ensures TableExact(table[e.sequence := e.blocks], active, entries[e.sequence := e], free,
                       freeCache[..|freeCache| - 1], c)
  {
    PopMember(freeCache);
  }

  /** With no item and no entry left, every slot is free. */
  lemma AllSlotsFree(table: seq<seq<nat>>, active: seq<Item>, entries: map<int, Entry>, free: seq<nat>,
                     freeCache: seq<nat>, c: Config)
    requires TableExact(table, active, entries, free, freeCache, c) && CacheSlotsExact(freeCache, entries, c)
    requires SlotsExact(free, active, c.maxActive) && BusySlots(active) == {} && entries == map[]
    ensures forall s :: 0 <= s < |table| ==> table[s] == []
  {
    forall s | 0 <= s < |table| ensures table[s] == [] {
      if s < c.maxActive {
        assert s in free;
      } else {
        assert s in freeCache;
      }
    }
  }
}

/** The prefix cache index (src/prefix_index.cpp): one trie of owners per namespace over the cached token prefixes.
    A node is named by its namespace and its path from the root, so a child is the path extended by one token. */
module PrefixIndexes {
  import opened Arithmetic
  import opened Outcomes
  import opened RefCounts

  datatype Entry = Entry(sequence: int, space: string, tokens: seq<int>, blocks: seq<nat>, lastUsed: nat)

  datatype Match = Match(sequence: int, tokens: nat)

  type Nodes = map<(string, seq<int>), set<int>>

  /** The entries whose tokens run through a path. */
  ghost function Through(entries: map<int, Entry>, space: string, path: seq<int>): set<int> {
    set s | s in entries && entries[s].space == space && path <= entries[s].tokens
  }

  /** The trie a set of entries determines: a node for every path of some entry, owned by the entries through it. */
  ghost predicate IsTrie(nodes: Nodes, entries: map<int, Entry>) {
    && (forall k :: k in nodes <==> Through(entries, k.0, k.1) != {})
    && (forall k :: k in nodes ==> nodes[k] == Through(entries, k.0, k.1))
  }

  ghost predicate EntryOk(e: Entry, blockSize: nat)
    requires blockSize > 0
  {
    e.tokens != [] && |e.tokens| % blockSize == 0 && |e.blocks| == |e.tokens| / blockSize
  }

  ghost predicate EntriesOk(entries: map<int, Entry>, blockSize: nat, clock: nat)
    requires blockSize > 0
  {
    && (forall s :: s in entries ==>
          entries[s].sequence == s && EntryOk(entries[s], blockSize) && entries[s].lastUsed <= clock)
    && (forall s, r :: s in entries && r in entries && s != r ==> entries[s].lastUsed != entries[r].lastUsed)
  }

  /** Tokens over all entries. */
  ghost function TotalTokens(entries: map<int, Entry>): nat
    decreases |entries|
  {
    if |entries| == 0 then 0
    else
      var s := SomeKey(entries);
      |entries[s].tokens| + TotalTokens(entries - {s})
  }

  ghost function SomeKey(entries: map<int, Entry>): (s: int)
    requires |entries| > 0
    ensures s in entries && |entries - {s}| < |entries|
  {
    assert exists s :: s in entries by { var s := Pick(entries.Keys); }
    var s :| s in entries;
    Smaller(entries, s);
    s
  }

  /** The entry the sum takes first. */
  lemma TotalPick(entries: map<int, Entry>, s: int) returns (r: int)
    requires s in entries
    ensures r in entries && TotalTokens(entries) == |entries[r].tokens| + TotalTokens(entries - {r})
  {
    r := SomeKey(entries);
  }

  lemma Smaller(entries: map<int, Entry>, s: int)
    requires s in entries
    ensures |entries - {s}| < |entries|
  {
    assert (entries - {s}).Keys == entries.Keys - {s};
  }

  lemma {:induction false} TotalWithout(entries: map<int, Entry>, s: int)
    requires s in entries
    ensures TotalTokens(entries) == |entries[s].tokens| + TotalTokens(entries - {s})
    decreases |entries|
  {
    hide TotalTokens;
    var r := TotalPick(entries, s);
    if r == s {
    } else {
      Smaller(entries, r);
      Smaller(entries, s);
      TotalWithout(entries - {r}, s);
      TotalWithout(entries - {s}, r);
      assert entries - {r} - {s} == entries - {s} - {r};
    }
  }

  lemma TotalAdded(entries: map<int, Entry>, e: Entry)
    requires e.sequence !in entries
    ensures TotalTokens(entries[e.sequence := e]) == TotalTokens(entries) + |e.tokens|
  {
    TotalWithout(entries[e.sequence := e], e.sequence);
    assert entries[e.sequence := e] - {e.sequence} == entries;
  }

  /** Stamping an entry as used changes neither its tokens nor any total. */
  lemma {:induction false} TotalStamped(entries: map<int, Entry>, s: int, stamp: nat)
    requires s in entries
    ensures TotalTokens(entries[s := entries[s].(lastUsed := stamp)]) == TotalTokens(entries)
  {
    var entries' := entries[s := entries[s].(lastUsed := stamp)];
    TotalWithout(entries, s);
    TotalWithout(entries', s);
    assert entries' - {s} == entries - {s};
  }

  // ---- matching: the reference answer ------------------------------------------

  /** Length of the common prefix of two token lists. */
  ghost function CommonPrefix(a: seq<int>, b: seq<int>): (n: nat)
    ensures n <= |a| && n <= |b| && a[..n] == b[..n]
    ensures n < |a| && n < |b| ==> a[n] != b[n]
  {
    if a == [] || b == [] || a[0] != b[0] then 0
    else
      var n := CommonPrefix(a[1..], b[1..]);
      assert a[..n + 1] == [a[0]] + a[1..][..n] && b[..n + 1] == [b[0]] + b[1..][..n];
      n + 1
  }

  /** What a linear scan credits one entry with: the block-aligned part of the common prefix within the limit. */
  ghost function ScanCredit(e: Entry, space: string, tokens: seq<int>, limit: nat, blockSize: nat): nat
    requires blockSize > 0
  {
    if e.space != space then 0
    else
      var n := CommonPrefix(e.tokens, tokens);
      Floor(if n < limit then n else limit, blockSize)
  }

  /** The longest aligned shared prefix, with the smallest of the entries that have it. */
  ghost predicate LongestMatch(entries: map<int, Entry>, space: string, tokens: seq<int>, limit: nat, blockSize: nat,
                               r: Option<Match>)
    requires blockSize > 0
  {
    && (r.Some? ==>
          && 0 < r.value.tokens <= limit && r.value.tokens <= |tokens| && r.value.tokens % blockSize == 0
          && r.value.sequence in Through(entries, space, tokens[..r.value.tokens])
          && forall s :: s in Through(entries, space, tokens[..r.value.tokens]) ==> r.value.sequence <= s)
    && forall k: nat {:trigger tokens[..k]} ::
         (if r.Some? then r.value.tokens else 0) < k <= limit && k <= |tokens| && k % blockSize == 0 ==>
           Through(entries, space, tokens[..k]) == {}
  }

  /** There is only one longest match. */
  lemma MatchUnique(entries: map<int, Entry>, space: string, tokens: seq<int>, limit: nat, blockSize: nat,
                    a: Option<Match>, b: Option<Match>)
    requires blockSize > 0 && LongestMatch(entries, space, tokens, limit, blockSize, a)
             && LongestMatch(entries, space, tokens, limit, blockSize, b)
    ensures a == b
  {
    hide LongestMatch, Through;
    MatchReaches(entries, space, tokens, limit, blockSize, a);
    MatchReaches(entries, space, tokens, limit, blockSize, b);
    var path := tokens[..MatchLength(a)];
    assert tokens[..MatchLength(b)] == path;
  }

  function MatchLength(r: Option<Match>): nat {
    if r.Some? then r.value.tokens else 0
  }

  /** A match has an owner, the smallest one, and nothing longer has. */
  lemma MatchReaches(entries: map<int, Entry>, space: string, tokens: seq<int>, limit: nat, blockSize: nat,
                     r: Option<Match>)
    requires blockSize > 0 && LongestMatch(entries, space, tokens, limit, blockSize, r)
    ensures MatchLength(r) <= |tokens| && MatchLength(r) <= limit && MatchLength(r) % blockSize == 0
    ensures r.Some? <==> MatchLength(r) > 0
    ensures r.Some? ==>
              && r.value.sequence in Through(entries, space, tokens[..MatchLength(r)])
              && forall s :: s in Through(entries, space, tokens[..MatchLength(r)]) ==> r.value.sequence <= s
    ensures forall k: nat, s {:trigger s in Through(entries, space, tokens[..k])} ::
              0 < k <= limit && k <= |tokens| && k % blockSize == 0 && s in Through(entries, space, tokens[..k]) ==>
                k <= MatchLength(r)
  {
    hide Through;
    DivUnique(0, blockSize, 0, 0);
  }

  lemma ScanCreditBounded(e: Entry, space: string, tokens: seq<int>, limit: nat, blockSize: nat)
    requires blockSize > 0
    ensures var k := ScanCredit(e, space, tokens, limit, blockSize);
      && k % blockSize == 0 && k <= limit && k <= |tokens|
      && (k > 0 ==> e.space == space && tokens[..k] <= e.tokens)
  {
    var n := CommonPrefix(e.tokens, tokens);
    FloorBounds(if n < limit then n else limit, blockSize);
    CeilDivExact(0, blockSize);
    var k := ScanCredit(e, space, tokens, limit, blockSize);
    hide CommonPrefix, Floor;
    assert tokens[..k] == tokens[..n][..k] == e.tokens[..n][..k] == e.tokens[..k];
  }

  lemma ScanCreditReaches(e: Entry, space: string, tokens: seq<int>, limit: nat, blockSize: nat, k: nat)
    requires blockSize > 0 && k % blockSize == 0 && k <= limit && k <= |tokens|
    requires e.space == space && tokens[..k] <= e.tokens
    ensures k <= ScanCredit(e, space, tokens, limit, blockSize)
  {
    var n := CommonPrefix(e.tokens, tokens);
    assert e.tokens[..k] == tokens[..k];
    LongerPrefix(e.tokens, tokens, k);
    hide CommonPrefix, Floor;
    FloorLargest(k, if n < limit then n else limit, blockSize);
  }

  lemma LongerPrefix(a: seq<int>, b: seq<int>, k: nat)
    requires k <= |a| && k <= |b| && a[..k] == b[..k]
    ensures k <= CommonPrefix(a, b)
  {
    hide CommonPrefix;
    var n := CommonPrefix(a, b);
    FirstDifference(a, b, k, n);
  }

  lemma FirstDifference(a: seq<int>, b: seq<int>, k: nat, n: nat)
    requires k <= |a| && k <= |b| && a[..k] == b[..k]
    requires n < |a| && n < |b| ==> a[n] != b[n]
    ensures k <= n
  {
    if n < k {
      SameAt(a, b, k, n);
    }
  }

  lemma SameAt(a: seq<int>, b: seq<int>, k: nat, i: nat)
    requires i < k <= |a| && k <= |b| && a[..k] == b[..k]
    ensures a[i] == b[i]
  {
    assert a[..k][i] == b[..k][i];
  }

  /** The trie walk answers what a linear scan over all entries would: no entry of the namespace scores higher, the
      reported owner scores exactly the reported length, and there is no answer only if nobody scores. */
  lemma MatchIsLinearScan(entries: map<int, Entry>, space: string, tokens: seq<int>, limit: nat, blockSize: nat,
                          r: Option<Match>)
    requires blockSize > 0 && LongestMatch(entries, space, tokens, limit, blockSize, r)
    ensures forall s :: s in entries ==>
              ScanCredit(entries[s], space, tokens, limit, blockSize) <= if r.Some? then r.value.tokens else 0
    ensures r.Some? ==>
              && r.value.sequence in entries
              && ScanCredit(entries[r.value.sequence], space, tokens, limit, blockSize) == r.value.tokens
  {
    hide ScanCredit;
    forall s | s in entries
      ensures ScanCredit(entries[s], space, tokens, limit, blockSize) <= if r.Some? then r.value.tokens else 0
    {
      var k := ScanCredit(entries[s], space, tokens, limit, blockSize);
      ScanCreditBounded(entries[s], space, tokens, limit, blockSize);
      if k > 0 {
        assert s in Through(entries, space, tokens[..k]);
      }
    }
    if r.Some? {
      ScanCreditReaches(entries[r.value.sequence], space, tokens, limit, blockSize, r.value.tokens);
    }
  }

  lemma {:induction false} LeastOf(s: set<int>) returns (m: int)
    requires |s| > 0
    ensures m in s && forall x :: x in s ==> m <= x
    decreases |s|
  {
    var y := Pick(s);
    var rest := s - {y};
    m := y;
    if |rest| > 0 {
      var z := LeastOf(rest);
      if z < y {
        m := z;
      }
    }
    assert s == rest + {y};
  }

  /** The smallest member, as an ordered set lists it first. */
  function Least(s: set<int>): (m: int)
    requires s != {}
    ensures m in s && forall x :: x in s ==> m <= x
  {
    assert exists m :: m in s && forall x :: x in s ==> m <= x by {
      var m := LeastOf(s);
    }
    var m :| m in s && forall x :: x in s ==> m <= x;
    m
  }

  // ---- the index -------------------------------------------------------------------

  /** Nodes after the first `n` tokens of an insertion walk (the root counts as walked). */
  ghost predicate WalkedIn(before: Nodes, after: Nodes, space: string, tokens: seq<int>, n: nat, s: int) {
    forall k {:trigger k in after} ::
      if OnWalk(k, space, tokens, n) then k in after && after[k] == (if k in before then before[k] else {}) + {s}
      else (k in after <==> k in before) && (k in after ==> after[k] == before[k])
  }

  ghost predicate OnWalk(k: (string, seq<int>), space: string, tokens: seq<int>, n: nat) {
    k.0 == space && k.1 <= tokens && |k.1| <= n
  }

  lemma OnWalkAt(k: (string, seq<int>), space: string, tokens: seq<int>, n: nat)
    ensures k.0 == space && k.1 <= tokens && |k.1| == n ==> n <= |tokens| && k == (space, tokens[..n])
  {
    if k.0 == space && k.1 <= tokens && |k.1| == n {
      assert k.1 == tokens[..n];
    }
  }

  lemma ThroughShrinks(entries: map<int, Entry>, space: string, p: seq<int>, q: seq<int>)
    ensures p <= q ==> Through(entries, space, q) <= Through(entries, space, p)
  {
  }

  lemma WalkStep(before: Nodes, after: Nodes, space: string, tokens: seq<int>, n: nat, s: int)
    requires n < |tokens| && WalkedIn(before, after, space, tokens, n, s)
    ensures var k := (space, tokens[..n + 1]);
      WalkedIn(before, after[k := (if k in after then after[k] else {}) + {s}], space, tokens, n + 1, s)
  {
    var key := (space, tokens[..n + 1]);
    var after' := after[key := (if key in after then after[key] else {}) + {s}];
    forall k {:trigger k in after'}
      ensures if OnWalk(k, space, tokens, n + 1) then k in after'
                                                      && after'[k] == (if k in before then before[k] else {}) + {s}
              else (k in after' <==> k in before) && (k in after' ==> after'[k] == before[k])
    {
      if k == key {
        assert !OnWalk(k, space, tokens, n);
      } else {
        OnWalkAt(k, space, tokens, n + 1);
        assert k in after || k !in after;
      }
    }
  }

  /** A full insertion walk turns the trie of the entries into the trie of the entries and the new one. */
  lemma InsertedIsTrie(before: Nodes, after: Nodes, entries: map<int, Entry>, e: Entry)
    requires IsTrie(before, entries) && e.sequence !in entries
    requires WalkedIn(before, after, e.space, e.tokens, |e.tokens|, e.sequence)
    ensures IsTrie(after, entries[e.sequence := e])
  {
    var entries' := entries[e.sequence := e];
    forall k: (string, seq<int>)
      ensures (k in after <==> Through(entries', k.0, k.1) != {})
              && (k in after ==> after[k] == Through(entries', k.0, k.1))
    {
      assert k in after || k !in after;
      if OnWalk(k, e.space, e.tokens, |e.tokens|) {
        assert Through(entries', k.0, k.1) == Through(entries, k.0, k.1) + {e.sequence};
      } else {
        assert Through(entries', k.0, k.1) == Through(entries, k.0, k.1);
      }
    }
  }

  /** A trie is determined by its entries, so erasing what was just inserted restores it. */
  lemma TrieUnique(a: Nodes, b: Nodes, entries: map<int, Entry>)
    requires IsTrie(a, entries) && IsTrie(b, entries)
    ensures a == b
  {
    assert forall k :: k in a <==> k in b;
  }

  lemma EraseUndoesInsert(nodes: Nodes, inserted: Nodes, erased: Nodes, entries: map<int, Entry>, e: Entry)
    requires e.sequence !in entries && IsTrie(nodes, entries)
    requires IsTrie(inserted, entries[e.sequence := e]) && IsTrie(erased, entries[e.sequence := e] - {e.sequence})
    ensures erased == nodes && entries[e.sequence := e] - {e.sequence} == entries
  {
    assert entries[e.sequence := e] - {e.sequence} == entries;
    TrieUnique(erased, nodes, entries);
  }

  class PrefixIndex {
    const blockSize: nat
    var nodes: Nodes
    var entries: map<int, Entry>
    var tokenCount: nat
    var clock: nat

    ghost predicate Valid()
      reads this
    {
      && blockSize > 0
      && EntriesOk(entries, blockSize, clock)
      && IsTrie(nodes, entries)
      && tokenCount == TotalTokens(entries)
    }

    constructor (size: nat)
      requires size > 0
      ensures Valid() && fresh(this) && blockSize == size && entries == map[] && tokenCount == 0
    {
      blockSize := size;
      nodes := map[];
      entries := map[];
      tokenCount := 0;
      clock := 0;
    }

    /** Adds an entry under an unused sequence, stamped as the most recently used. */
    method Insert(entry: Entry) returns (status: Status)
      requires Valid()
      modifies this
      ensures Valid()
      ensures status.Ok? <==>
                && entry.tokens != [] && |entry.tokens| % blockSize == 0
                && |entry.blocks| == |entry.tokens| / blockSize && entry.sequence !in old(entries)
      ensures status.Ok? || status == Failed(InvalidArgument)
      ensures status.Failed? ==> nodes == old(nodes) && entries == old(entries) && tokenCount == old(tokenCount)
      ensures status.Ok? ==> entries == old(entries)[entry.sequence := entry.(lastUsed := clock)]
      ensures status.Ok? ==> tokenCount == old(tokenCount) + |entry.tokens|
    {
      hide IsTrie, TotalTokens, Through, WalkedIn;
      if entry.tokens == [] || |entry.tokens| % blockSize != 0
         || |entry.blocks| != |entry.tokens| / blockSize || entry.sequence in entries {
        return Failed(InvalidArgument);
      }
      ghost var nodes0 := nodes;
      WalkIn(entry.space, entry.tokens, entry.sequence);
      clock := clock + 1;
      var stamped := entry.(lastUsed := clock);
      InsertedIsTrie(nodes0, nodes, entries, stamped);
      TotalAdded(entries, stamped);
      tokenCount := tokenCount + |entry.tokens|;
      entries := entries[entry.sequence := stamped];
      return Ok;
    }

    method WalkIn(space: string, tokens: seq<int>, s: int)
      modifies `nodes
      ensures WalkedIn(old(nodes), nodes, space, tokens, |tokens|, s)
    {
      ghost var nodes0 := nodes;
      var path: seq<int> := [];
      nodes := nodes[(space, path) := (if (space, path) in nodes then nodes[(space, path)] else {}) + {s}];
      assert tokens[..0] == [];
      for i := 0 to |tokens|
        invariant path == tokens[..i]
        invariant WalkedIn(nodes0, nodes, space, tokens, i, s)
      {
        WalkStep(nodes0, nodes, space, tokens, i, s);
        path := path + [tokens[i]];
        assert path == tokens[..i + 1];
        nodes := nodes[(space, path) := (if (space, path) in nodes then nodes[(space, path)] else {}) + {s}];
      }
    }

    /** Removes an entry: its owner marks, then bottom-up every node nobody owns any more. */
    method Erase(sequence: int) returns (r: Result<Entry>)
      requires Valid()
      modifies this
      ensures Valid() && clock == old(clock)
      ensures r == if sequence in old(entries) then Success(old(entries)[sequence]) else Failure(OutOfRange)
      ensures r.Failure? ==> nodes == old(nodes) && entries == old(entries) && tokenCount == old(tokenCount)
      ensures r.Success? ==>
                && entries == old(entries) - {sequence}
                && tokenCount + |r.value.tokens| == old(tokenCount)
    {
      hide IsTrie, TotalTokens, Through, UnownedTrie, EntryOk;
      if sequence !in entries {
        return Failure(OutOfRange);
      }
      var entry := entries[sequence];
      WalkOut(entry.space, entry.tokens, sequence);
      Prune(entry.space, entry.tokens, entries - {sequence}, sequence);
      TotalWithout(entries, sequence);
      entries := entries - {sequence};
      tokenCount := tokenCount - |entry.tokens|;
      return Success(entry);
    }

    /** Removes the owner mark along the whole path; every node of it is there. */
    method WalkOut(space: string, tokens: seq<int>, s: int)
      requires Valid() && s in entries && entries[s].space == space && entries[s].tokens == tokens
      modifies `nodes
      ensures UnownedTrie(nodes, entries, s)
    {
      ghost var nodes0 := nodes;
      for i := 0 to |tokens| + 1
        invariant WalkedOut(nodes0, nodes, space, tokens, i, s)
      {
        assert s in Through(entries, space, tokens[..i]);
        WalkOutStep(nodes0, nodes, space, tokens, i, s);
        nodes := nodes[(space, tokens[..i]) := nodes[(space, tokens[..i])] - {s}];
      }
      UnownedByWalk(nodes0, nodes, entries, s);
    }

    method Prune(space: string, tokens: seq<int>, ghost rest: map<int, Entry>, ghost s: int)
      requires s in entries && entries[s].space == space && entries[s].tokens == tokens && rest == entries - {s}
      requires UnownedTrie(nodes, entries, s)
      modifies `nodes
      ensures IsTrie(nodes, rest)
    {
      ghost var nodes1 := nodes;
      var i := |tokens|;
      PathPresent(nodes, entries, s);
      while i > 0
        invariant 0 <= i <= |tokens| && Pruned(nodes1, nodes, space, tokens, i)
        invariant i < |tokens| ==> Through(rest, space, tokens[..i + 1]) == {}
      {
        KeptOnPath(nodes1, nodes, space, tokens, i, i);
        if nodes[(space, tokens[..i])] != {} {
          break;
        }
        PruneStep(nodes1, nodes, space, tokens, i);
        nodes := EraseSubtree(nodes, space, tokens[..i]);
        i := i - 1;
      }
      KeptOnPath(nodes1, nodes, space, tokens, i, 0);
      assert tokens[..0] == [];
      PrunedOwners(nodes1, nodes, entries, s, i);
      if nodes[(space, [])] == {} {
        nodes := EraseSubtree(nodes, space, []);
      }
      PrunedIsTrie(nodes1, nodes, entries, s, i);
    }

    /** The entry with the oldest stamp, if there is any. */
    method LeastRecentlyUsed() returns (r: Option<int>)
      requires Valid()
      ensures r.None? <==> entries == map[]
      ensures r.Some? ==> r.value in entries
      ensures r.Some? ==> forall s :: s in entries && s != r.value ==> entries[r.value].lastUsed < entries[s].lastUsed
    {
      hide IsTrie, TotalTokens;
      if |entries| == 0 {
        return None;
      }
      ghost var first := Pick(entries.Keys);
      var best: int := Least(entries.Keys);
      var rest := entries.Keys - {best};
      while rest != {}
        invariant best in entries && best !in rest && rest <= entries.Keys
        invariant forall s :: s in entries && s !in rest && s != best ==> entries[best].lastUsed < entries[s].lastUsed
        decreases |rest|
      {
        var s := Least(rest);
        if entries[s].lastUsed < entries[best].lastUsed {
          best := s;
        }
        rest := rest - {s};
      }
      return Some(best);
    }

    /** The longest block-aligned prefix shared with an entry of the namespace, found by walking the trie; the entry
        reported is stamped as used. */
    method FindMatch(space: string, tokens: seq<int>, maxReuse: nat) returns (r: Option<Match>)
      requires Valid()
      modifies `entries, `clock
      ensures Valid()
      ensures var limit := if |tokens| < maxReuse then |tokens| else maxReuse;
              LongestMatch(old(entries), space, tokens, limit, blockSize, r)
      ensures r.None? ==> entries == old(entries)
      ensures r.Some? ==>
                && r.value.sequence in old(entries)
                && entries == old(entries)[r.value.sequence := old(entries)[r.value.sequence].(lastUsed := clock)]
                && forall s :: s in old(entries) ==> old(entries)[s].lastUsed < clock
    {
      hide FreeExact, IsTrie, TotalTokens;
      var limit := if |tokens| < maxReuse then |tokens| else maxReuse;
      r := Walk(space, tokens, limit);
      if r.Some? {
        clock := clock + 1;
        ghost var entries0 := entries;
        TotalStamped(entries, r.value.sequence, clock);
        StampedIsTrie(nodes, entries, r.value.sequence, clock);
        entries := entries[r.value.sequence := entries[r.value.sequence].(lastUsed := clock)];
      }
    }

    method Walk(space: string, tokens: seq<int>, limit: nat) returns (r: Option<Match>)
      requires Valid() && limit <= |tokens|
      ensures LongestMatch(entries, space, tokens, limit, blockSize, r)
    {
      var path: seq<int> := [];
      r := None;
      if (space, path) !in nodes {
        NothingBelow(nodes, entries, space, tokens, 0);
        return;
      }
      assert tokens[..0] == [];
      var i := 0;
      while i < limit
        invariant 0 <= i <= limit && path == tokens[..i]
        invariant (space, path) in nodes
        invariant LongestMatch(entries, space, tokens, i, blockSize, r)
      {
        var next := path + [tokens[i]];
        assert next == tokens[..i + 1];
        if (space, next) !in nodes {
          NothingBelow(nodes, entries, space, tokens, i + 1);
          break;
        }
        path := next;
        if (i + 1) % blockSize == 0 {
          r := Some(Match(Least(nodes[(space, path)]), i + 1));
        }
        i := i + 1;
      }
    }
  }

  /** No entry runs past a missing node. */
  lemma NothingBelow(nodes: Nodes, entries: map<int, Entry>, space: string, tokens: seq<int>, n: nat)
    requires IsTrie(nodes, entries) && n <= |tokens| && (space, tokens[..n]) !in nodes
    ensures forall k: nat {:trigger tokens[..k]} :: n <= k <= |tokens| ==> Through(entries, space, tokens[..k]) == {}
  {
    forall k: nat {:trigger tokens[..k]} | n <= k <= |tokens| ensures Through(entries, space, tokens[..k]) == {} {
      assert tokens[..n] == tokens[..k][..n];
      assert Through(entries, space, tokens[..k]) <= Through(entries, space, tokens[..n]);
    }
  }

  lemma StampedIsTrie(nodes: Nodes, entries: map<int, Entry>, s: int, stamp: nat)
    requires IsTrie(nodes, entries) && s in entries
    ensures IsTrie(nodes, entries[s := entries[s].(lastUsed := stamp)])
  {
    var entries' := entries[s := entries[s].(lastUsed := stamp)];
    forall k: (string, seq<int>) ensures Through(entries', k.0, k.1) == Through(entries, k.0, k.1) {
    }
  }

  // ---- erasing ------------------------------------------------------------------

  /** A node and everything below it taken out. */
  function EraseSubtree(nodes: Nodes, space: string, path: seq<int>): Nodes {
    map k | k in nodes && !(k.0 == space && path <= k.1) :: nodes[k]
  }

  ghost predicate WalkedOut(before: Nodes, after: Nodes, space: string, tokens: seq<int>, n: nat, s: int) {
    forall k {:trigger k in after} ::
      && (k in after <==> k in before)
      && (k in after ==> after[k] == if OnWalk(k, space, tokens, n) && |k.1| < n then before[k] - {s} else before[k])
  }

  lemma WalkOutStep(before: Nodes, after: Nodes, space: string, tokens: seq<int>, n: nat, s: int)
    requires n <= |tokens| && WalkedOut(before, after, space, tokens, n, s) && (space, tokens[..n]) in before
    ensures (space, tokens[..n]) in after
    ensures WalkedOut(before, after[(space, tokens[..n]) := after[(space, tokens[..n])] - {s}], space, tokens, n + 1, s)
  {
    var key := (space, tokens[..n]);
    assert key in after;
    var after' := after[key := after[key] - {s}];
    forall k {:trigger k in after'}
      ensures (k in after' <==> k in before)
      ensures k in after' ==>
                after'[k] == if OnWalk(k, space, tokens, n + 1) && |k.1| < n + 1 then before[k] - {s} else before[k]
    {
      assert k in after || k !in after;
      OnWalkAt(k, space, tokens, n + 1);
      OnWalkAt(k, space, tokens, n);
    }
  }

  /** Owner marks already as without `s`, nodes still as with it. */
  ghost predicate UnownedTrie(nodes: Nodes, entries: map<int, Entry>, s: int) {
    && (forall k :: k in nodes <==> Through(entries, k.0, k.1) != {})
    && (forall k :: k in nodes ==> nodes[k] == Through(entries - {s}, k.0, k.1))
  }

  lemma UnownedByWalk(before: Nodes, after: Nodes, entries: map<int, Entry>, s: int)
    requires s in entries && IsTrie(before, entries)
    requires WalkedOut(before, after, entries[s].space, entries[s].tokens, |entries[s].tokens| + 1, s)
    ensures UnownedTrie(after, entries, s)
  {
    var e := entries[s];
    forall k: (string, seq<int>)
      ensures (k in after <==> Through(entries, k.0, k.1) != {})
              && (k in after ==> after[k] == Through(entries - {s}, k.0, k.1))
    {
      assert k in after || k !in after;
      assert Through(entries - {s}, k.0, k.1) == Through(entries, k.0, k.1) - {s};
      assert OnWalk(k, e.space, e.tokens, |e.tokens| + 1) <==> s in Through(entries, k.0, k.1);
    }
  }

  lemma PathPresent(nodes: Nodes, entries: map<int, Entry>, s: int)
    requires s in entries && UnownedTrie(nodes, entries, s)
    ensures forall i :: 0 <= i <= |entries[s].tokens| ==> (entries[s].space, entries[s].tokens[..i]) in nodes
  {
    forall i | 0 <= i <= |entries[s].tokens| ensures (entries[s].space, entries[s].tokens[..i]) in nodes {
      assert s in Through(entries, entries[s].space, entries[s].tokens[..i]);
    }
  }

  /** The subtree below the first `i` tokens of the path is gone and nothing else. */
  ghost predicate Pruned(before: Nodes, after: Nodes, space: string, tokens: seq<int>, i: nat)
    requires i <= |tokens|
  {
    forall k {:trigger k in after} ::
      && (k in after <==> k in before && !(k.0 == space && i < |tokens| && tokens[..i + 1] <= k.1))
      && (k in after ==> after[k] == before[k])
  }

  lemma KeptOnPath(before: Nodes, after: Nodes, space: string, tokens: seq<int>, i: nat, j: nat)
    requires j <= i <= |tokens| && Pruned(before, after, space, tokens, i) && (space, tokens[..j]) in before
    ensures (space, tokens[..j]) in after
  {
    var k := (space, tokens[..j]);
    assert k in after || k !in after;
  }

  lemma PruneStep(before: Nodes, after: Nodes, space: string, tokens: seq<int>, i: nat)
    requires 0 < i <= |tokens| && Pruned(before, after, space, tokens, i)
    ensures Pruned(before, EraseSubtree(after, space, tokens[..i]), space, tokens, i - 1)
  {
    var after' := EraseSubtree(after, space, tokens[..i]);
    forall k {:trigger k in after'}
      ensures (k in after' <==> k in before && !(k.0 == space && i - 1 < |tokens| && tokens[..i - 1 + 1] <= k.1))
      ensures k in after' ==> after'[k] == before[k]
    {
      assert k in after || k !in after;
      if i < |tokens| {
        assert tokens[..i] <= tokens[..i + 1];
      }
    }
  }

  /** Every node left by the pruning has an owner, except perhaps the root. */
  lemma PrunedOwners(before: Nodes, after: Nodes, entries: map<int, Entry>, s: int, i: nat)
    requires s in entries && UnownedTrie(before, entries, s) && i <= |entries[s].tokens|
    requires Pruned(before, after, entries[s].space, entries[s].tokens, i)
    requires i < |entries[s].tokens| ==> Through(entries - {s}, entries[s].space, entries[s].tokens[..i + 1]) == {}
    requires i > 0 ==> Through(entries - {s}, entries[s].space, entries[s].tokens[..i]) != {}
    ensures forall k {:trigger k in after} :: k in after ==> k == (entries[s].space, []) || after[k] != {}
    ensures forall k: (string, seq<int>) :: Through(entries - {s}, k.0, k.1) != {} ==> k in after
    ensures i > 0 ==> Through(entries - {s}, entries[s].space, []) != {}
  {
    var e := entries[s];
    var rest := entries - {s};
    forall k {:trigger k in after} | k in after ensures k == (e.space, []) || after[k] != {} {
      if s in Through(entries, k.0, k.1) {
        assert |k.1| <= i;
        if i > 0 {
          assert k.1 == e.tokens[..|k.1|] == e.tokens[..i][..|k.1|];
          assert Through(rest, e.space, e.tokens[..i]) <= Through(rest, k.0, k.1);
        }
      } else {
        assert Through(rest, k.0, k.1) == Through(entries, k.0, k.1);
      }
    }
    forall k: (string, seq<int>) | Through(rest, k.0, k.1) != {} ensures k in after {
      assert Through(rest, k.0, k.1) <= Through(entries, k.0, k.1);
      assert k in before;
      if i < |e.tokens| {
        ThroughShrinks(rest, e.space, e.tokens[..i + 1], k.1);
      }
      assert k in after || k !in after;
    }
    if i > 0 {
      assert Through(rest, e.space, e.tokens[..i]) <= Through(rest, e.space, []);
    }
  }

  lemma PrunedIsTrie(before: Nodes, after: Nodes, entries: map<int, Entry>, s: int, i: nat)
    requires s in entries && UnownedTrie(before, entries, s) && i <= |entries[s].tokens|
    requires forall k {:trigger k in after} :: k in after ==> k in before && after[k] == before[k] && after[k] != {}
    requires forall k: (string, seq<int>) :: Through(entries - {s}, k.0, k.1) != {} ==> k in after
    ensures IsTrie(after, entries - {s})
  {
    forall k: (string, seq<int>)
      ensures (k in after <==> Through(entries - {s}, k.0, k.1) != {})
              && (k in after ==> after[k] == Through(entries - {s}, k.0, k.1))
    {
      assert k in after || k !in after;
    }
  }
}

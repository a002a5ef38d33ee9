/** Credits dominate pages on the CPU: the paged cache follows every legal run of the engine's credit steps, without
    ever running out of pages or copying one. */
module CpuServing {
  import opened Arithmetic
  import opened Outcomes
  import opened RefCounts
  import opened Batches
  import opened PageLedger
  import opened Preflight
  import opened Credits
  import CpuRuntime

  // ---- pages mirror blocks --------------------------------------------------------

  /** At every filled place, two tables list the same page exactly if the two slots hold the same credit block. */
  ghost predicate Mirrors(tables: seq<Table>, blocks: seq<seq<nat>>) {
    && |tables| == |blocks|
    && (forall s :: 0 <= s < |tables| ==> |tables[s].pages| <= |blocks[s]|)
    && forall s, t, i, j :: 0 <= s < |tables| && 0 <= t < |tables| && 0 <= i < |tables[s].pages|
                            && 0 <= j < |tables[t].pages| ==>
         Alike(tables, blocks, s, i, t, j)
  }

  ghost predicate Alike(tables: seq<Table>, blocks: seq<seq<nat>>, s: nat, i: nat, t: nat, j: nat)
    requires s < |tables| == |blocks| && t < |tables| && i < |tables[s].pages| && j < |tables[t].pages|
    requires i < |blocks[s]| && j < |blocks[t]|
  {
    tables[s].pages[i] == tables[t].pages[j] <==> blocks[s][i] == blocks[t][j]
  }

  ghost predicate Coupled(l: Ledger, v: View, c: Capacity) {
    && Sound(v, c) && Consistent(l, c.blockSize) && |l.refs| == c.blocks
    && |l.tables| == |v.blocks|
    && (forall s :: 0 <= s < |l.tables| ==> l.tables[s].length == |v.histories[s]|)
    && Mirrors(l.tables, v.blocks)
  }

  lemma PagesWithinBlocks(l: Ledger, v: View, c: Capacity, s: nat)
    requires Sound(v, c) && Consistent(l, c.blockSize) && |l.tables| == |v.blocks| && s < |l.tables|
    requires l.tables[s].length == |v.histories[s]|
    ensures |l.tables[s].pages| == CeilDiv(|v.histories[s]|, c.blockSize) <= |v.blocks[s]|
  {
    assert SlotOk(v, c, s);
    CeilDivMonotone(|v.histories[s]|, |v.blocks[s]| * c.blockSize, c.blockSize);
    CeilDivExact(|v.blocks[s]|, c.blockSize);
    assert TableOk(l.tables[s], |l.refs|, c.blockSize);
  }

  /** A block another slot holds too lies before every place the slot has yet to fill. */
  lemma UnfilledIsPrivate(l: Ledger, v: View, c: Capacity, s: nat, i: nat, t: nat, j: nat)
    requires Coupled(l, v, c) && s < |l.tables| && t < |l.tables| && i < |v.blocks[s]| && j < |v.blocks[t]|
    requires l.tables[s].length / c.blockSize <= i
    ensures v.blocks[s][i] == v.blocks[t][j] ==> s == t && i == j
  {
    assert SharedFull(v, c.blockSize, s, i, t, j);
    assert SlotOk(v, c, s);
    var n := l.tables[s].length;
    assert n == n / c.blockSize * c.blockSize + n % c.blockSize;
    MulStep(n / c.blockSize, i + 1, c.blockSize);
  }

  // ---- copy-on-write never fires ----------------------------------------------------

  /** A partial tail page belongs to its sequence alone. */
  lemma TailNotShared(l: Ledger, v: View, c: Capacity, s: nat)
    requires Coupled(l, v, c) && s < |l.tables| && l.tables[s].length % c.blockSize != 0
    ensures !NeedsPage(l, s, c.blockSize)
  {
    var t := l.tables[s];
    TailExists(t, |l.refs|, c.blockSize);
    var i := |t.pages| - 1;
    var tail := t.pages[i];
    forall r | r in Owners(l.tables, tail) ensures r == s {
      var j :| 0 <= j < |l.tables[r].pages| && l.tables[r].pages[j] == tail;
      assert Alike(l.tables, v.blocks, s, i, r, j);
      UnfilledIsPrivate(l, v, c, s, i, r, j);
    }
    assert Owners(l.tables, tail) <= {s};
    SubsetSize(Owners(l.tables, tail), {s});
  }

  // ---- counting: distinct pages against distinct blocks --------------------------------

  /** The distinct members of the first `n` lists, each cut to its count. */
  ghost function Covered(lists: seq<seq<nat>>, counts: seq<nat>, n: nat): set<nat>
    requires n <= |lists| && n <= |counts|
    requires forall s :: 0 <= s < n ==> counts[s] <= |lists[s]|
  {
    if n == 0 then {} else Covered(lists, counts, n - 1) + SetOf(lists[n - 1][..counts[n - 1]])
  }

  lemma {:induction false} CoveredMember(lists: seq<seq<nat>>, counts: seq<nat>, n: nat, x: nat)
    requires n <= |lists| && n <= |counts| && forall s :: 0 <= s < n ==> counts[s] <= |lists[s]|
    ensures x in Covered(lists, counts, n) <==> exists s, i :: Lists(lists, counts, n, s, i, x)
  {
    if n == 0 {
    } else {
      CoveredMember(lists, counts, n - 1, x);
      if x in Covered(lists, counts, n - 1) {
        var s, i :| Lists(lists, counts, n - 1, s, i, x);
        assert Lists(lists, counts, n, s, i, x);
      } else if x in SetOf(lists[n - 1][..counts[n - 1]]) {
        var i :| 0 <= i < counts[n - 1] && lists[n - 1][..counts[n - 1]][i] == x;
        assert Lists(lists, counts, n, n - 1, i, x);
      }
      if exists s, i :: Lists(lists, counts, n, s, i, x) {
        var s, i :| Lists(lists, counts, n, s, i, x);
        if s < n - 1 {
          assert Lists(lists, counts, n - 1, s, i, x);
        } else {
          assert lists[n - 1][..counts[n - 1]][i] == x;
        }
      }
    }
  }

  ghost predicate Lists(lists: seq<seq<nat>>, counts: seq<nat>, n: nat, s: int, i: int, x: nat)
    requires n <= |lists| && n <= |counts|
  {
    0 <= s < n && 0 <= i < counts[s] && i < |lists[s]| && lists[s][i] == x
  }

  /** Places of a list whose member is not in a set. */
  ghost function NewPlaces(known: set<nat>, ids: seq<nat>): set<int> {
    set i | 0 <= i < |ids| && ids[i] !in known
  }

  lemma PlacesSnoc(known: set<nat>, rest: seq<nat>, last: nat)
    ensures |NewPlaces(known, rest + [last])| == |NewPlaces(known, rest)| + if last in known then 0 else 1
  {
    var ids := rest + [last];
    if last in known {
      assert NewPlaces(known, ids) == NewPlaces(known, rest);
    } else {
      assert NewPlaces(known, ids) == NewPlaces(known, rest) + {|rest|};
      assert |rest| !in NewPlaces(known, rest);
    }
  }

  lemma SetSnoc(known: set<nat>, rest: seq<nat>, last: nat)
    requires last !in rest
    ensures |known + SetOf(rest + [last])| == |known + SetOf(rest)| + if last in known then 0 else 1
  {
    assert SetOf(rest + [last]) == SetOf(rest) + {last};
    if last in known {
      assert known + SetOf(rest + [last]) == known + SetOf(rest);
    } else {
      assert known + SetOf(rest + [last]) == (known + SetOf(rest)) + {last};
    }
  }

  lemma {:induction false} UnionSize(known: set<nat>, ids: seq<nat>)
    requires Distinct(ids)
    ensures |known + SetOf(ids)| == |known| + |NewPlaces(known, ids)|
  {
    if ids == [] {
      assert known + SetOf(ids) == known && NewPlaces(known, ids) == {};
    } else {
      var rest, last := ids[..|ids| - 1], ids[|ids| - 1];
      UnionSize(known, rest);
      assert ids == rest + [last];
      PlacesSnoc(known, rest, last);
      SetSnoc(known, rest, last);
    }
  }

  ghost function PageCounts(tables: seq<Table>): (r: seq<nat>)
    ensures |r| == |tables|
  {
    seq(|tables|, s requires 0 <= s < |tables| => |tables[s].pages|)
  }

  ghost function PageLists(tables: seq<Table>): (r: seq<seq<nat>>)
    ensures |r| == |tables|
  {
    seq(|tables|, s requires 0 <= s < |tables| => tables[s].pages)
  }

  /** Where pages mirror blocks, a sequence adds as many new pages as it adds new blocks. */
  lemma NewPlacesMirror(tables: seq<Table>, blocks: seq<seq<nat>>, n: nat)
    requires Mirrors(tables, blocks) && n < |tables|
    ensures |tables[n].pages| <= |blocks[n]|
    ensures NewPlaces(Covered(PageLists(tables), PageCounts(tables), n), tables[n].pages)
         == NewPlaces(Covered(blocks, PageCounts(tables), n), blocks[n][..|tables[n].pages|])
  {
    var pages, counts := PageLists(tables), PageCounts(tables);
    var filled := blocks[n][..|tables[n].pages|];
    forall i | 0 <= i < |tables[n].pages|
      ensures tables[n].pages[i] in Covered(pages, counts, n) <==> filled[i] in Covered(blocks, counts, n)
    {
      CoveredMember(pages, counts, n, tables[n].pages[i]);
      CoveredMember(blocks, counts, n, filled[i]);
      if tables[n].pages[i] in Covered(pages, counts, n) {
        var s, j :| Lists(pages, counts, n, s, j, tables[n].pages[i]);
        assert Alike(tables, blocks, s, j, n, i);
        assert Lists(blocks, counts, n, s, j, filled[i]);
      }
      if filled[i] in Covered(blocks, counts, n) {
        var s, j :| Lists(blocks, counts, n, s, j, filled[i]);
        assert Alike(tables, blocks, s, j, n, i);
        assert Lists(pages, counts, n, s, j, tables[n].pages[i]);
      }
    }
  }

  lemma DistinctPrefix(ids: seq<nat>, n: nat)
    requires Distinct(ids) && n <= |ids|
    ensures Distinct(ids[..n])
  {
  }

  lemma NothingCovered(lists: seq<seq<nat>>, counts: seq<nat>)
    ensures Covered(lists, counts, 0) == {}
  {
  }

  lemma OneMoreList(lists: seq<seq<nat>>, counts: seq<nat>, k: nat)
    requires |lists| == |counts| && k < |lists| && Distinct(lists[k])
    requires forall s :: 0 <= s < |lists| ==> counts[s] <= |lists[s]|
    ensures |Covered(lists, counts, k + 1)|
              == |Covered(lists, counts, k)| + |NewPlaces(Covered(lists, counts, k), lists[k][..counts[k]])|
  {
    hide NewPlaces, Distinct;
    DistinctPrefix(lists[k], counts[k]);
    UnionSize(Covered(lists, counts, k), lists[k][..counts[k]]);
  }

  lemma MirroredCounts(tables: seq<Table>, blocks: seq<seq<nat>>)
    requires Mirrors(tables, blocks)
    ensures |tables| == |blocks| && forall s :: 0 <= s < |tables| ==> PageCounts(tables)[s] <= |blocks[s]|
  {
  }

  lemma TableDistinct(t: Table, pages: nat, pageTokens: nat)
    requires pageTokens > 0 && TableOk(t, pages, pageTokens)
    ensures Distinct(t.pages)
  {
  }

  /** The used pages are as many as the distinct blocks that are filled. */
  lemma {:induction false} SameSize(tables: seq<Table>, blocks: seq<seq<nat>>, pages: nat, pageTokens: nat, n: nat)
    requires Mirrors(tables, blocks) && n <= |tables| && pageTokens > 0 && TablesOk(tables, pages, pageTokens)
    requires forall s :: 0 <= s < |blocks| ==> Distinct(blocks[s])
    ensures forall s :: 0 <= s < n ==> PageCounts(tables)[s] <= |blocks[s]|
    ensures |Covered(PageLists(tables), PageCounts(tables), n)| == |Covered(blocks, PageCounts(tables), n)|
  {
    hide NewPlaces, Covered, Distinct, TableOk;
    MirroredCounts(tables, blocks);
    if n == 0 {
      NothingCovered(PageLists(tables), PageCounts(tables));
      NothingCovered(blocks, PageCounts(tables));
    } else {
      var m := n - 1;
      SameSize(tables, blocks, pages, pageTokens, m);
      NewPlacesMirror(tables, blocks, m);
      TableDistinct(tables[m], pages, pageTokens);
      OneMoreList(PageLists(tables), PageCounts(tables), m);
      OneMoreList(blocks, PageCounts(tables), m);
      assert tables[m].pages[..|tables[m].pages|] == tables[m].pages;
    }
  }

  ghost function Growth(counts: seq<nat>, targets: seq<nat>, n: nat): int
    requires n <= |counts| && n <= |targets|
  {
    if n == 0 then 0 else Growth(counts, targets, n - 1) + targets[n - 1] - counts[n - 1]
  }

  /** Places from the current count on are private to their list. */
  ghost predicate PrivateBeyond(lists: seq<seq<nat>>, counts: seq<nat>)
    requires |counts| == |lists|
  {
    forall s, i, t, j :: 0 <= s < |lists| && counts[s] <= i < |lists[s]| && 0 <= t < |lists| && 0 <= j < |lists[t]| ==>
      lists[s][i] == lists[t][j] ==> s == t && i == j
  }

  lemma GrownPlaces(lists: seq<seq<nat>>, counts: seq<nat>, targets: seq<nat>, n: nat)
    requires |lists| == |counts| == |targets| && n < |lists| && PrivateBeyond(lists, counts)
    requires forall s :: 0 <= s < |lists| ==> counts[s] <= targets[s] <= |lists[s]|
    ensures |NewPlaces(Covered(lists, targets, n), lists[n][..targets[n]])|
         == |NewPlaces(Covered(lists, counts, n), lists[n][..counts[n]])| + targets[n] - counts[n]
  {
    hide Covered, Range, SetOf;
    var small := NewPlaces(Covered(lists, counts, n), lists[n][..counts[n]]);
    var large := NewPlaces(Covered(lists, targets, n), lists[n][..targets[n]]);
    forall i | 0 <= i < targets[n]
      ensures lists[n][i] in Covered(lists, targets, n) <==> i < counts[n] && lists[n][i] in Covered(lists, counts, n)
    {
      CoveredMember(lists, targets, n, lists[n][i]);
      CoveredMember(lists, counts, n, lists[n][i]);
      if lists[n][i] in Covered(lists, targets, n) {
        var s, j :| Lists(lists, targets, n, s, j, lists[n][i]);
        assert i < counts[n] && j < counts[s];
        assert Lists(lists, counts, n, s, j, lists[n][i]);
      }
      if i < counts[n] && lists[n][i] in Covered(lists, counts, n) {
        var s, j :| Lists(lists, counts, n, s, j, lists[n][i]);
        assert Lists(lists, targets, n, s, j, lists[n][i]);
      }
    }
    assert large == small + Range(counts[n], targets[n]);
    assert small !! Range(counts[n], targets[n]);
  }

  ghost function Range(a: nat, b: nat): (r: set<int>)
    ensures forall i :: i in r <==> a <= i < b
    ensures a <= b ==> |r| == b - a
  {
    if b <= a then {} else Range(a, b - 1) + {b - 1}
  }

  lemma {:induction false} GrownSize(lists: seq<seq<nat>>, counts: seq<nat>, targets: seq<nat>, n: nat)
    requires |lists| == |counts| == |targets| && n <= |lists| && PrivateBeyond(lists, counts)
    requires forall s :: 0 <= s < |lists| ==> counts[s] <= targets[s] <= |lists[s]| && Distinct(lists[s])
    ensures |Covered(lists, targets, n)| == |Covered(lists, counts, n)| + Growth(counts, targets, n)
  {
    hide NewPlaces, PrivateBeyond, Covered, Distinct;
    if n == 0 {
      NothingCovered(lists, targets);
      NothingCovered(lists, counts);
    } else {
      var k := n - 1;
      GrownSize(lists, counts, targets, k);
      GrownPlaces(lists, counts, targets, k);
      OneMoreList(lists, targets, k);
      OneMoreList(lists, counts, k);
    }
  }

  // ---- the capacity theorem -------------------------------------------------------------

  lemma AllPagesCovered(l: Ledger, pageTokens: nat)
    requires pageTokens > 0 && Consistent(l, pageTokens)
    ensures Covered(PageLists(l.tables), PageCounts(l.tables), |l.tables|) == Used(l.refs)
  {
    var covered := Covered(PageLists(l.tables), PageCounts(l.tables), |l.tables|);
    forall page: nat ensures page in covered <==> page in Used(l.refs) {
      CoveredMember(PageLists(l.tables), PageCounts(l.tables), |l.tables|, page);
      if page in covered {
        var s, i :| Lists(PageLists(l.tables), PageCounts(l.tables), |l.tables|, s, i, page);
        HeldPages(l, s, pageTokens, []);
      }
      if page in Used(l.refs) {
        var s := Pick(Owners(l.tables, page));
        var i :| 0 <= i < |l.tables[s].pages| && l.tables[s].pages[i] == page;
        assert Lists(PageLists(l.tables), PageCounts(l.tables), |l.tables|, s, i, page);
      }
    }
  }

  ghost function TargetPages(targets: seq<nat>, pageTokens: nat): (r: seq<nat>)
    requires pageTokens > 0
    ensures |r| == |targets|
  {
    seq(|targets|, s requires 0 <= s < |targets| => CeilDiv(targets[s], pageTokens))
  }

  /** Without shared tails, the preflight asks for exactly the growth in pages. */
  lemma {:induction false} NeededIsGrowth(l: Ledger, v: View, c: Capacity, targets: seq<nat>, n: nat)
    requires Coupled(l, v, c) && Reachable(l, targets, c.blockSize) && n <= |targets|
    ensures Needed(l, targets, c.blockSize, n) == Growth(PageCounts(l.tables), TargetPages(targets, c.blockSize), n)
  {
    if n == 0 {
    } else {
      NeededIsGrowth(l, v, c, targets, n - 1);
      assert TableOk(l.tables[n - 1], |l.refs|, c.blockSize);
      if l.tables[n - 1].length % c.blockSize != 0 {
        TailNotShared(l, v, c, n - 1);
      }
    }
  }

  lemma CoveredWithin(lists: seq<seq<nat>>, counts: seq<nat>, n: nat, bound: nat)
    requires n <= |lists| && n <= |counts| && forall s :: 0 <= s < n ==> counts[s] <= |lists[s]|
    requires forall s :: 0 <= s < n ==> Within(lists[s], bound)
    ensures |Covered(lists, counts, n)| <= bound
  {
    forall x | x in Covered(lists, counts, n) ensures x in Below(bound) {
      CoveredMember(lists, counts, n, x);
      var s, i :| Lists(lists, counts, n, s, i, x);
    }
    SubsetSize(Covered(lists, counts, n), Below(bound));
  }

  /** What is not yet filled is private, in the terms of the counting lemmas. */
  lemma UnfilledPrivate(l: Ledger, v: View, c: Capacity)
    requires Coupled(l, v, c)
    ensures PrivateBeyond(v.blocks, PageCounts(l.tables))
  {
    forall s, i, t, j | 0 <= s < |v.blocks| && PageCounts(l.tables)[s] <= i < |v.blocks[s]|
                        && 0 <= t < |v.blocks| && 0 <= j < |v.blocks[t]| && v.blocks[s][i] == v.blocks[t][j]
      ensures s == t && i == j
    {
      PagesWithinBlocks(l, v, c, s);
      CeilDivSteps(l.tables[s].length, c.blockSize);
      UnfilledIsPrivate(l, v, c, s, i, t, j);
    }
  }

  /** Whatever batch stays within the credits of its slots passes the page preflight: "capacity exceeded" cannot come
      from an engine that reserves credits. */
  lemma CreditsCoverDemand(l: Ledger, v: View, c: Capacity, targets: seq<nat>)
    requires Coupled(l, v, c) && Reachable(l, targets, c.blockSize)
    requires forall s :: 0 <= s < |targets| ==> targets[s] <= |v.blocks[s]| * c.blockSize
    ensures Needed(l, targets, c.blockSize, |targets|) <= |l.free|
  {
    var counts, goals := PageCounts(l.tables), TargetPages(targets, c.blockSize);
    var n := |targets|;
    forall s | 0 <= s < n ensures counts[s] <= goals[s] <= |v.blocks[s]| && Distinct(v.blocks[s])
           && Within(v.blocks[s], c.blocks) {
      PagesWithinBlocks(l, v, c, s);
      CeilDivMonotone(l.tables[s].length, targets[s], c.blockSize);
      CeilDivMonotone(targets[s], |v.blocks[s]| * c.blockSize, c.blockSize);
      CeilDivExact(|v.blocks[s]|, c.blockSize);
      assert SlotOk(v, c, s);
    }
    SameSize(l.tables, v.blocks, |l.refs|, c.blockSize, n);
    UnfilledPrivate(l, v, c);
    GrownSize(v.blocks, counts, goals, n);
    NeededIsGrowth(l, v, c, targets, n);
    CoveredWithin(v.blocks, goals, n, c.blocks);
    AllPagesCovered(l, c.blockSize);
    FreeCount(l.refs, l.free);
  }

  /** In every coupled state the pages in use are no more than the distinct blocks held. */
  lemma PagesWithinCredits(l: Ledger, v: View, c: Capacity)
    requires Coupled(l, v, c)
    ensures |l.refs| - |l.free| <= |HeldBlocks(v.blocks)|
  {
    var n := |l.tables|;
    forall s | 0 <= s < n ensures Distinct(v.blocks[s]) {
      assert SlotOk(v, c, s);
    }
    SameSize(l.tables, v.blocks, |l.refs|, c.blockSize, n);
    AllPagesCovered(l, c.blockSize);
    FreeCount(l.refs, l.free);
    forall x | x in Covered(v.blocks, PageCounts(l.tables), n) ensures x in HeldBlocks(v.blocks) {
      CoveredMember(v.blocks, PageCounts(l.tables), n, x);
    }
    SubsetSize(Covered(v.blocks, PageCounts(l.tables), n), HeldBlocks(v.blocks));
  }

  /** The credit blocks in use. */
  ghost function HeldBlocks(blocks: seq<seq<nat>>): set<nat> {
    set s, i | 0 <= s < |blocks| && 0 <= i < |blocks[s]| :: blocks[s][i]
  }

  // ---- the cache follows each step -------------------------------------------------------------

  lemma ReleaseCoupled(l: Ledger, v: View, c: Capacity, slot: nat)
    requires Coupled(l, v, c) && slot < |l.tables|
    ensures Coupled(Cleared(l, slot, c.blockSize, []), Apply(v, c, Release(slot)), c)
  {
    ReleaseSound(v, c, slot);
    ClearConsistent(l, slot, c.blockSize, []);
    var l' := Cleared(l, slot, c.blockSize, []);
    var v' := Apply(v, c, Release(slot));
    forall s, t, i, j | 0 <= s < |l'.tables| && 0 <= t < |l'.tables| && 0 <= i < |l'.tables[s].pages|
           && 0 <= j < |l'.tables[t].pages|
      ensures Alike(l'.tables, v'.blocks, s, i, t, j)
    {
      assert Alike(l.tables, v.blocks, s, i, t, j);
    }
  }

  /** The pages a shared prefix brings are those of the source, block by block. */
  lemma AdoptMirrors(tables: seq<Table>, blocks: seq<seq<nat>>, slot: nat, source: nat, n: nat, t': Table, b': seq<nat>)
    requires Mirrors(tables, blocks) && slot < |tables| && source < |tables| && source != slot
    requires n <= |tables[source].pages| && t'.pages == tables[source].pages[..n]
    requires n <= |b'| && forall i :: 0 <= i < n ==> b'[i] == blocks[source][i]
    ensures Mirrors(tables[slot := t'], blocks[slot := b'])
  {
    var tables', blocks' := tables[slot := t'], blocks[slot := b'];
    forall s, t, i, j | 0 <= s < |tables'| && 0 <= t < |tables'| && 0 <= i < |tables'[s].pages|
           && 0 <= j < |tables'[t].pages|
      ensures Alike(tables', blocks', s, i, t, j)
    {
      assert Alike(tables, blocks, if s == slot then source else s, i, if t == slot then source else t, j);
    }
  }

  ghost predicate SameLengths(tables: seq<Table>, h: Histories) {
    |tables| == |h| && forall s :: 0 <= s < |tables| ==> tables[s].length == |h[s]|
  }

  lemma Couple(l: Ledger, v: View, c: Capacity)
    requires Sound(v, c) && Consistent(l, c.blockSize) && |l.refs| == c.blocks
    requires SameLengths(l.tables, v.histories) && Mirrors(l.tables, v.blocks)
    ensures Coupled(l, v, c)
  {
  }

  lemma AdoptCoupled(l: Ledger, v: View, c: Capacity, slot: nat, source: nat, tokens: nat, granted: seq<nat>)
    requires Coupled(l, v, c) && slot < |l.tables| && source < |l.tables|
    requires Legal(v, c, Adopt(slot, Some(source), tokens, granted))
    ensures tokens <= l.tables[source].length && slot != source
    ensures Coupled(Shared(l, source, slot, tokens, c.blockSize),
                    Apply(v, c, Adopt(slot, Some(source), tokens, granted)), c)
  {
    AdoptSound(v, c, slot, Some(source), tokens, granted);
    ShareConsistent(l, source, slot, tokens, c.blockSize);
    SharedTables(l, source, slot, tokens, c.blockSize);
    AdoptTables(l, v, c, slot, source, tokens, granted);
    hide Sound, Consistent, Mirrors, Apply, Shared, Legal;
    Couple(Shared(l, source, slot, tokens, c.blockSize), Apply(v, c, Adopt(slot, Some(source), tokens, granted)), c);
  }

  lemma AdoptTables(l: Ledger, v: View, c: Capacity, slot: nat, source: nat, tokens: nat, granted: seq<nat>)
    requires Coupled(l, v, c) && slot < |l.tables| && source < |l.tables|
    requires Legal(v, c, Adopt(slot, Some(source), tokens, granted))
    ensures tokens / c.blockSize == CeilDiv(tokens, c.blockSize) <= |l.tables[source].pages|
    ensures var tables' := l.tables[slot := Table(l.tables[source].pages[..CeilDiv(tokens, c.blockSize)], tokens)];
            var v' := Apply(v, c, Adopt(slot, Some(source), tokens, granted));
      SameLengths(tables', v'.histories) && Mirrors(tables', v'.blocks)
  {
    var n := tokens / c.blockSize;
    PrefixWithin(l, c.blockSize, source, tokens);
    var held, reused := AdoptedView(v, c, slot, source, tokens, granted);
    hide *;
    AdoptMirrors(l.tables, v.blocks, slot, source, n, Table(l.tables[source].pages[..n], tokens), held);
    SetLength(l.tables, v.histories, slot, Table(l.tables[source].pages[..n], tokens), reused);
  }

  lemma SetLength(tables: seq<Table>, h: Histories, slot: nat, t: Table, reused: seq<int>)
    requires SameLengths(tables, h) && slot < |tables| && t.length == |reused|
    ensures SameLengths(tables[slot := t], h[slot := reused])
  {
  }

  lemma PrefixWithin(l: Ledger, pageTokens: nat, source: nat, tokens: nat)
    requires pageTokens > 0 && Consistent(l, pageTokens) && source < |l.tables|
    requires tokens <= l.tables[source].length && tokens % pageTokens == 0
    ensures tokens / pageTokens == CeilDiv(tokens, pageTokens) <= |l.tables[source].pages|
  {
    CeilDivExact(tokens / pageTokens, pageTokens);
    CeilDivMonotone(tokens, l.tables[source].length, pageTokens);
    assert TableOk(l.tables[source], |l.refs|, pageTokens);
    assert tokens / pageTokens * pageTokens == tokens;
    hide Consistent, Distinct, Within;
  }

  lemma AdoptedView(v: View, c: Capacity, slot: nat, source: nat, tokens: nat, granted: seq<nat>)
    returns (held: seq<nat>, reused: seq<int>)
    requires Sound(v, c) && Legal(v, c, Adopt(slot, Some(source), tokens, granted))
    ensures Apply(v, c, Adopt(slot, Some(source), tokens, granted))
              == View(v.histories[slot := reused], v.blocks[slot := held])
    ensures |reused| == tokens && tokens / c.blockSize <= |held| && tokens / c.blockSize <= |v.blocks[source]|
    ensures forall i :: 0 <= i < tokens / c.blockSize ==> held[i] == v.blocks[source][i]
  {
    AdoptedTable(v, c, slot, Some(source), tokens, granted);
    var v' := Apply(v, c, Adopt(slot, Some(source), tokens, granted));
    held, reused := v'.blocks[slot], v'.histories[slot];
  }

  lemma SharedTables(l: Ledger, source: nat, target: nat, tokens: nat, pageTokens: nat)
    requires pageTokens > 0 && Consistent(l, pageTokens)
    requires source < |l.tables| && target < |l.tables| && source != target && tokens <= l.tables[source].length
    ensures var l' := Shared(l, source, target, tokens, pageTokens);
      && |l'.refs| == |l.refs| && CeilDiv(tokens, pageTokens) <= |l.tables[source].pages|
      && l'.tables == l.tables[target := Table(l.tables[source].pages[..CeilDiv(tokens, pageTokens)], tokens)]
  {
    CeilDivMonotone(tokens, l.tables[source].length, pageTokens);
    assert TableOk(l.tables[source], |l.refs|, pageTokens);
    RetainHolds(l, PrefixPages(l.tables[source], |l.refs|, tokens, pageTokens), pageTokens);
  }

  /** An admission without a match: only credits change. */
  lemma ReserveCoupled(l: Ledger, v: View, c: Capacity, slot: nat, granted: seq<nat>)
    requires Coupled(l, v, c) && slot < |l.tables| && Legal(v, c, Adopt(slot, None, 0, granted))
    ensures Coupled(l, Apply(v, c, Adopt(slot, None, 0, granted)), c)
  {
    AdoptSound(v, c, slot, None, 0, granted);
    var v' := Apply(v, c, Adopt(slot, None, 0, granted));
    PagesWithinBlocks(l, v, c, slot);
    CeilDivExact(0, c.blockSize);
    forall s, t, i, j | 0 <= s < |l.tables| && 0 <= t < |l.tables| && 0 <= i < |l.tables[s].pages|
           && 0 <= j < |l.tables[t].pages|
      ensures Alike(l.tables, v'.blocks, s, i, t, j)
    {
      assert Alike(l.tables, v.blocks, s, i, t, j);
    }
  }

  ghost function OneFed(v: View, s: nat, token: int): View
    requires s < |v.histories|
  {
    v.(histories := v.histories[s := v.histories[s] + [token]])
  }

  /** A new page under a new block. */
  lemma GrowMirrors(tables: seq<Table>, blocks: seq<seq<nat>>, s: nat, id: nat, length: nat)
    requires Mirrors(tables, blocks) && s < |tables| && |tables[s].pages| < |blocks[s]|
    requires forall t :: 0 <= t < |tables| ==> id !in tables[t].pages
    requires forall t, j :: 0 <= t < |tables| && 0 <= j < |tables[t].pages| ==>
               blocks[t][j] != blocks[s][|tables[s].pages|]
    ensures Mirrors(tables[s := Table(tables[s].pages + [id], length)], blocks)
  {
    var k := |tables[s].pages|;
    var tables' := tables[s := Table(tables[s].pages + [id], length)];
    forall a, b, i, j | 0 <= a < |tables'| && 0 <= b < |tables'| && 0 <= i < |tables'[a].pages|
           && 0 <= j < |tables'[b].pages|
      ensures Alike(tables', blocks, a, i, b, j)
    {
      if !(a == s && i == k) && !(b == s && j == k) {
        assert Alike(tables, blocks, a, i, b, j);
      }
    }
  }

  /** A longer table of the same pages. */
  lemma LengthenMirrors(tables: seq<Table>, blocks: seq<seq<nat>>, s: nat, length: nat)
    requires Mirrors(tables, blocks) && s < |tables|
    ensures Mirrors(tables[s := tables[s].(length := length)], blocks)
  {
    var tables' := tables[s := tables[s].(length := length)];
    forall a, b, i, j | 0 <= a < |tables'| && 0 <= b < |tables'| && 0 <= i < |tables'[a].pages|
           && 0 <= j < |tables'[b].pages|
      ensures Alike(tables', blocks, a, i, b, j)
    {
      assert Alike(tables, blocks, a, i, b, j);
    }
  }

  lemma NextBlockFree(l: Ledger, v: View, c: Capacity, s: nat)
    requires Coupled(l, v, c) && s < |l.tables| && |v.histories[s]| < |v.blocks[s]| * c.blockSize
    requires l.tables[s].length % c.blockSize == 0
    ensures var k := |l.tables[s].pages|;
      && k < |v.blocks[s]|
      && forall t, j :: 0 <= t < |l.tables| && 0 <= j < |l.tables[t].pages| && j < |v.blocks[t]| ==>
           v.blocks[t][j] != v.blocks[s][k]
  {
    assert TableOk(l.tables[s], |l.refs|, c.blockSize);
    var n := l.tables[s].length;
    CeilDivSteps(n, c.blockSize);
    var k := n / c.blockSize;
    assert n == k * c.blockSize;
    MulStep(|v.blocks[s]| - 1, k, c.blockSize);
    assert (|v.blocks[s]| - 1) * c.blockSize + c.blockSize == |v.blocks[s]| * c.blockSize;
    assert k < |v.blocks[s]|;
    forall t, j | 0 <= t < |l.tables| && 0 <= j < |l.tables[t].pages|
           && j < |v.blocks[t]| ensures v.blocks[t][j] != v.blocks[s][k] {
      UnfilledIsPrivate(l, v, c, s, k, t, j);
    }
  }

  lemma FedSound(v: View, c: Capacity, s: nat, token: int)
    requires Sound(v, c) && s < |v.histories| && |v.histories[s]| < |v.blocks[s]| * c.blockSize
    ensures Sound(OneFed(v, s, token), c)
  {
    forall r | 0 <= r < |v.blocks| ensures |OneFed(v, s, token).histories[r]| <= |v.blocks[r]| * c.blockSize {
      assert SlotOk(v, c, r);
    }
    GrowSound(v, c, OneFed(v, s, token).histories);
  }

  lemma AppendedTables(l: Ledger, v: View, c: Capacity, s: nat)
    requires Coupled(l, v, c) && s < |l.tables| && |v.histories[s]| < |v.blocks[s]| * c.blockSize
    requires NeedsPage(l, s, c.blockSize) ==> l.free != []
    ensures Mirrors(Appended(l, s, c.blockSize).tables, v.blocks)
    ensures |Appended(l, s, c.blockSize).refs| == |l.refs|
    ensures !Copies(l, s, c.blockSize)
  {
    var n := l.tables[s].length;
    if n % c.blockSize == 0 {
      AppendedAtBoundary(l, s, c.blockSize);
      FreePageHasNoOwner(l, c.blockSize);
      NextBlockFree(l, v, c, s);
      hide Appended, Sound, Consistent;
      GrowMirrors(l.tables, v.blocks, s, l.free[|l.free| - 1], n + 1);
    } else {
      TailNotShared(l, v, c, s);
      hide Sound, Consistent;
      LengthenMirrors(l.tables, v.blocks, s, n + 1);
    }
  }

  lemma AppendCoupled(l: Ledger, v: View, c: Capacity, s: nat, token: int)
    requires Coupled(l, v, c) && s < |l.tables| && |v.histories[s]| < |v.blocks[s]| * c.blockSize
    requires NeedsPage(l, s, c.blockSize) ==> l.free != []
    ensures Coupled(Appended(l, s, c.blockSize), OneFed(v, s, token), c)
    ensures !Copies(l, s, c.blockSize)
  {
    AppendConsistent(l, s, c.blockSize);
    FedSound(v, c, s, token);
    AppendedTables(l, v, c, s);
    AppendedLengths(l, s, c.blockSize);
    hide Sound, Consistent, Mirrors, Appended, NeedsPage, Copies;
    Couple(Appended(l, s, c.blockSize), OneFed(v, s, token), c);
  }

  lemma AppendedLengths(l: Ledger, s: nat, pageTokens: nat)
    requires pageTokens > 0 && s < |l.tables| && Consistent(l, pageTokens)
    requires NeedsPage(l, s, pageTokens) ==> l.free != []
    ensures var l' := Appended(l, s, pageTokens);
      && |l'.tables| == |l.tables|
      && forall r :: 0 <= r < |l.tables| ==> l'.tables[r].length == l.tables[r].length + if r == s then 1 else 0
  {
  }

  // ---- a whole batch -----------------------------------------------------------------------------

  /** Between two appends of a batch that stays within the credits. */
  ghost predicate Supplied(now: Ledger, w: View, c: Capacity, targets: seq<nat>) {
    && Coupled(now, w, c)
    && Reachable(now, targets, c.blockSize)
    && Needed(now, targets, c.blockSize, |targets|) <= |now.free|
  }

  lemma SuppliedStep(now: Ledger, w: View, c: Capacity, targets: seq<nat>, s: nat, token: int)
    requires Supplied(now, w, c, targets) && s < |w.histories|
             && |w.histories[s]| < targets[s] <= |w.blocks[s]| * c.blockSize
    ensures CanAppend(now, s, c.blockSize) && !Copies(now, s, c.blockSize)
    ensures Supplied(Appended(now, s, c.blockSize), OneFed(w, s, token), c, targets)
  {
    CoveredStep(now, s, targets, c.blockSize);
    hide Appended, NeedsPage, Copies, Needed;
    AppendCoupled(now, w, c, s, token);
  }

  /** The loop state after `i` tokens. */
  ghost predicate Feeding(l: Ledger, v: View, c: Capacity, batch: seq<InputToken>, i: nat)
    requires i <= |batch| && c.blockSize > 0
  {
    && Supplied(AppendedAll(l, batch[..i], c.blockSize), View(HistoriesAfter(v.histories, batch[..i]), v.blocks), c,
                LengthsAfter(Lengths(v.histories), batch))
    && CopiesAll(l, batch[..i], c.blockSize) == 0
  }

  lemma FeedStarts(l: Ledger, v: View, c: Capacity, batch: seq<InputToken>)
    requires Coupled(l, v, c) && Legal(v, c, Feed(batch))
    ensures Feeding(l, v, c, batch, 0)
  {
    hide LengthsAfter, Sound, Consistent, Mirrors, Distinct, Within, Unheld, WellFormed;
    assert batch[..0] == [];
    assert View(HistoriesAfter(v.histories, []), v.blocks) == v;
    var targets := LengthsAfter(Lengths(v.histories), batch);
    LengthsOfHistories(v.histories, batch);
    forall s | 0 <= s < |targets| ensures l.tables[s].length <= targets[s] <= |v.blocks[s]| * c.blockSize {
      assert targets[s] == |HistoriesAfter(v.histories, batch)[s]|;
    }
    CreditsCoverDemand(l, v, c, targets);
  }

  lemma WithinCredits(v: View, c: Capacity, batch: seq<InputToken>, i: nat)
    requires c.blockSize > 0 && Legal(v, c, Feed(batch)) && i < |batch|
    ensures var s := batch[i].sequence;
            var targets := LengthsAfter(Lengths(v.histories), batch);
      && 0 <= s < |v.histories| == |HistoriesAfter(v.histories, batch[..i])| == |targets|
      && |HistoriesAfter(v.histories, batch[..i])[s]| < targets[s] <= |v.blocks[s]| * c.blockSize
  {
    var targets := LengthsAfter(Lengths(v.histories), batch);
    CpuRuntime.NextAppend(v.histories, batch, c.vocabulary, c.maxModelLen, targets, i);
    LengthsOfHistories(v.histories, batch);
    assert targets[batch[i].sequence] == |HistoriesAfter(v.histories, batch)[batch[i].sequence]|;
  }

  lemma FeedOne(l: Ledger, v: View, c: Capacity, batch: seq<InputToken>, i: nat, targets: seq<nat>)
    requires c.blockSize > 0 && Legal(v, c, Feed(batch)) && i < |batch|
    requires targets == LengthsAfter(Lengths(v.histories), batch)
    requires Supplied(AppendedAll(l, batch[..i], c.blockSize), View(HistoriesAfter(v.histories, batch[..i]), v.blocks),
                      c, targets)
    requires CopiesAll(l, batch[..i], c.blockSize) == 0
    ensures Supplied(AppendedAll(l, batch[..i + 1], c.blockSize),
                     View(HistoriesAfter(v.histories, batch[..i + 1]), v.blocks), c, targets)
    ensures CopiesAll(l, batch[..i + 1], c.blockSize) == 0
  {
    hide *;
    WithinCredits(v, c, batch, i);
    var t := batch[i];
    var h := HistoriesAfter(v.histories, batch[..i]);
    var now := AppendedAll(l, batch[..i], c.blockSize);
    HistoriesAfterOne(v.histories, batch, i);
    assert batch[..i] + [t] == batch[..i + 1];
    SuppliedStep(now, View(h, v.blocks), c, targets, t.sequence, t.token);
    FedView(v, h, t.sequence, t.token);
    CanAppendMeans(now, t.sequence, c.blockSize);
    AppendedAllSnoc(l, batch[..i], t, c.blockSize);
  }

  lemma FedView(v: View, h: Histories, s: nat, token: int)
    requires s < |h|
    ensures OneFed(View(h, v.blocks), s, token) == View(h[s := h[s] + [token]], v.blocks)
  {
  }

  lemma CanAppendMeans(l: Ledger, s: nat, pageTokens: nat)
    requires pageTokens > 0 && CanAppend(l, s, pageTokens)
    ensures s < |l.tables| && Consistent(l, pageTokens) && TableOk(l.tables[s], |l.refs|, pageTokens)
    ensures Copies(l, s, pageTokens) <==> l.tables[s].length % pageTokens != 0 && NeedsPage(l, s, pageTokens)
  {
  }

  lemma FeedStep(l: Ledger, v: View, c: Capacity, batch: seq<InputToken>, i: nat)
    requires c.blockSize > 0 && Legal(v, c, Feed(batch)) && i < |batch| && Feeding(l, v, c, batch, i)
    ensures Feeding(l, v, c, batch, i + 1)
  {
    FeedOne(l, v, c, batch, i, LengthsAfter(Lengths(v.histories), batch));
  }

  /** Feeding a legal batch keeps pages mirroring blocks and copies nothing. */
  lemma {:induction false} FeedCoupled(l: Ledger, v: View, c: Capacity, batch: seq<InputToken>, i: nat)
    requires Coupled(l, v, c) && Legal(v, c, Feed(batch)) && i <= |batch|
    ensures Feeding(l, v, c, batch, i)
  {
    if i == 0 {
      FeedStarts(l, v, c, batch);
    } else {
      FeedCoupled(l, v, c, batch, i - 1);
      FeedStep(l, v, c, batch, i - 1);
    }
  }

  lemma FeedDone(l: Ledger, v: View, c: Capacity, batch: seq<InputToken>)
    requires Coupled(l, v, c) && Legal(v, c, Feed(batch))
    ensures Coupled(AppendedAll(l, batch, c.blockSize), Apply(v, c, Feed(batch)), c)
    ensures CopiesAll(l, batch, c.blockSize) == 0
    ensures var targets := LengthsAfter(Lengths(v.histories), batch);
      Reachable(l, targets, c.blockSize) && Needed(l, targets, c.blockSize, |targets|) <= |l.free|
  {
    FeedCoupled(l, v, c, batch, |batch|);
    FeedStarts(l, v, c, batch);
    assert batch[..|batch|] == batch && batch[..0] == [];
    hide Coupled, Reachable, Needed;
  }

  // ---- the theorem: the runtime follows the engine -------------------------------------------------

  /** The configuration the CPU runner derives from the engine's. */
  ghost predicate Configured(rt: CpuRuntime.Runtime, c: Capacity) {
    && c.blockSize == rt.config.pageTokens > 0 && c.blocks == rt.config.contextTokens / rt.config.pageTokens
    && c.vocabulary == rt.config.vocabulary && c.maxModelLen <= rt.config.trainedContext
    && c.batchTokens == rt.config.batchTokens
  }

  /** The runtime is where the view is. */
  ghost predicate Following(rt: CpuRuntime.Runtime, v: View, c: Capacity)
    reads rt, rt.cache
  {
    && rt.Valid() && Configured(rt, c)
    && rt.histories == v.histories
    && Coupled(rt.cache.State(), v, c)
  }

  lemma PositionsRelax(lengths: seq<nat>, batch: seq<InputToken>, vocabulary: nat, small: nat, large: nat)
    requires WellFormed(lengths, batch, vocabulary, small) && small <= large
    ensures WellFormed(lengths, batch, vocabulary, large)
  {
    forall i | 0 <= i < |batch| ensures TokenFits(LengthsAfter(lengths, batch[..i]), batch[i], vocabulary, large) {
      assert TokenFits(LengthsAfter(lengths, batch[..i]), batch[i], vocabulary, small);
    }
  }

  /** What the runner does for one step of the engine; no legal step can fail on it. */
  method FollowStep(rt: CpuRuntime.Runtime, step: Step, ghost v: View, ghost c: Capacity)
    requires c.blockSize > 0 && Following(rt, v, c) && Legal(v, c, step)
    modifies rt, rt.cache
    ensures Following(rt, Apply(v, c, step), c)
    ensures rt.cache.copyOnWrites == old(rt.cache.copyOnWrites)
  {
    match step {
      case Release(slot) =>
        ReleaseCoupled(rt.cache.State(), v, c, slot);
        rt.ClearSequence(slot);
      case Adopt(slot, source, tokens, granted) =>
        FollowAdopt(rt, slot, source, tokens, v, c, granted);
      case Feed(batch) =>
        FollowBatch(rt, batch, v, c);
    }
  }

  method FollowAdopt(rt: CpuRuntime.Runtime, slot: nat, source: Option<nat>, tokens: nat, ghost v: View,
                     ghost c: Capacity, ghost granted: seq<nat>)
    requires c.blockSize > 0 && Following(rt, v, c) && Legal(v, c, Adopt(slot, source, tokens, granted))
    modifies rt, rt.cache
    ensures Following(rt, Apply(v, c, Adopt(slot, source, tokens, granted)), c)
    ensures rt.cache.copyOnWrites == old(rt.cache.copyOnWrites)
  {
    ReleaseCoupled(rt.cache.State(), v, c, slot);
    NothingToRelease(v, c, slot);
    FollowingSlots(rt, v, c);
    hide Coupled, Legal, Apply, Cleared;
    rt.ClearSequence(slot);
    assert Following(rt, v, c);
    if source.Some? {
      FollowShare(rt, slot, source.value, tokens, v, c, granted);
    } else {
      FollowReserve(rt, slot, tokens, v, c, granted);
    }
  }

  lemma NothingToRelease(v: View, c: Capacity, slot: nat)
    requires c.blockSize > 0 && |v.histories| == |v.blocks| && slot < |v.blocks| && v.blocks[slot] == []
             && v.histories[slot] == []
    ensures Apply(v, c, Release(slot)) == v
  {
  }

  lemma FollowingSlots(rt: CpuRuntime.Runtime, v: View, c: Capacity)
    requires c.blockSize > 0 && Following(rt, v, c)
    ensures |v.blocks| == |v.histories| == |rt.cache.tables| == rt.config.maxSequences
  {
  }

  method FollowShare(rt: CpuRuntime.Runtime, slot: nat, source: nat, tokens: nat, ghost v: View, ghost c: Capacity,
                     ghost granted: seq<nat>)
    requires c.blockSize > 0 && Following(rt, v, c) && Legal(v, c, Adopt(slot, Some(source), tokens, granted))
    modifies rt, rt.cache
    ensures Following(rt, Apply(v, c, Adopt(slot, Some(source), tokens, granted)), c)
    ensures rt.cache.copyOnWrites == old(rt.cache.copyOnWrites)
  {
    FollowingSlots(rt, v, c);
    AdoptCoupled(rt.cache.State(), v, c, slot, source, tokens, granted);
    assert tokens <= |rt.histories[source]|;
    hide Coupled, Shared;
    var status := rt.SharePrefix(source, slot, tokens);
    assert status == Ok;
  }

  lemma FollowReserve(rt: CpuRuntime.Runtime, slot: nat, tokens: nat, v: View, c: Capacity, granted: seq<nat>)
    requires c.blockSize > 0 && Following(rt, v, c) && Legal(v, c, Adopt(slot, None, tokens, granted))
    ensures Following(rt, Apply(v, c, Adopt(slot, None, tokens, granted)), c)
  {
    FollowingSlots(rt, v, c);
    ReserveCoupled(rt.cache.State(), v, c, slot, granted);
    hide Coupled;
    assert v.histories[slot := []] == v.histories;
  }

  method FollowBatch(rt: CpuRuntime.Runtime, batch: seq<InputToken>, ghost v: View, ghost c: Capacity)
    requires c.blockSize > 0 && Following(rt, v, c) && Legal(v, c, Feed(batch))
    modifies rt, rt.cache
    ensures Following(rt, Apply(v, c, Feed(batch)), c)
    ensures rt.cache.copyOnWrites == old(rt.cache.copyOnWrites)
  {
    FeedDone(rt.cache.State(), v, c, batch);
    PositionsRelax(Lengths(v.histories), batch, c.vocabulary, c.maxModelLen, rt.config.trainedContext);
    var outputs := rt.Forward(batch);
    assert outputs.Success?;
  }

  /** Any legal run of the engine, of whatever length: no call of it fails on the paged cache, no page is ever copied,
      the cache ends with exactly the histories of the run, and it uses no more pages than credits are held. */
  method Follow(rt: CpuRuntime.Runtime, steps: seq<Step>, ghost c: Capacity)
    requires c.blockSize > 0 && rt.Valid() && Configured(rt, c)
    requires Following(rt, EmptyView(rt.config.maxSequences), c)
    requires LegalRun(EmptyView(rt.config.maxSequences), c, steps)
    modifies rt, rt.cache
    ensures Following(rt, Replay(EmptyView(rt.config.maxSequences), c, steps), c)
    ensures rt.cache.copyOnWrites == old(rt.cache.copyOnWrites)
    ensures |rt.cache.refs| - |rt.cache.free| <= |HeldBlocks(Replay(EmptyView(rt.config.maxSequences), c,
            steps).blocks)|
  {
    ghost var v := EmptyView(rt.config.maxSequences);
    ghost var goal := Replay(v, c, steps);
    var i := 0;
    assert steps[0..] == steps;
    while i < |steps|
      invariant 0 <= i <= |steps|
      invariant Following(rt, v, c) && LegalRun(v, c, steps[i..]) && Replay(v, c, steps[i..]) == goal
      invariant rt.cache.copyOnWrites == old(rt.cache.copyOnWrites)
    {
      assert steps[i..][0] == steps[i] && steps[i..][1..] == steps[i + 1..];
      FollowStep(rt, steps[i], v, c);
      v := Apply(v, c, steps[i]);
      i := i + 1;
    }
    assert steps[|steps|..] == [];
    PagesWithinCredits(rt.cache.State(), v, c);
  }

  /** A new runtime is where the empty view is. */
  lemma FreshFollows(rt: CpuRuntime.Runtime, c: Capacity)
    requires c.blockSize > 0 && rt.Valid() && Configured(rt, c)
    requires rt.histories == seq(rt.config.maxSequences, _ => [])
    ensures Following(rt, EmptyView(rt.config.maxSequences), c)
  {
    EmptySound(c, rt.config.maxSequences);
    CeilDivExact(0, c.blockSize);
    forall s | 0 <= s < |rt.cache.tables| ensures rt.cache.tables[s].pages == [] {
      assert TableOk(rt.cache.tables[s], |rt.cache.refs|, c.blockSize);
    }
  }
}

/** Why the page preflight of the CPU runtime is enough: the sum it compares with the free pages pays for the whole
    interleaved loop of appends, also when several growing sequences share one partial tail page. */
module Preflight {
  import opened Arithmetic
  import opened RefCounts
  import opened PageLedger
  import opened Batches

  /** Pages the preflight asks for on behalf of one sequence growing to `target`. */
  ghost function NeededFor(l: Ledger, s: nat, target: nat, pageTokens: nat): nat
    requires pageTokens > 0 && s < |l.tables| && TableOk(l.tables[s], |l.refs|, pageTokens)
    requires l.tables[s].length <= target
  {
    var t := l.tables[s];
    if t.length == target then 0
    else
      CeilDivMonotone(t.length, target, pageTokens);
      CeilDiv(target, pageTokens) - CeilDiv(t.length, pageTokens)
      + (if t.length % pageTokens != 0 && NeedsPage(l, s, pageTokens) then 1 else 0)
  }

  ghost predicate Reachable(l: Ledger, targets: seq<nat>, pageTokens: nat)
    requires pageTokens > 0
  {
    && Consistent(l, pageTokens)
    && |targets| == |l.tables|
    && forall s :: 0 <= s < |targets| ==> l.tables[s].length <= targets[s]
  }

  /** The preflight's sum over the first `n` sequences. */
  ghost function Needed(l: Ledger, targets: seq<nat>, pageTokens: nat, n: nat): nat
    requires pageTokens > 0 && Reachable(l, targets, pageTokens) && n <= |targets|
  {
    if n == 0 then 0 else Needed(l, targets, pageTokens, n - 1) + NeededFor(l, n - 1, targets[n - 1], pageTokens)
  }

  /** Appending to `s` takes one page off the demand of `s` whenever it takes a page. */
  lemma OwnDemandDrops(l: Ledger, s: nat, target: nat, pageTokens: nat)
    requires pageTokens > 0 && s < |l.tables| && Consistent(l, pageTokens) && l.tables[s].length < target
    requires NeedsPage(l, s, pageTokens) ==> l.free != []
    ensures var l' := Appended(l, s, pageTokens);
      && Consistent(l', pageTokens) && l'.tables[s].length == l.tables[s].length + 1
      && NeededFor(l', s, target, pageTokens) + (if NeedsPage(l, s, pageTokens) then 1 else 0)
           == NeededFor(l, s, target, pageTokens)
  {
    AppendConsistent(l, s, pageTokens);
    var l' := Appended(l, s, pageTokens);
    var n := l.tables[s].length;
    CeilDivSteps(n, pageTokens);
    CeilDivSteps(n + 1, pageTokens);
    TailAlone(l, s, pageTokens);
  }

  /** Right after an append, a partial tail belongs to the appending sequence alone. */
  lemma TailAlone(l: Ledger, s: nat, pageTokens: nat)
    requires pageTokens > 0 && s < |l.tables| && Consistent(l, pageTokens)
    requires NeedsPage(l, s, pageTokens) ==> l.free != []
    ensures var l' := Appended(l, s, pageTokens);
      && Consistent(l', pageTokens) && s < |l'.tables| && l'.tables[s].pages != []
      && l'.tables[s].pages[|l'.tables[s].pages| - 1] < |l'.refs|
      && l'.tables[s].length / pageTokens >= |l'.tables[s].pages| - 1
      && l.tables[s].length / pageTokens == |l'.tables[s].pages| - 1
      && l'.refs[l'.tables[s].pages[|l'.tables[s].pages| - 1]] == 1
  {
    AppendConsistent(l, s, pageTokens);
    var t := l.tables[s];
    CeilDivSteps(t.length, pageTokens);
    DivMonotone(t.length, t.length + 1, pageTokens);
    if l.free != [] {
      FreePageHasNoOwner(l, pageTokens);
    }
    if t.length % pageTokens != 0 && !NeedsPage(l, s, pageTokens) {
      var tail := t.pages[|t.pages| - 1];
      assert s in Owners(l.tables, tail);
    }
  }

  /** Another sequence keeps its table, and none of its pages gains a reference. */
  lemma OthersKeepPages(l: Ledger, s: nat, pageTokens: nat, r: nat)
    requires pageTokens > 0 && s < |l.tables| && r < |l.tables| && r != s && Consistent(l, pageTokens)
    requires NeedsPage(l, s, pageTokens) ==> l.free != []
    ensures var l' := Appended(l, s, pageTokens);
      && |l'.refs| == |l.refs| && |l'.tables| == |l.tables| && l'.tables[r] == l.tables[r]
      && (forall i :: 0 <= i < |l.tables[r].pages| ==>
            && l.tables[r].pages[i] < |l.refs|
            && 0 < l'.refs[l.tables[r].pages[i]] <= l.refs[l.tables[r].pages[i]])
  {
    hide RefsExact, FreeExact, Owners, Distinct, Appended, TableOk, NeedsPage;
    AppendConsistent(l, s, pageTokens);
    HeldPages(l, r, pageTokens, []);
    OtherTableKept(l, s, pageTokens, r);
    HeldPages(Appended(l, s, pageTokens), r, pageTokens, []);
  }

  /** No count of a page that is in use goes up. */
  lemma OtherTableKept(l: Ledger, s: nat, pageTokens: nat, r: nat)
    requires pageTokens > 0 && s < |l.tables| && r < |l.tables| && r != s && Consistent(l, pageTokens)
    requires NeedsPage(l, s, pageTokens) ==> l.free != []
    ensures var l' := Appended(l, s, pageTokens);
      && |l'.refs| == |l.refs| && |l'.tables| == |l.tables| && l'.tables[r] == l.tables[r]
      && forall page :: 0 <= page < |l.refs| && page in l.tables[r].pages ==> l'.refs[page] <= l.refs[page]
  {
    hide RefsExact, FreeExact, Owners, Distinct;
    if NeedsPage(l, s, pageTokens) {
      FreePageHasNoOwner(l, pageTokens);
    }
  }

  lemma OtherDemandKept(l: Ledger, s: nat, pageTokens: nat, r: nat, target: nat)
    requires pageTokens > 0 && s < |l.tables| && r < |l.tables| && r != s && Consistent(l, pageTokens)
    requires NeedsPage(l, s, pageTokens) ==> l.free != []
    requires l.tables[r].length <= target
    ensures var l' := Appended(l, s, pageTokens);
      && Consistent(l', pageTokens) && l'.tables[r] == l.tables[r]
      && NeededFor(l', r, target, pageTokens) <= NeededFor(l, r, target, pageTokens)
  {
    AppendConsistent(l, s, pageTokens);
    OthersKeepPages(l, s, pageTokens, r);
    if l.tables[r].length % pageTokens != 0 {
      TailExists(l.tables[r], |l.refs|, pageTokens);
    }
  }

  lemma ReachableStep(l: Ledger, s: nat, targets: seq<nat>, pageTokens: nat)
    requires pageTokens > 0 && Reachable(l, targets, pageTokens) && s < |targets| && l.tables[s].length < targets[s]
    requires NeedsPage(l, s, pageTokens) ==> l.free != []
    ensures Reachable(Appended(l, s, pageTokens), targets, pageTokens)
  {
    AppendConsistent(l, s, pageTokens);
  }

  lemma {:induction false} DemandStep(l: Ledger, s: nat, targets: seq<nat>, pageTokens: nat, n: nat)
    requires pageTokens > 0 && Reachable(l, targets, pageTokens) && s < |targets| && l.tables[s].length < targets[s]
    requires NeedsPage(l, s, pageTokens) ==> l.free != []
    requires n <= |targets|
    ensures var l' := Appended(l, s, pageTokens);
      && Reachable(l', targets, pageTokens)
      && Needed(l', targets, pageTokens, n) + (if s < n && NeedsPage(l, s, pageTokens) then 1 else 0)
           <= Needed(l, targets, pageTokens, n)
  {
    hide Consistent, Appended, NeedsPage, NeededFor;
    ReachableStep(l, s, targets, pageTokens);
    if n == 0 {
    } else {
      DemandStep(l, s, targets, pageTokens, n - 1);
      if n - 1 == s {
        OwnDemandDrops(l, s, targets[s], pageTokens);
      } else {
        OtherDemandKept(l, s, pageTokens, n - 1, targets[n - 1]);
      }
    }
  }

  lemma {:induction false} DemandAtLeast(l: Ledger, s: nat, targets: seq<nat>, pageTokens: nat, n: nat)
    requires pageTokens > 0 && Reachable(l, targets, pageTokens) && s < n <= |targets|
    ensures NeededFor(l, s, targets[s], pageTokens) <= Needed(l, targets, pageTokens, n)
  {
    if n - 1 == s {
    } else {
      DemandAtLeast(l, s, targets, pageTokens, n - 1);
    }
  }

  /** While the demand is covered by the free pages, the next append finds its page, and the demand that is left is
      covered by the free pages that are left. */
  lemma CoveredStep(l: Ledger, s: nat, targets: seq<nat>, pageTokens: nat)
    requires pageTokens > 0 && Reachable(l, targets, pageTokens) && s < |targets| && l.tables[s].length < targets[s]
    requires Needed(l, targets, pageTokens, |targets|) <= |l.free|
    ensures NeedsPage(l, s, pageTokens) ==> l.free != []
    ensures var l' := Appended(l, s, pageTokens);
      Reachable(l', targets, pageTokens) && Needed(l', targets, pageTokens, |targets|) <= |l'.free|
  {
    DemandAtLeast(l, s, targets, pageTokens, |targets|);
    CeilDivSteps(l.tables[s].length, pageTokens);
    CeilDivMonotone(l.tables[s].length + 1, targets[s], pageTokens);
    DemandStep(l, s, targets, pageTokens, |targets|);
  }

  // ---- exclusive pages for the whole batch -----------------------------------

  /** Every position from `starts` on lies on a page with one owner. */
  ghost predicate GrownExclusive(l: Ledger, starts: seq<nat>, pageTokens: nat)
    requires pageTokens > 0
  {
    forall s, p :: 0 <= s < |l.tables| && s < |starts| && starts[s] <= p < l.tables[s].length ==>
      SingleOwner(l, s, p, pageTokens)
  }

  ghost predicate SingleOwner(l: Ledger, s: nat, p: nat, pageTokens: nat)
    requires pageTokens > 0 && s < |l.tables|
  {
    && p / pageTokens < |l.tables[s].pages|
    && l.tables[s].pages[p / pageTokens] < |l.refs|
    && l.refs[l.tables[s].pages[p / pageTokens]] == 1
  }

  lemma TableCount(l: Ledger, s: nat, pageTokens: nat)
    requires pageTokens > 0 && s < |l.tables| && Consistent(l, pageTokens)
    requires NeedsPage(l, s, pageTokens) ==> l.free != []
    ensures var l' := Appended(l, s, pageTokens);
      |l'.tables| == |l.tables| && l'.tables[s].length == l.tables[s].length + 1
  {
  }

  lemma ExclusiveStep(l: Ledger, s: nat, starts: seq<nat>, pageTokens: nat)
    requires pageTokens > 0 && s < |l.tables| && Consistent(l, pageTokens) && GrownExclusive(l, starts, pageTokens)
    requires NeedsPage(l, s, pageTokens) ==> l.free != []
    ensures GrownExclusive(Appended(l, s, pageTokens), starts, pageTokens)
  {
    AppendConsistent(l, s, pageTokens);
    var l' := Appended(l, s, pageTokens);
    TableCount(l, s, pageTokens);
    hide Appended, NeedsPage, Consistent;
    forall r, p | 0 <= r < |l'.tables| && r < |starts| && starts[r] <= p < l'.tables[r].length
      ensures SingleOwner(l', r, p, pageTokens)
    {
      if r == s {
        if p < l.tables[s].length {
          assert SingleOwner(l, s, p, pageTokens);
        }
        OwnExclusive(l, s, p, pageTokens);
      } else {
        OthersKeepPages(l, s, pageTokens, r);
        assert SingleOwner(l, r, p, pageTokens);
      }
    }
  }

  /** The appending sequence's earlier pages stay as they are. */
  lemma EarlierPagesKept(l: Ledger, s: nat, i: nat, pageTokens: nat)
    requires pageTokens > 0 && s < |l.tables| && Consistent(l, pageTokens)
    requires NeedsPage(l, s, pageTokens) ==> l.free != []
    requires i < l.tables[s].length / pageTokens
    ensures var l' := Appended(l, s, pageTokens);
      && s < |l'.tables| && i < |l.tables[s].pages| && i < |l'.tables[s].pages| && |l'.refs| == |l.refs|
      && l'.tables[s].pages[i] == l.tables[s].pages[i] < |l.refs|
      && l'.refs[l.tables[s].pages[i]] == l.refs[l.tables[s].pages[i]]
  {
    var t := l.tables[s];
    CeilDivSteps(t.length, pageTokens);
    if l.free != [] {
      FreePageHasNoOwner(l, pageTokens);
    }
  }

  lemma OwnExclusive(l: Ledger, s: nat, p: nat, pageTokens: nat)
    requires pageTokens > 0 && s < |l.tables| && Consistent(l, pageTokens)
    requires NeedsPage(l, s, pageTokens) ==> l.free != []
    requires p <= l.tables[s].length && (p < l.tables[s].length ==> SingleOwner(l, s, p, pageTokens))
    ensures SingleOwner(Appended(l, s, pageTokens), s, p, pageTokens)
  {
    hide Appended, NeedsPage, Consistent, TableOk;
    var n := l.tables[s].length;
    DivMonotone(p, n, pageTokens);
    TailAlone(l, s, pageTokens);
    if p / pageTokens < n / pageTokens {
      EarlierPagesKept(l, s, p / pageTokens, pageTokens);
    }
  }

  // ---- a whole batch of appends as a function of the ledger ----------------------

  ghost predicate CanAppend(l: Ledger, s: int, pageTokens: nat)
    requires pageTokens > 0
  {
    0 <= s < |l.tables| && Consistent(l, pageTokens) && (NeedsPage(l, s, pageTokens) ==> l.free != [])
  }

  /** The ledger after the append loop of a batch. */
  ghost function AppendedAll(l: Ledger, tokens: seq<InputToken>, pageTokens: nat): Ledger
    requires pageTokens > 0
  {
    if tokens == [] then l
    else
      var before := AppendedAll(l, tokens[..|tokens| - 1], pageTokens);
      var s := tokens[|tokens| - 1].sequence;
      if CanAppend(before, s, pageTokens) then Appended(before, s, pageTokens) else before
  }

  ghost predicate Copies(l: Ledger, s: int, pageTokens: nat)
    requires pageTokens > 0
  {
    CanAppend(l, s, pageTokens) && l.tables[s].length % pageTokens != 0 && NeedsPage(l, s, pageTokens)
  }

  /** How often that loop copies a shared tail. */
  ghost function CopiesAll(l: Ledger, tokens: seq<InputToken>, pageTokens: nat): nat
    requires pageTokens > 0
  {
    if tokens == [] then 0
    else
      var before := AppendedAll(l, tokens[..|tokens| - 1], pageTokens);
      CopiesAll(l, tokens[..|tokens| - 1], pageTokens)
      + if Copies(before, tokens[|tokens| - 1].sequence, pageTokens) then 1 else 0
  }

  lemma AppendedAllSnoc(l: Ledger, tokens: seq<InputToken>, t: InputToken, pageTokens: nat)
    requires pageTokens > 0 && CanAppend(AppendedAll(l, tokens, pageTokens), t.sequence, pageTokens)
    ensures var before := AppendedAll(l, tokens, pageTokens);
      && AppendedAll(l, tokens + [t], pageTokens) == Appended(before, t.sequence, pageTokens)
      && CopiesAll(l, tokens + [t], pageTokens)
           == CopiesAll(l, tokens, pageTokens)
              + if before.tables[t.sequence].length % pageTokens != 0
              && NeedsPage(before, t.sequence, pageTokens) then 1 else 0
  {
    assert (tokens + [t])[..|tokens|] == tokens;
  }
}

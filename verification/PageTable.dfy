/** Physical page ownership on the GPU (src/minillm/cuda/page_table.cpp): exclusive pages, a pending table prepared
    beside the committed one, and a journal of the pages a batch in flight would add. The flat table is
    kept here as its rows, one per sequence. */
module PageTables {
  import opened Arithmetic
  import opened Outcomes

  const INVALID_PAGE: int := -1

  datatype Phase = Ready | Prepared | Executing | Poisoned

  datatype Limits = Limits(sequences: nat, maxModelLen: nat, pageTokens: nat, physicalPages: nat)

  type Table = seq<seq<int>>

  /** The capacity contract of the paged layout. */
  predicate CheckedLimits(l: Limits) {
    && 1 <= l.physicalPages <= 512
    && 1 <= l.sequences <= 4 && 1 <= l.maxModelLen <= 2048 && l.pageTokens == 16
    && l.physicalPages <= l.sequences * CeilDiv(l.maxModelLen, l.pageTokens)
  }

  function PagesFor(l: Limits, length: nat): nat
    requires l.pageTokens > 0
  {
    CeilDiv(length, l.pageTokens)
  }

  function Blocks(l: Limits): nat
    requires l.pageTokens > 0
  {
    PagesFor(l, l.maxModelLen)
  }

  // ---- ownership as multisets -----------------------------------------------------

  /** The pages a row maps. */
  ghost function RowPages(row: seq<int>): multiset<int> {
    multiset(row)[INVALID_PAGE := 0]
  }

  /** The pages a table maps. */
  ghost function Owned(t: Table): multiset<int> {
    if t == [] then multiset{} else Owned(t[..|t| - 1]) + RowPages(t[|t| - 1])
  }

  /** Every physical page once. */
  ghost function EachPageOnce(n: nat): (m: multiset<int>)
    ensures forall id :: m[id] == if 0 <= id < n then 1 else 0
    ensures |m| == n
  {
    if n == 0 then multiset{} else EachPageOnce(n - 1) + multiset{n - 1}
  }

  /** The next `n` pages the free stack gives out, top first. */
  ghost function Top(free: seq<int>, n: nat): (r: seq<int>)
    requires n <= |free|
    ensures |r| == n
  {
    seq(n, i requires 0 <= i < n => free[|free| - 1 - i])
  }

  lemma {:induction false} TopIsTail(free: seq<int>, n: nat)
    requires n <= |free|
    ensures multiset(Top(free, n)) + multiset(free[..|free| - n]) == multiset(free)
  {
    if n == 0 {
      assert free[..|free|] == free;
    } else {
      TopIsTail(free, n - 1);
      assert Top(free, n) == Top(free, n - 1) + [free[|free| - n]];
      assert free[..|free| - (n - 1)] == free[..|free| - n] + [free[|free| - n]];
    }
  }

  // ---- rows ---------------------------------------------------------------------------

  /** A row of `blocks` slots whose first `n` hold pages and whose others hold none. */
  ghost predicate RowOk(row: seq<int>, blocks: nat, n: nat, pages: nat) {
    && |row| == blocks && n <= blocks
    && forall b :: 0 <= b < |row| ==> if b < n then 0 <= row[b] < pages else row[b] == INVALID_PAGE
  }

  /** Each sequence owns exactly the first ceil(length / 16) slots of its row. */
  ghost predicate RowsOk(l: Limits, t: Table, lengths: seq<nat>)
    requires l.pageTokens > 0
  {
    && |t| == |lengths| == l.sequences
    && forall s :: 0 <= s < |t| ==> RowOk(t[s], Blocks(l), PagesFor(l, lengths[s]), l.physicalPages)
  }

  lemma FillSlot(row: seq<int>, blocks: nat, n: nat, pages: nat, id: int)
    requires RowOk(row, blocks, n, pages) && n < blocks && 0 <= id < pages
    ensures RowOk(row[n := id], blocks, n + 1, pages)
    ensures RowPages(row[n := id]) == RowPages(row) + multiset{id}
  {
    assert row[n] == INVALID_PAGE;
  }

  lemma {:induction false} OwnedUpdate(t: Table, s: nat, row: seq<int>, gained: multiset<int>)
    requires s < |t| && RowPages(row) == RowPages(t[s]) + gained
    ensures Owned(t[s := row]) == Owned(t) + gained
  {
    var front := t[..|t| - 1];
    if s == |t| - 1 {
      assert t[s := row][..|t| - 1] == front;
    } else {
      OwnedUpdate(front, s, row, gained);
      assert t[s := row][..|t| - 1] == front[s := row];
    }
  }

  lemma {:induction false} RowCount(row: seq<int>, blocks: nat, n: nat, pages: nat)
    requires RowOk(row, blocks, n, pages)
    ensures |RowPages(row)| == n
    decreases n
  {
    if n == 0 {
      assert forall x :: x in RowPages(row) ==> false;
      assert RowPages(row) == multiset{};
    } else {
      var empty := row[n - 1 := INVALID_PAGE];
      RowCount(empty, blocks, n - 1, pages);
      FillSlot(empty, blocks, n - 1, pages, row[n - 1]);
      assert empty[n - 1 := row[n - 1]] == row;
    }
  }

  ghost function TotalPages(l: Limits, lengths: seq<nat>): nat
    requires l.pageTokens > 0
  {
    if lengths == [] then 0 else TotalPages(l, lengths[..|lengths| - 1]) + PagesFor(l, lengths[|lengths| - 1])
  }

  lemma {:induction false} OwnedCount(l: Limits, t: Table, lengths: seq<nat>)
    requires l.pageTokens > 0 && |t| == |lengths|
    requires forall s :: 0 <= s < |t| ==> RowOk(t[s], Blocks(l), PagesFor(l, lengths[s]), l.physicalPages)
    ensures |Owned(t)| == TotalPages(l, lengths)
  {
    if t == [] {
    } else {
      var n := |t| - 1;
      OwnedCount(l, t[..n], lengths[..n]);
      RowCount(t[n], Blocks(l), PagesFor(l, lengths[n]), l.physicalPages);
    }
  }

  /** Pages the first `n` sequences need on top of what they have. */
  ghost function Demand(l: Limits, committed: seq<nat>, pending: seq<nat>, n: nat): int
    requires l.pageTokens > 0 && n <= |committed| && n <= |pending|
  {
    if n == 0 then 0
    else Demand(l, committed, pending, n - 1) + PagesFor(l, pending[n - 1]) - PagesFor(l, committed[n - 1])
  }

  ghost predicate Grows(l: Limits, committed: seq<nat>, pending: seq<nat>) {
    && |committed| == |pending| == l.sequences
    && forall s :: 0 <= s < |pending| ==> committed[s] <= pending[s] <= l.maxModelLen
  }

  lemma {:induction false} DemandMonotone(l: Limits, committed: seq<nat>, pending: seq<nat>, m: nat, n: nat)
    requires l.pageTokens > 0 && Grows(l, committed, pending) && m <= n <= l.sequences
    ensures 0 <= Demand(l, committed, pending, m) <= Demand(l, committed, pending, n)
    decreases n
  {
    if n == 0 {
    } else {
      CeilDivMonotone(committed[n - 1], pending[n - 1], l.pageTokens);
      if m < n {
        DemandMonotone(l, committed, pending, m, n - 1);
      } else {
        DemandMonotone(l, committed, pending, n - 1, n - 1);
      }
    }
  }

  /** Lengths and pages go together: the demand is the difference of the totals. */
  lemma {:induction false} DemandIsDifference(l: Limits, committed: seq<nat>, pending: seq<nat>, n: nat)
    requires l.pageTokens > 0 && n <= |committed| && n <= |pending|
    ensures Demand(l, committed, pending, n) == TotalPages(l, pending[..n]) - TotalPages(l, committed[..n])
  {
    if n == 0 {
    } else {
      DemandIsDifference(l, committed, pending, n - 1);
      assert pending[..n][..n - 1] == pending[..n - 1] && committed[..n][..n - 1] == committed[..n - 1];
    }
  }

  // ---- drafting a pending table --------------------------------------------------------

  /** A table drafted from `before` by moving the top of the free stack into it, as the journal records. */
  ghost predicate Draft(free: seq<int>, before: Table, t: Table, journal: seq<int>) {
    && |t| == |before| && |journal| <= |free|
    && journal == Top(free, |journal|)
    && Owned(t) == Owned(before) + multiset(journal)
    && (journal == [] ==> t == before)
  }

  ghost predicate AllPages(free: seq<int>, pages: nat) {
    forall i :: 0 <= i < |free| ==> 0 <= free[i] < pages
  }

  lemma FreeArePages(owned: multiset<int>, free: seq<int>, pages: nat)
    requires owned + multiset(free) == EachPageOnce(pages)
    ensures AllPages(free, pages)
  {
    forall i | 0 <= i < |free| ensures 0 <= free[i] < pages {
      assert free[i] in multiset(free);
      assert (owned + multiset(free))[free[i]] > 0;
    }
  }

  lemma DraftStep(free: seq<int>, before: Table, t: Table, journal: seq<int>, s: nat, b: nat, blocks: nat, pages: nat)
    requires Draft(free, before, t, journal) && AllPages(free, pages) && |journal| < |free|
    requires s < |t| && RowOk(t[s], blocks, b, pages) && b < blocks
    ensures var id := free[|free| - 1 - |journal|];
      && 0 <= id < pages
      && RowOk(t[s][b := id], blocks, b + 1, pages)
      && t[s][b := id][..b] == t[s][..b]
      && Draft(free, before, t[s := t[s][b := id]], journal + [id])
  {
    var id := free[|free| - 1 - |journal|];
    FillSlot(t[s], blocks, b, pages, id);
    OwnedUpdate(t, s, t[s][b := id], multiset{id});
    assert journal + [id] == Top(free, |journal| + 1);
    assert multiset(journal + [id]) == multiset(journal) + multiset{id};
  }

  /** Rows below `s` filled for the target lengths, the others as before. */
  ghost predicate Progress(l: Limits, active: Table, t: Table, committed: seq<nat>, target: seq<nat>, s: nat)
    requires l.pageTokens > 0
  {
    && |t| == |active| == |committed| == |target| == l.sequences && s <= l.sequences
    && (forall r :: 0 <= r < s ==>
          && RowOk(t[r], Blocks(l), PagesFor(l, target[r]), l.physicalPages)
          && Keeps(active[r], t[r], PagesFor(l, committed[r])))
    && (forall r :: s <= r < |t| ==> t[r] == active[r])
  }

  lemma ProgressStep(l: Limits, active: Table, t: Table, committed: seq<nat>, target: seq<nat>, s: nat, row: seq<int>)
    requires l.pageTokens > 0 && Progress(l, active, t, committed, target, s) && s < l.sequences
    requires RowOk(row, Blocks(l), PagesFor(l, target[s]), l.physicalPages)
    requires Keeps(t[s], row, PagesFor(l, committed[s]))
    ensures Progress(l, active, t[s := row], committed, target, s + 1)
  {
    hide RowOk, Keeps;
  }

  lemma ProgressDone(l: Limits, active: Table, t: Table, committed: seq<nat>, target: seq<nat>)
    requires l.pageTokens > 0 && Progress(l, active, t, committed, target, l.sequences)
    ensures RowsOk(l, t, target) && Extends(l, active, t, committed)
  {
  }

  /** The initial free stack. */
  method Iota(n: nat) returns (ids: seq<int>)
    ensures |ids| == n && multiset(ids) == EachPageOnce(n)
    ensures forall p :: 0 <= p < n ==> ids[p] == p
  {
    ids := [];
    for i := 0 to n
      invariant |ids| == i && multiset(ids) == EachPageOnce(i)
      invariant forall p :: 0 <= p < i ==> ids[p] == p
    {
      ids := ids + [i];
    }
  }

  class PageTableState {
    const limits: Limits
    var active: Table
    var pending: Table
    var freeIds: seq<int>
    var journal: seq<int>
    var phase: Phase
    var dirty: bool

    /** In every phase the committed entries, the free stack and the pages taken for a batch in flight together list
        each physical page exactly once; a merely prepared journal still lies on the free stack. */
    ghost predicate Conserved()
      reads this
    {
      if phase == Prepared then
        && Owned(active) + multiset(freeIds) == EachPageOnce(limits.physicalPages)
        && |journal| <= |freeIds| && journal == Top(freeIds, |journal|)
      else Owned(active) + multiset(freeIds) + multiset(journal) == EachPageOnce(limits.physicalPages)
    }

    /** The pending table is the committed one plus the journal; without journaled pages it is the same table. */
    ghost predicate Drafted()
      reads this
    {
      && |pending| == |active|
      && Owned(pending) == Owned(active) + multiset(journal)
      && (journal == [] ==> pending == active)
    }

    ghost predicate Valid()
      reads this
    {
      && CheckedLimits(limits) && |active| == limits.sequences
      && Conserved()
      && (phase == Ready ==> journal == [])
      && (phase == Prepared || phase == Executing ==> Drafted())
    }

    predicate UploadRequired()
      reads this
    {
      dirty || journal != []
    }

    constructor (l: Limits)
      requires CheckedLimits(l)
      ensures Valid() && fresh(this) && limits == l && phase == Ready && dirty
      ensures RowsOk(l, active, seq(l.sequences, _ => 0))
      ensures |freeIds| == l.physicalPages && forall p :: 0 <= p < |freeIds| ==> freeIds[p] == p
      ensures active == seq(l.sequences, _ => seq(Blocks(l), _ => INVALID_PAGE))
    {
      var ids := Iota(l.physicalPages);
      limits := l;
      active := seq(l.sequences, _ => seq(Blocks(l), _ => INVALID_PAGE));
      pending := active;
      freeIds := ids;
      journal := [];
      phase := Ready;
      dirty := true;
      new;
      NothingMapped(l, active);
    }

    /** Checks everything first; only then builds the pending table and the journal. Any failure changes nothing. */
    method Prepare(committed: seq<nat>, target: seq<nat>) returns (status: Status)
      requires Valid()
      modifies this
      ensures Valid()
      ensures status.Failed? ==>
                && active == old(active) && freeIds == old(freeIds) && journal == old(journal)
                && phase == old(phase) && dirty == old(dirty)
      ensures old(phase) != Ready ==> status == Failed(LogicError)
      ensures old(phase) == Ready && Grows(limits, committed, target) && RowsOk(limits, old(active), committed) ==>
                status == if Demand(limits, committed, target, limits.sequences) > |old(freeIds)|
                          then Failed(LengthError) else Ok
      ensures old(phase) == Ready && status.Ok? ==>
                && Grows(limits, committed, target) && RowsOk(limits, active, committed)
                && phase == Prepared && active == old(active) && freeIds == old(freeIds) && dirty == old(dirty)
                && RowsOk(limits, pending, target)
                && |journal| == Demand(limits, committed, target, limits.sequences)
                && Extends(limits, active, pending, committed)
    {
      if phase != Ready {
        return Failed(LogicError);
      }
      if |committed| != limits.sequences || |target| != limits.sequences {
        return Failed(InvalidArgument);
      }
      assert CheckedLimits(limits);
      hide *;
      var checked, needed := CheckLengths(committed, target);
      if !checked {
        return Failed(InvalidArgument);
      }
      if needed > |freeIds| {
        return Failed(LengthError);
      }
      DraftBatch(committed, target);
      return Ok;
    }

    method DraftBatch(committed: seq<nat>, target: seq<nat>)
      requires Valid() && phase == Ready
      requires Grows(limits, committed, target) && RowsOk(limits, active, committed)
      requires Demand(limits, committed, target, limits.sequences) <= |freeIds|
      modifies `pending, `journal, `phase
      ensures Valid() && phase == Prepared
      ensures RowsOk(limits, pending, target) && Extends(limits, active, pending, committed)
      ensures |journal| == Demand(limits, committed, target, limits.sequences)
    {
      hide RowsOk, RowOk, Grows, Demand, Extends, EachPageOnce, Blocks, PagesFor, Owned, CheckedLimits, TotalTokens,
           Keeps, RowPages;
      FreeArePages(Owned(active), freeIds, limits.physicalPages);
      Fill(committed, target);
      phase := Prepared;
    }

    /** The committed mapping has to agree with the committed lengths, and lengths may only grow within bounds. */
    method CheckLengths(committed: seq<nat>, target: seq<nat>) returns (ok: bool, needed: nat)
      requires CheckedLimits(limits) && |committed| == |target| == limits.sequences
      ensures ok ==> Grows(limits, committed, target) && RowsOk(limits, active, committed)
      ensures ok ==> needed == Demand(limits, committed, target, limits.sequences)
      ensures Grows(limits, committed, target) && RowsOk(limits, active, committed) ==> ok
    {
      needed := 0;
      if |active| != limits.sequences {
        return false, 0;
      }
      var s := 0;
      while s < limits.sequences
        invariant 0 <= s <= limits.sequences
        invariant forall r :: 0 <= r < s ==> committed[r] <= target[r] <= limits.maxModelLen
        invariant forall r :: 0 <= r < s ==>
                    RowOk(active[r], Blocks(limits), PagesFor(limits, committed[r]), limits.physicalPages)
        invariant needed == Demand(limits, committed, target, s)
      {
        if target[s] > limits.maxModelLen || committed[s] > target[s] {
          return false, 0;
        }
        CeilDivMonotone(committed[s], target[s], limits.pageTokens);
        CeilDivMonotone(target[s], limits.maxModelLen, limits.pageTokens);
        var rowOk := CheckRow(active[s], PagesFor(limits, committed[s]));
        if !rowOk {
          return false, 0;
        }
        needed := needed + (PagesFor(limits, target[s]) - PagesFor(limits, committed[s]));
        s := s + 1;
      }
      ok := true;
    }

    method CheckRow(row: seq<int>, oldPages: nat) returns (ok: bool)
      requires CheckedLimits(limits) && oldPages <= Blocks(limits)
      ensures ok <==> RowOk(row, Blocks(limits), oldPages, limits.physicalPages)
    {
      if |row| != Blocks(limits) {
        return false;
      }
      for b := 0 to Blocks(limits)
        invariant forall c :: 0 <= c < b ==>
                    if c < oldPages then 0 <= row[c] < limits.physicalPages else row[c] == INVALID_PAGE
      {
        if b < oldPages {
          if row[b] < 0 || row[b] >= limits.physicalPages {
            return false;
          }
        } else if row[b] != INVALID_PAGE {
          return false;
        }
      }
      return true;
    }

    /** The nested filling loops: new slots take the top free pages in order, each recorded in the journal. */
    method Fill(committed: seq<nat>, target: seq<nat>)
      requires CheckedLimits(limits) && Grows(limits, committed, target) && RowsOk(limits, active, committed)
      requires Demand(limits, committed, target, limits.sequences) <= |freeIds|
               && AllPages(freeIds, limits.physicalPages)
      modifies `pending, `journal
      ensures RowsOk(limits, pending, target) && Extends(limits, active, pending, committed)
      ensures |journal| == Demand(limits, committed, target, limits.sequences)
      ensures Draft(freeIds, active, pending, journal)
    {
      hide Draft, Progress, RowOk, RowsOk, AllPages, Extends, CeilDiv, Keeps, Top, Owned;
      pending := active;
      journal := [];
      NothingDrafted(limits, freeIds, active, committed, target);
      var s := 0;
      while s < limits.sequences
        invariant 0 <= s <= limits.sequences && |pending| == |active|
        invariant Progress(limits, active, pending, committed, target, s)
        invariant |journal| == Demand(limits, committed, target, s) && Draft(freeIds, active, pending, journal)
      {
        DemandMonotone(limits, committed, target, s + 1, limits.sequences);
        CeilDivMonotone(committed[s], target[s], limits.pageTokens);
        CeilDivMonotone(target[s], limits.maxModelLen, limits.pageTokens);
        RowUntouched(limits, active, pending, committed, target, s);
        ghost var pending0 := pending;
        FillRow(s, PagesFor(limits, committed[s]), PagesFor(limits, target[s]), active);
        ProgressStep(limits, active, pending0, committed, target, s, pending[s]);
        s := s + 1;
      }
      ProgressDone(limits, active, pending, committed, target);
    }

    method FillRow(s: nat, from: nat, to: nat, ghost before: Table)
      requires limits.pageTokens > 0 && s < |pending| && from <= to <= Blocks(limits)
      requires RowOk(pending[s], Blocks(limits), from, limits.physicalPages)
      requires Draft(freeIds, before, pending, journal) && AllPages(freeIds, limits.physicalPages)
      requires |journal| + (to - from) <= |freeIds|
      modifies `pending, `journal
      ensures |pending| == |old(pending)| && pending == old(pending)[s := pending[s]]
      ensures RowOk(pending[s], Blocks(limits), to, limits.physicalPages)
      ensures Keeps(old(pending)[s], pending[s], from)
      ensures |journal| == |old(journal)| + (to - from) && Draft(freeIds, before, pending, journal)
    {
      hide Blocks, RowOk, Draft, AllPages, PagesFor, Top, Owned;
      ghost var pending0 := pending;
      RowLength(pending[s], Blocks(limits), from, limits.physicalPages);
      assert Keeps(pending0[s], pending[s], from);
      var b := from;
      while b < to
        invariant from <= b <= to && |pending| == |pending0| && pending == pending0[s := pending[s]]
        invariant RowOk(pending[s], Blocks(limits), b, limits.physicalPages) && |pending[s]| == Blocks(limits)
        invariant Keeps(pending0[s], pending[s], from)
        invariant |journal| == |old(journal)| + (b - from) && Draft(freeIds, before, pending, journal)
      {
        DraftStep(freeIds, before, pending, journal, s, b, Blocks(limits), limits.physicalPages);
        var id := freeIds[|freeIds| - 1 - |journal|];
        KeepsStep(pending0[s], pending[s], from, b, id);
        pending := pending[s := pending[s][b := id]];
        journal := journal + [id];
        b := b + 1;
      }
    }

    /** From here on the journaled pages are taken. A call out of order poisons instead of failing halfway. */
    method BeginExecution()
      requires Valid()
      modifies this
      ensures Valid() && active == old(active) && pending == old(pending) && dirty == old(dirty)
      ensures old(phase) == Prepared ==>
                && phase == Executing && journal == old(journal)
                && freeIds == old(freeIds)[..|old(freeIds)| - |journal|]
      ensures old(phase) != Prepared ==> phase == Poisoned
    {
      hide Owned, EachPageOnce, CheckedLimits, Top;
      if phase != Prepared {
        Poison();
        return;
      }
      TakeJournal();
      phase := Executing;
    }

    /** Takes the journaled pages off the free stack. */
    method TakeJournal()
      requires Owned(active) + multiset(freeIds) == EachPageOnce(limits.physicalPages)
      requires |journal| <= |freeIds| && journal == Top(freeIds, |journal|)
      modifies `freeIds
      ensures freeIds == old(freeIds)[..|old(freeIds)| - |journal|]
      ensures Owned(active) + multiset(freeIds) + multiset(journal) == EachPageOnce(limits.physicalPages)
    {
      TakenPages(Owned(active), freeIds, journal, limits.physicalPages);
      freeIds := freeIds[..|freeIds| - |journal|];
    }

    /** Publishes the pending table; the device holds it by now, so nothing is left to upload. */
    method Commit()
      requires Valid()
      modifies this
      ensures Valid()
      ensures old(phase) == Executing ==>
                phase == Ready && active == old(pending) && freeIds == old(freeIds) && journal == [] && !dirty
      ensures old(phase) != Executing ==> phase == Poisoned && active == old(active) && dirty == old(dirty)
    {
      hide Owned, EachPageOnce, CheckedLimits, Top;
      if phase != Executing {
        Poison();
        return;
      }
      active, pending := pending, active;
      journal := [];
      dirty := false;
      phase := Ready;
    }

    /** Undoes a preparation: the free stack was never touched, and a dirty mark from an earlier clear stays. */
    method DiscardPrepared()
      requires Valid()
      modifies this
      ensures Valid() && active == old(active) && dirty == old(dirty)
      ensures old(phase) == Prepared ==> phase == Ready && freeIds == old(freeIds) && journal == []
      ensures old(phase) != Prepared ==> phase == Poisoned
    {
      if phase != Prepared {
        Poison();
        return;
      }
      journal := [];
      phase := Ready;
    }

    method Poison()
      requires Valid()
      modifies this
      ensures Valid() && phase == Poisoned
      ensures active == old(active) && pending == old(pending) && journal == old(journal) && dirty == old(dirty)
      ensures freeIds == if old(phase) == Prepared then old(freeIds)[..|old(freeIds)| - |journal|] else old(freeIds)
    {
      hide Owned, EachPageOnce, CheckedLimits, Top;
      if phase == Prepared {
        TakeJournal();
      }
      phase := Poisoned;
    }

    /** Gives back a sequence's pages. The device copy is stale afterwards exactly if there were any, or it already
        was. At a ready point neither consistency throw can happen. */
    method Clear(sequence: nat) returns (status: Status)
      requires Valid()
      modifies this
      ensures Valid() && phase == old(phase) && journal == old(journal)
      ensures status == (if old(phase) != Ready then Failed(LogicError)
                         else if sequence >= limits.sequences then Failed(InvalidArgument) else Ok)
      ensures status.Failed? ==> active == old(active) && freeIds == old(freeIds) && dirty == old(dirty)
      ensures status.Ok? ==>
                && active == old(active)[sequence := NoPage(|old(active)[sequence]|)]
                && dirty == (old(dirty) || RowPages(old(active)[sequence]) != multiset{})
    {
      hide RowPages, CheckedLimits, Drafted, TotalTokens, RowsOk;
      if phase != Ready {
        return Failed(LogicError);
      }
      if sequence >= limits.sequences {
        return Failed(InvalidArgument);
      }
      RowWithinPool(active, freeIds, sequence, limits.physicalPages);
      var released, inRange := CountMapped(active[sequence], limits.physicalPages);
      assert inRange;
      assert released <= limits.physicalPages - |freeIds|;
      ReleaseRow(sequence);
      dirty := dirty || released != 0;
      status := Ok;
    }

    method ReleaseRow(sequence: nat)
      requires sequence < |active|
      modifies `active, `freeIds
      ensures active == old(active)[sequence := NoPage(|old(active)[sequence]|)]
      ensures Owned(active) + multiset(freeIds) == Owned(old(active)) + multiset(old(freeIds))
    {
      hide Owned, RowPages, NoPage;
      ghost var total := Owned(active) + multiset(freeIds);
      var row := active[sequence];
      NothingReleased(row);
      assert active[sequence := row] == active;
      for b := 0 to |row|
        invariant |active| == |old(active)| && active == old(active)[sequence := active[sequence]]
        invariant active[sequence] == NoPage(b) + row[b..]
        invariant Owned(active) + multiset(freeIds) == total
      {
        ReleaseStep(active, sequence, row, b);
        if row[b] != INVALID_PAGE {
          freeIds := freeIds + [row[b]];
        }
        active := active[sequence := active[sequence][b := INVALID_PAGE]];
      }
      assert NoPage(|row|) + row[|row|..] == NoPage(|row|);
    }

    static lemma NothingReleased(row: seq<int>)
      ensures NoPage(0) + row[0..] == row
    {
    }

    static method CountMapped(row: seq<int>, pages: nat) returns (released: nat, inRange: bool)
      ensures inRange <==> forall b :: 0 <= b < |row| ==> row[b] == INVALID_PAGE || 0 <= row[b] < pages
      ensures inRange ==> released == |RowPages(row)|
    {
      released := 0;
      assert row[..0] == [];
      for b := 0 to |row|
        invariant released == |RowPages(row[..b])|
        invariant forall c :: 0 <= c < b ==> row[c] == INVALID_PAGE || 0 <= row[c] < pages
      {
        RowPagesSnoc(row, b);
        if row[b] != INVALID_PAGE {
          if row[b] < 0 || row[b] >= pages {
            return released, false;
          }
          released := released + 1;
        }
      }
      assert row[..|row|] == row;
      inRange := true;
    }
  }

  function NoPage(n: nat): (r: seq<int>)
    ensures |r| == n
  {
    seq(n, _ => INVALID_PAGE)
  }

  /** Journaled pages are taken off the free stack. */
  lemma TakenPages(owned: multiset<int>, free: seq<int>, journal: seq<int>, pages: nat)
    requires owned + multiset(free) == EachPageOnce(pages) && |journal| <= |free| && journal == Top(free, |journal|)
    ensures owned + multiset(free[..|free| - |journal|]) + multiset(journal) == EachPageOnce(pages)
  {
    hide EachPageOnce, Top;
    TopIsTail(free, |journal|);
  }

  lemma RowPagesSnoc(row: seq<int>, b: nat)
    requires b < |row|
    ensures RowPages(row[..b + 1]) == RowPages(row[..b]) + if row[b] == INVALID_PAGE then multiset{}
                                                           else multiset{row[b]}
  {
    assert row[..b + 1] == row[..b] + [row[b]];
  }

  lemma EmptySlot(t: Table, s: nat, b: nat)
    requires s < |t| && b < |t[s]| && t[s][b] != INVALID_PAGE
    ensures Owned(t[s := t[s][b := INVALID_PAGE]]) + multiset{t[s][b]} == Owned(t)
  {
    var row' := t[s][b := INVALID_PAGE];
    var t' := t[s := row'];
    assert RowPages(t[s]) == RowPages(row') + multiset{t[s][b]};
    OwnedUpdate(t', s, t[s], multiset{t[s][b]});
    assert t'[s := t[s]] == t;
  }

  lemma ReleaseStep(t: Table, s: nat, row: seq<int>, b: nat)
    requires s < |t| && b < |row| && t[s] == NoPage(b) + row[b..]
    ensures t[s][b] == row[b] && t[s][b := INVALID_PAGE] == NoPage(b + 1) + row[b + 1..]
    ensures Owned(t[s := t[s][b := INVALID_PAGE]]) + (if row[b] == INVALID_PAGE then multiset{} else multiset{row[b]})
              == Owned(t)
  {
    hide Owned, NoPage;
    ReleasedSlot(t[s], row, b);
    if row[b] == INVALID_PAGE {
      assert t[s := t[s]] == t;
    } else {
      EmptySlot(t, s, b);
    }
  }

  lemma ReleasedSlot(now: seq<int>, row: seq<int>, b: nat)
    requires b < |row| && now == NoPage(b) + row[b..]
    ensures |now| == |row| && now[b] == row[b] && now[b := INVALID_PAGE] == NoPage(b + 1) + row[b + 1..]
    ensures row[b] == INVALID_PAGE ==> now[b := INVALID_PAGE] == now
  {
  }

  lemma {:induction false} RowOwned(t: Table, s: nat)
    requires s < |t|
    ensures RowPages(t[s]) <= Owned(t)
  {
    if s == |t| - 1 {
    } else {
      RowOwned(t[..|t| - 1], s);
    }
  }

  lemma MultisetBounded(a: multiset<int>, b: multiset<int>)
    requires a <= b
    ensures |a| <= |b|
  {
    assert b == a + (b - a);
  }

  lemma RowWithinPool(t: Table, free: seq<int>, s: nat, pages: nat)
    requires s < |t| && Owned(t) + multiset(free) == EachPageOnce(pages)
    ensures forall b :: 0 <= b < |t[s]| ==> t[s][b] == INVALID_PAGE || 0 <= t[s][b] < pages
    ensures |free| <= pages && |RowPages(t[s])| <= pages - |free|
  {
    RowOwned(t, s);
    MultisetBounded(RowPages(t[s]), Owned(t));
    assert |Owned(t) + multiset(free)| == |Owned(t)| + |multiset(free)|;
    forall b | 0 <= b < |t[s]| ensures t[s][b] == INVALID_PAGE || 0 <= t[s][b] < pages {
      if t[s][b] != INVALID_PAGE {
        assert t[s][b] in multiset(t[s]);
        assert RowPages(t[s])[t[s][b]] > 0;
        assert (Owned(t) + multiset(free))[t[s][b]] > 0;
      }
    }
  }

  /** Clearing a sequence empties its row and nothing else, and finds pages exactly if the sequence had tokens. */
  lemma ClearedRows(l: Limits, t: Table, lengths: seq<nat>, s: nat)
    requires l.pageTokens > 0 && RowsOk(l, t, lengths) && s < |t|
    ensures RowsOk(l, t[s := NoPage(|t[s]|)], lengths[s := 0])
    ensures RowPages(t[s]) == multiset{} <==> lengths[s] == 0
    ensures lengths[s] == 0 ==> t[s := NoPage(|t[s]|)] == t
  {
    CeilDivExact(0, l.pageTokens);
    CeilDivBounds(lengths[s], l.pageTokens);
    RowCount(t[s], Blocks(l), PagesFor(l, lengths[s]), l.physicalPages);
    assert RowOk(t[s], Blocks(l), PagesFor(l, lengths[s]), l.physicalPages);
    if lengths[s] == 0 {
      assert NoPage(|t[s]|) == t[s];
    }
  }

  /** At a ready point assigned pages are exactly what the lengths call for, so the slack of a live sequence is at most
      one page less one token. */
  lemma AssignedPages(l: Limits, t: Table, free: seq<int>, lengths: seq<nat>)
    requires l.pageTokens > 0 && RowsOk(l, t, lengths)
    requires Owned(t) + multiset(free) == EachPageOnce(l.physicalPages)
    ensures l.physicalPages - |free| == TotalPages(l, lengths)
    ensures 0 <= TotalPages(l, lengths) * l.pageTokens - TotalTokens(lengths)
              <= (l.pageTokens - 1) * LiveSequences(lengths)
  {
    OwnedCount(l, t, lengths);
    assert |Owned(t) + multiset(free)| == |Owned(t)| + |multiset(free)|;
    Slack(l, lengths);
  }

  ghost function TotalTokens(lengths: seq<nat>): nat {
    if lengths == [] then 0 else TotalTokens(lengths[..|lengths| - 1]) + lengths[|lengths| - 1]
  }

  ghost function LiveSequences(lengths: seq<nat>): nat {
    if lengths == [] then 0
    else LiveSequences(lengths[..|lengths| - 1]) + if lengths[|lengths| - 1] != 0 then 1 else 0
  }

  lemma {:induction false} Slack(l: Limits, lengths: seq<nat>)
    requires l.pageTokens > 0
    ensures 0 <= TotalPages(l, lengths) * l.pageTokens - TotalTokens(lengths)
              <= (l.pageTokens - 1) * LiveSequences(lengths)
  {
    if lengths == [] {
    } else {
      var front, last := lengths[..|lengths| - 1], lengths[|lengths| - 1];
      Slack(l, front);
      CeilDivBounds(last, l.pageTokens);
      CeilDivExact(0, l.pageTokens);
      var p, q := TotalPages(l, front), PagesFor(l, last);
      assert (p + q) * l.pageTokens == p * l.pageTokens + q * l.pageTokens;
      var n := LiveSequences(front);
      assert (l.pageTokens - 1) * (n + 1) == (l.pageTokens - 1) * n + (l.pageTokens - 1);
    }
  }

  lemma KeepsStep(row: seq<int>, row': seq<int>, n: nat, b: nat, id: int)
    requires Keeps(row, row', n) && n <= b < |row'|
    ensures Keeps(row, row'[b := id], n)
  {
  }

  lemma RowLength(row: seq<int>, blocks: nat, n: nat, pages: nat)
    requires RowOk(row, blocks, n, pages)
    ensures |row| == blocks && n <= blocks
  {
  }

  lemma NothingDrafted(l: Limits, free: seq<int>, active: Table, committed: seq<nat>, target: seq<nat>)
    requires l.pageTokens > 0 && RowsOk(l, active, committed) && Grows(l, committed, target)
    ensures Progress(l, active, active, committed, target, 0) && Draft(free, active, active, [])
  {
  }

  lemma RowUntouched(l: Limits, active: Table, t: Table, committed: seq<nat>, target: seq<nat>, s: nat)
    requires l.pageTokens > 0 && RowsOk(l, active, committed) && Progress(l, active, t, committed, target, s)
             && s < l.sequences
    ensures RowOk(t[s], Blocks(l), PagesFor(l, committed[s]), l.physicalPages)
  {
  }

  /** Committed slots keep their pages in the pending table. */
  ghost predicate Extends(l: Limits, active: Table, pending: Table, committed: seq<nat>)
    requires l.pageTokens > 0
  {
    && |pending| == |active| == |committed|
    && forall s :: 0 <= s < |active| ==> Keeps(active[s], pending[s], PagesFor(l, committed[s]))
  }

  ghost predicate Keeps(row: seq<int>, row': seq<int>, n: nat) {
    n <= |row| && n <= |row'| && row'[..n] == row[..n]
  }

  lemma NothingMapped(l: Limits, t: Table)
    requires CheckedLimits(l) && t == seq(l.sequences, _ => seq(Blocks(l), _ => INVALID_PAGE))
    ensures Owned(t) == multiset{} && |t| == l.sequences
    ensures RowsOk(l, t, seq(l.sequences, _ => 0))
  {
    CeilDivExact(0, l.pageTokens);
    OwnedCount(l, t, seq(l.sequences, _ => 0));
    NoPages(l, l.sequences);
  }

  lemma {:induction false} NoPages(l: Limits, n: nat)
    requires l.pageTokens > 0
    ensures TotalPages(l, seq(n, _ => 0)) == 0
  {
    CeilDivExact(0, l.pageTokens);
    if n == 0 {
    } else {
      NoPages(l, n - 1);
      assert seq(n, _ => 0)[..n - 1] == seq(n - 1, _ => 0);
    }
  }
}

/** Credits dominate pages on the GPU: without a prefix cache, the page pool never overflows under the engine
    (src/engine.cpp:120-124, 295-316; src/minillm/cuda/page_table.cpp:52-56). */
module CudaServing {
  import opened Arithmetic
  import opened Outcomes
  import opened RefCounts
  import opened Batches
  import opened PageTables
  import opened CudaRuntimes
  import opened Credits

  /** All blocks of the first `n` slots, one after the other. */
  ghost function Listing(blocks: seq<seq<nat>>, n: nat): seq<nat>
    requires n <= |blocks|
  {
    if n == 0 then [] else Listing(blocks, n - 1) + blocks[n - 1]
  }

  lemma {:induction false} ListedWhere(blocks: seq<seq<nat>>, n: nat, k: nat) returns (s: nat, i: nat)
    requires n <= |blocks| && k < |Listing(blocks, n)|
    ensures s < n && i < |blocks[s]| && blocks[s][i] == Listing(blocks, n)[k]
  {
    if k < |Listing(blocks, n - 1)| {
      s, i := ListedWhere(blocks, n - 1, k);
    } else {
      s, i := n - 1, k - |Listing(blocks, n - 1)|;
    }
  }

  lemma {:induction false} Listed(blocks: seq<seq<nat>>, n: nat, s: nat, i: nat)
    requires s < n <= |blocks| && i < |blocks[s]|
    ensures blocks[s][i] in Listing(blocks, n)
  {
    if s < n - 1 {
      Listed(blocks, n - 1, s, i);
    } else {
      assert Listing(blocks, n)[|Listing(blocks, n - 1)| + i] == blocks[s][i];
    }
  }

  lemma {:induction false} ListingDistinct(v: View, c: Capacity, n: nat)
    requires Sound(v, c) && Exclusive(v) && n <= |v.blocks|
    ensures Distinct(Listing(v.blocks, n)) && Within(Listing(v.blocks, n), c.blocks)
  {
    if n == 0 {
    } else {
      ListingDistinct(v, c, n - 1);
      assert SlotOk(v, c, n - 1);
      var before, last := Listing(v.blocks, n - 1), v.blocks[n - 1];
      forall k, j | 0 <= k < |before| && 0 <= j < |last| ensures before[k] != last[j] {
        var s, i := ListedWhere(v.blocks, n - 1, k);
      }
    }
  }

  lemma {:induction false} PagesWithinListing(v: View, c: Capacity, l: Limits, lengths: seq<nat>, n: nat)
    requires n <= |v.blocks| == |lengths| && l.pageTokens == c.blockSize > 0
    requires forall s :: 0 <= s < |lengths| ==> lengths[s] <= |v.blocks[s]| * c.blockSize
    ensures TotalPages(l, lengths[..n]) <= |Listing(v.blocks, n)|
  {
    if n == 0 {
    } else {
      PagesWithinListing(v, c, l, lengths, n - 1);
      assert lengths[..n][..n - 1] == lengths[..n - 1];
      CeilDivMonotone(lengths[n - 1], |v.blocks[n - 1]| * c.blockSize, c.blockSize);
      CeilDivExact(|v.blocks[n - 1]|, c.blockSize);
    }
  }

  /** Exclusive pages for lengths within the credits fit a pool of as many pages as there are credits. */
  lemma PagesWithinPool(v: View, c: Capacity, l: Limits, lengths: seq<nat>)
    requires Sound(v, c) && Exclusive(v) && |v.blocks| == |lengths| && l.pageTokens == c.blockSize > 0
    requires forall s :: 0 <= s < |lengths| ==> lengths[s] <= |v.blocks[s]| * c.blockSize
    ensures TotalPages(l, lengths) <= c.blocks
  {
    var all := Listing(v.blocks, |v.blocks|);
    ListingDistinct(v, c, |v.blocks|);
    SetOfDistinct(all);
    forall x | x in SetOf(all) ensures x in Below(c.blocks) {
      var k :| 0 <= k < |all| && all[k] == x;
    }
    SubsetSize(SetOf(all), Below(c.blocks));
    PagesWithinListing(v, c, l, lengths, |lengths|);
    assert lengths[..|lengths|] == lengths;
  }

  /** The paged runtime the engine drives: as many pages as credits, the same page size and limits. */
  ghost predicate Configured(rt: CudaRuntime, c: Capacity) {
    && rt.pages != null && rt.pages.limits.physicalPages == c.blocks && rt.pages.limits.pageTokens == c.blockSize > 0
    && rt.state.vocabulary == c.vocabulary && rt.state.limits.maxModelLen == c.maxModelLen
       && rt.state.limits.maxBatchTokens == c.batchTokens
  }

  ghost predicate Following(rt: CudaRuntime, v: View, c: Capacity)
    reads rt, rt.state, rt.pages
  {
    && Configured(rt, c) && rt.Valid() && rt.state.phase == Ready && rt.state.lengths == Lengths(v.histories)
    && Sound(v, c) && Exclusive(v)
  }

  /** What fits the pool can be met from the free pages, if the others are those the lengths call for. */
  lemma DemandWithin(l: Limits, lengths: seq<nat>, target: seq<nat>, free: nat)
    requires l.pageTokens > 0 && TotalPages(l, target) <= l.physicalPages
             && l.physicalPages - free == TotalPages(l, lengths)
    ensures |lengths| == |target| == l.sequences ==> Demand(l, lengths, target, l.sequences) <= free
  {
    if |lengths| == |target| == l.sequences {
      DemandIsDifference(l, lengths, target, l.sequences);
      assert target[..l.sequences] == target && lengths[..l.sequences] == lengths;
    }
  }

  /** A legal batch never asks for more pages than are free. */
  lemma NeverOverfull(rt: CudaRuntime, v: View, c: Capacity, batch: seq<InputToken>)
    requires Following(rt, v, c) && Legal(v, c, Feed(batch))
    ensures rt.Acceptable(rt.state.lengths, batch)
    ensures !rt.Overfull(rt.state.lengths, LengthsAfter(rt.state.lengths, batch), |rt.pages.freeIds|)
    ensures LengthsAfter(rt.state.lengths, batch) == Lengths(Apply(v, c, Feed(batch)).histories)
  {
    hide Sound, Exclusive, RowsOk, TotalPages, Demand, WellFormed, HistoriesAfter, LengthsAfter, EachPageOnce, Owned,
         CeilDiv;
    var l, lengths := rt.pages.limits, rt.state.lengths;
    var target := LengthsAfter(lengths, batch);
    LengthsOfHistories(v.histories, batch);
    PagesWithinPool(v, c, l, target);
    AssignedPages(l, rt.pages.active, rt.pages.freeIds, lengths);
    DemandWithin(l, lengths, target, |rt.pages.freeIds|);
  }

  lemma EmptyExclusive(slots: nat)
    ensures Exclusive(EmptyView(slots))
  {
  }

  /** One step of an engine without prefix cache on the GPU runtime: only the device can make it fail. */
  method FollowStep(rt: CudaRuntime, step: Step, ghost v: View, ghost c: Capacity) returns (status: Status)
    requires c.blockSize > 0 && Following(rt, v, c) && Legal(v, c, step) && Plain(step)
    modifies rt, rt.state, rt.pages
    ensures rt.Valid()
    ensures status.Ok? ==> Following(rt, Apply(v, c, step), c)
    ensures status.Failed? ==> status.error != LengthError && status.error != InvalidArgument
  {
    StepSound(v, c, step);
    StepExclusive(v, c, step);
    match step {
      case Release(slot) =>
        ClearedLengths(v, slot, []);
        SlotExists(rt, v, c, slot);
        status := rt.ClearSequence(slot);
      case Adopt(slot, source, tokens, granted) =>
        ClearedLengths(v, slot, []);
        SlotExists(rt, v, c, slot);
        status := rt.ClearSequence(slot);
      case Feed(batch) =>
        NeverOverfull(rt, v, c, batch);
        status := FeedBatch(rt, batch, v, c);
    }
  }

  lemma SlotExists(rt: CudaRuntime, v: View, c: Capacity, slot: nat)
    requires Following(rt, v, c) && slot < |v.blocks|
    ensures slot < rt.state.limits.maxSequences
  {
    assert |Lengths(v.histories)| == |v.blocks|;
  }

  lemma ClearedLengths(v: View, slot: nat, tokens: seq<int>)
    requires slot < |v.histories|
    ensures Lengths(v.histories[slot := tokens]) == Lengths(v.histories)[slot := |tokens|]
  {
  }

  method FeedBatch(rt: CudaRuntime, batch: seq<InputToken>, ghost v: View, ghost c: Capacity) returns (status: Status)
    requires c.blockSize > 0 && Following(rt, v, c) && Legal(v, c, Feed(batch))
    requires Sound(Apply(v, c, Feed(batch)), c) && Exclusive(Apply(v, c, Feed(batch)))
    requires rt.Acceptable(rt.state.lengths, batch)
    requires !rt.Overfull(rt.state.lengths, LengthsAfter(rt.state.lengths, batch), |rt.pages.freeIds|)
    requires LengthsAfter(rt.state.lengths, batch) == Lengths(Apply(v, c, Feed(batch)).histories)
    modifies rt, rt.state, rt.pages
    ensures rt.Valid()
    ensures status.Ok? ==> Following(rt, Apply(v, c, Feed(batch)), c)
    ensures status.Failed? ==> status.error != LengthError && status.error != InvalidArgument
  {
    hide Sound, Exclusive, Legal, Apply, LengthsAfter, CudaRuntime.Overfull, CudaRuntime.Acceptable;
    ghost var launched;
    status, launched := rt.Forward(batch);
  }

  /** A whole run of an engine without prefix cache: either the device fails, or the runtime ends with exactly the
      lengths of the run. */
  method Follow(rt: CudaRuntime, steps: seq<Step>, ghost c: Capacity) returns (status: Status)
    requires c.blockSize > 0 && Following(rt, EmptyView(rt.state.limits.maxSequences), c)
    requires LegalRun(EmptyView(rt.state.limits.maxSequences), c, steps) && NoShares(steps)
    modifies rt, rt.state, rt.pages
    ensures rt.Valid()
    ensures status.Ok? ==> Following(rt, Replay(EmptyView(rt.state.limits.maxSequences), c, steps), c)
    ensures status.Failed? ==> status.error != LengthError && status.error != InvalidArgument
  {
    ghost var v := EmptyView(rt.state.limits.maxSequences);
    ghost var goal := Replay(v, c, steps);
    status := Ok;
    assert steps[0..] == steps;
    for i := 0 to |steps|
      invariant status == Ok && Following(rt, v, c)
      invariant LegalRun(v, c, steps[i..]) && Replay(v, c, steps[i..]) == goal
    {
      assert steps[i..][0] == steps[i] && steps[i..][1..] == steps[i + 1..];
      assert Plain(steps[i]);
      status := FollowStep(rt, steps[i], v, c);
      if status.Failed? {
        return;
      }
      v := Apply(v, c, steps[i]);
    }
    assert steps[|steps|..] == [];
  }

  /** Assigned pages never exceed the blocks held. */
  lemma PagesWithinCredits(rt: CudaRuntime, v: View, c: Capacity)
    requires Following(rt, v, c)
    ensures rt.pages.limits.physicalPages - |rt.pages.freeIds| <= |Listing(v.blocks, |v.blocks|)|
  {
    var lengths := rt.state.lengths;
    forall s | 0 <= s < |lengths| ensures lengths[s] <= |v.blocks[s]| * c.blockSize {
      assert SlotOk(v, c, s);
    }
    AssignedPages(rt.pages.limits, rt.pages.active, rt.pages.freeIds, lengths);
    PagesWithinListing(v, c, rt.pages.limits, lengths, |lengths|);
    assert lengths[..|lengths|] == lengths;
  }
}

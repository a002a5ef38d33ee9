/** The engine on the paged GPU runtime: its credits keep the page pool from overflowing (src/engine.cpp:120-124,
    295-316; src/config.cpp:58-65). */
module EnginesOnGpu {
  import Arithmetic
  import opened Outcomes
  import opened RefCounts
  import opened Batches
  import opened EngineState
  import opened EngineCredits
  import opened EngineLaws
  import opened Engines
  import Credits
  import CpuServing
  import EnginesOnCpu
  import CudaRuntimes
  import CudaServing

  /** The paged runtime made for an engine: one page per credit, and no prefix cache. */
  ghost predicate BuiltFor(rt: CudaRuntimes.CudaRuntime, engine: Engine) {
    && rt.pages != null && rt.pages.limits.pageTokens == engine.config.blockSize > 0
    && rt.pages.limits.physicalPages == engine.config.contextTokens / engine.config.blockSize
    && rt.state.limits.maxSequences == Slots(engine.config) && rt.state.limits.maxModelLen == engine.config.maxModelLen
    && rt.state.limits.maxBatchTokens == engine.config.batchTokens && rt.state.vocabulary == engine.model.vocabulary
    && engine.config.prefixCacheEntries == 0
  }

  lemma StartFollows(rt: CudaRuntimes.CudaRuntime, c: Credits.Capacity)
    requires c.blockSize > 0 && CudaServing.Configured(rt, c) && rt.Valid()
             && rt.state.phase == CudaRuntimes.PageTables.Ready
    requires rt.state.lengths == seq(rt.state.limits.maxSequences, _ => 0)
    ensures CudaServing.Following(rt, Credits.EmptyView(rt.state.limits.maxSequences), c)
  {
    Credits.EmptySound(c, rt.state.limits.maxSequences);
    CudaServing.EmptyExclusive(rt.state.limits.maxSequences);
    assert Lengths(Credits.EmptyView(rt.state.limits.maxSequences).histories) == rt.state.lengths;
  }

  /** The listing of all slots' blocks is as long as the pool's blocks in use. */
  lemma ListedIsUsed(refs: seq<nat>, table: seq<seq<nat>>, v: Credits.View, c: Credits.Capacity)
    requires CreditsExact(refs, table) && v.blocks == table && Credits.Sound(v, c) && Credits.Exclusive(v)
    ensures |CudaServing.Listing(table, |table|)| == |Used(refs)|
  {
    var all := CudaServing.Listing(table, |table|);
    CudaServing.ListingDistinct(v, c, |table|);
    SetOfDistinct(all);
    EnginesOnCpu.HeldIsUsed(refs, table);
    forall b: nat ensures b in SetOf(all) <==> b in CpuServing.HeldBlocks(table) {
      if b in SetOf(all) {
        var k :| 0 <= k < |all| && all[k] == b;
        var s, i := CudaServing.ListedWhere(table, |table|, k);
      }
      if b in CpuServing.HeldBlocks(table) {
        var s, i :| 0 <= s < |table| && 0 <= i < |table[s]| && table[s][i] == b;
        CudaServing.Listed(table, |table|, s, i);
      }
    }
    assert SetOf(all) == Used(refs);
  }

  /** A run of the engine, replayed on a new paged GPU runtime: it ends with the lengths the engine counts on and
      with no more pages assigned than credits in use, unless the device itself fails. */
  method ReplayOnGpu(engine: Engine, rt: CudaRuntimes.CudaRuntime, steps: seq<Credits.Step>) returns (status: Status)
    requires engine.Lifecycle() && engine.OnTrack() && steps == engine.trace && BuiltFor(rt, engine)
    requires rt.Valid() && rt.state.phase == CudaRuntimes.PageTables.Ready
    requires rt.state.lengths == seq(rt.state.limits.maxSequences, _ => 0)
    modifies rt, rt.state, rt.pages
    ensures rt.Valid() && (status.Failed? ==> status.error != LengthError && status.error != InvalidArgument)
    ensures status.Ok? ==> rt.state.lengths == Lengths(engine.runner.histories)
    ensures status.Ok? ==> rt.pages.limits.physicalPages - |rt.pages.freeIds| <= |engine.pool.refs| - |engine.pool.free|
  {
    hide Accounted, Balanced, Following, FreeExact;
    ghost var c := Cap(engine.pool.refs, engine.model, engine.config);
    ghost var refs, free, table, h := engine.pool.refs, engine.pool.free, engine.table, engine.runner.histories;
    EnginesOnCpu.BlockCountExact(engine);
    EnginesOnCpu.EngineFacts(engine);
    NothingShared(engine);
    FreeCount(refs, free);
    StartFollows(rt, c);
    status := CudaServing.Follow(rt, steps, c);
    if status.Ok? {
      CudaServing.PagesWithinCredits(rt, Credits.View(h, table), c);
      ListedIsUsed(refs, table, Credits.View(h, table), c);
    }
  }

  lemma NothingShared(engine: Engine)
    requires engine.Lifecycle() && engine.OnTrack() && engine.config.prefixCacheEntries == 0
    ensures Credits.NoShares(engine.trace)
  {
    hide Traced, CreditsExact, LogsOk, Registered, Tracked, ItemsOk, QueueOk, SlotsExact, CacheSlotsExact, TableExact;
  }
}

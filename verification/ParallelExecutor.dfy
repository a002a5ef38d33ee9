/** The generation barrier of the thread pool (src/minillm/parallel.cpp) as a state machine: thread 0 is the caller of
    `run`, the others are workers, and a step is one critical section, one atomic fetch, or one piece of user work. */
module ParallelExecutors {
  import opened Arithmetic
  import opened RefCounts

  /** Where a thread is: waiting or outside `run`, about to fetch a chunk, working on claim `k`, or out of the loop. */
  datatype Pc = Idle | Fetching | Working(k: nat) | Leaving

  datatype Chunk = Chunk(begin: nat, end: nat)

  datatype Pool = Pool(
    pc: seq<Pc>,
    /** Each worker's local generation. */
    seen: seq<nat>,
    next: nat, count: nat, grain: nat, generation: nat, remaining: nat, error: bool,
    /** History of the current run: chunks claimed in order, claims finished, and fetches beyond the end. */
    claimed: seq<Chunk>, finished: set<nat>, overshoot: nat)

  datatype Step =
    | Dispatch(count: nat, grain: nat)
    | Start(w: nat)
    | Fetch(t: nat)
    | Finish(t: nat)
    | Throw(t: nat)
    | Done(w: nat)
    | Return

  function Initial(threads: nat): Pool {
    Pool(seq(threads, _ => Idle), seq(threads, _ => 0), 0, 0, 1, 0, 0, false, [], {}, 0)
  }

  predicate Enabled(p: Pool, step: Step)
    requires |p.pc| == |p.seen| > 0
  {
    match step
    case Dispatch(count, grain) => p.pc[0].Idle? && count > 0 && grain > 0
    case Start(w) => 0 < w < |p.pc| && p.pc[w].Idle? && p.seen[w] != p.generation
    case Fetch(t) => t < |p.pc| && p.pc[t].Fetching?
    case Finish(t) => t < |p.pc| && p.pc[t].Working?
    case Throw(t) => t < |p.pc| && p.pc[t].Working?
    case Done(w) => 0 < w < |p.pc| && p.pc[w].Leaving? && p.remaining > 0
    case Return => p.pc[0].Leaving? && p.remaining == 0
  }

  function Apply(p: Pool, step: Step): Pool
    requires |p.pc| == |p.seen| > 0 && Enabled(p, step)
  {
    match step
    case Dispatch(count, grain) =>
      p.(count := count, grain := grain, next := 0, error := false, remaining := |p.pc| - 1,
         generation := p.generation + 1, pc := p.pc[0 := Fetching], claimed := [], finished := {}, overshoot := 0)
    case Start(w) => p.(seen := p.seen[w := p.generation], pc := p.pc[w := Fetching])
    case Fetch(t) =>
      if p.next < p.count then
        var end := if p.next + p.grain < p.count then p.next + p.grain else p.count;
        p.(next := p.next + p.grain, pc := p.pc[t := Working(|p.claimed|)], claimed := p.claimed + [Chunk(p.next, end)])
      else p.(next := p.next + p.grain, pc := p.pc[t := Leaving], overshoot := p.overshoot + 1)
    case Finish(t) => p.(finished := p.finished + {p.pc[t].k}, pc := p.pc[t := Fetching])
    case Throw(t) => p.(error := true, pc := p.pc[t := Leaving])
    case Done(w) => p.(remaining := p.remaining - 1, pc := p.pc[w := Idle])
    case Return => p.(pc := p.pc[0 := Idle])
  }

  // ---- the invariant -----------------------------------------------------------------

  /** Workers that still owe the current run their departure. */
  ghost function Owing(p: Pool): set<nat>
    requires |p.pc| == |p.seen|
  {
    set w | 0 < w < |p.pc| && (!p.pc[w].Idle? || p.seen[w] != p.generation)
  }

  /** Threads that left the loop of the current run. */
  ghost function Left(p: Pool): set<nat>
    requires |p.pc| == |p.seen|
  {
    set t | 0 <= t < |p.pc| && (p.pc[t].Leaving? || (p.pc[t].Idle? && (t == 0 || p.seen[t] == p.generation)))
  }

  ghost predicate Barrier(p: Pool) {
    && |p.pc| == |p.seen| > 0
    && p.remaining == |Owing(p)|
    && (forall w :: 0 < w < |p.pc| ==>
          if p.pc[w].Idle? then p.seen[w] == p.generation || p.seen[w] + 1 == p.generation
          else p.seen[w] == p.generation)
    && (p.pc[0].Idle? ==> p.remaining == 0)
    && p.overshoot <= |Left(p)|
  }

  /** The k-th claim is the k-th grain of the range. */
  ghost predicate ClaimsInOrder(p: Pool) {
    && p.grain > 0
    && p.next == (|p.claimed| + p.overshoot) * p.grain
    && (p.overshoot > 0 ==> |p.claimed| * p.grain >= p.count)
    && forall k :: 0 <= k < |p.claimed| ==> ClaimAt(p, k)
  }

  ghost predicate ClaimAt(p: Pool, k: nat)
    requires k < |p.claimed|
  {
    && p.claimed[k].begin == k * p.grain < p.count
    && p.claimed[k].end == (if (k + 1) * p.grain < p.count then (k + 1) * p.grain else p.count)
  }

  /** Every claim is in exactly one pair of hands until it is finished, unless work threw. */
  ghost predicate ClaimsHeld(p: Pool) {
    && (forall t :: 0 <= t < |p.pc| && p.pc[t].Working? ==> p.pc[t].k < |p.claimed| && p.pc[t].k !in p.finished)
    && (forall t, u :: 0 <= t < u < |p.pc| && p.pc[t].Working? && p.pc[u].Working? ==> p.pc[t].k != p.pc[u].k)
    && (forall k :: k in p.finished ==> k < |p.claimed|)
    && (!p.error ==> forall k :: 0 <= k < |p.claimed| && k !in p.finished ==> HeldBy(p, k))
    && (forall t :: 0 <= t < |p.pc| && p.pc[t].Leaving? ==> p.error || |p.claimed| * p.grain >= p.count)
  }

  ghost predicate HeldBy(p: Pool, k: nat) {
    exists t :: 0 <= t < |p.pc| && p.pc[t] == Working(k)
  }

  ghost predicate Inv(p: Pool) {
    Barrier(p) && ClaimsInOrder(p) && ClaimsHeld(p)
  }

  lemma InitialInv(threads: nat)
    requires threads > 0
    ensures Inv(Initial(threads))
  {
    assert Owing(Initial(threads)) == {};
  }

  // ---- every step keeps it ---------------------------------------------------------------

  lemma DispatchBarrier(p: Pool, count: nat, grain: nat)
    requires Inv(p) && Enabled(p, Dispatch(count, grain))
    ensures Barrier(Apply(p, Dispatch(count, grain)))
  {
    hide ClaimsInOrder, ClaimsHeld;
    var p' := Apply(p, Dispatch(count, grain));
    NobodyInside(p);
    assert Owing(p') == Below(|p.pc|) - {0};
  }

  /** A step of one thread that leaves it inside, or that a worker joins the run with. */
  lemma SameSetsBarrier(p: Pool, p': Pool)
    requires Barrier(p) && |p'.pc| == |p'.seen| == |p.pc| && p'.remaining == p.remaining
             && p'.generation == p.generation
    requires Owing(p') == Owing(p) && |Left(p')| - p'.overshoot >= |Left(p)| - p.overshoot
    requires forall w :: 0 < w < |p.pc| ==>
               if p'.pc[w].Idle? then p'.seen[w] == p.generation || p'.seen[w] + 1 == p.generation
               else p'.seen[w] == p.generation
    requires p'.pc[0].Idle? ==> p.remaining == 0
    ensures Barrier(p')
  {
  }

  lemma StartBarrier(p: Pool, w: nat)
    requires Inv(p) && Enabled(p, Start(w))
    ensures Barrier(Apply(p, Start(w)))
  {
    var p' := Apply(p, Start(w));
    hide ClaimsInOrder, ClaimsHeld;
    assert Owing(p') == Owing(p) && Left(p') == Left(p);
    SameSetsBarrier(p, p');
  }

  lemma SetsInLoop(p: Pool, p': Pool, t: nat)
    requires |p.pc| == |p.seen| == |p'.pc| && t < |p.pc| && p'.seen == p.seen && p'.generation == p.generation
    requires p'.pc == p.pc[t := p'.pc[t]] && !p'.pc[t].Idle? && (p.pc[t].Fetching? || p.pc[t].Working?)
    ensures Owing(p') == Owing(p)
    ensures |Left(p')| == |Left(p)| + if p'.pc[t].Leaving? then 1 else 0
  {
    assert Owing(p') == Owing(p);
    if p'.pc[t].Leaving? {
      assert Left(p') == Left(p) + {t} && t !in Left(p);
    } else {
      assert Left(p') == Left(p);
    }
  }

  lemma LoopBarrier(p: Pool, step: Step, t: nat)
    requires Inv(p) && Enabled(p, step) && (step == Fetch(t) || step == Finish(t) || step == Throw(t))
    ensures Barrier(Apply(p, step))
  {
    var p' := Apply(p, step);
    hide ClaimsInOrder, ClaimsHeld, Inv;
    SetsInLoop(p, p', t);
    hide Owing, Left;
    SameSetsBarrier(p, p');
  }

  lemma DoneBarrier(p: Pool, w: nat)
    requires Inv(p) && Enabled(p, Done(w))
    ensures Barrier(Apply(p, Done(w)))
  {
    var p' := Apply(p, Done(w));
    hide ClaimsInOrder, ClaimsHeld;
    assert Owing(p') == Owing(p) - {w} && w in Owing(p);
    assert Left(p') == Left(p);
  }

  lemma ReturnBarrier(p: Pool)
    requires Inv(p) && Enabled(p, Return)
    ensures Barrier(Apply(p, Return))
  {
    var p' := Apply(p, Return);
    hide ClaimsInOrder, ClaimsHeld;
    assert Owing(p') == Owing(p) && Left(p') == Left(p);
    SameSetsBarrier(p, p');
  }

  lemma StepBarrier(p: Pool, step: Step)
    requires Inv(p) && Enabled(p, step)
    ensures Barrier(Apply(p, step))
  {
    hide Apply, Inv, Enabled;
    match step
    case Dispatch(count, grain) => DispatchBarrier(p, count, grain);
    case Start(w) => StartBarrier(p, w);
    case Fetch(t) => LoopBarrier(p, step, t);
    case Finish(t) => LoopBarrier(p, step, t);
    case Throw(t) => LoopBarrier(p, step, t);
    case Done(w) => DoneBarrier(p, w);
    case Return => ReturnBarrier(p);
  }

  lemma SameClaims(p: Pool, p': Pool)
    requires ClaimsInOrder(p) && p'.claimed == p.claimed && p'.count == p.count && p'.grain == p.grain
    requires p'.next == p.next + (p'.overshoot - p.overshoot) * p.grain
    requires p'.overshoot > 0 ==> |p.claimed| * p.grain >= p.count
    ensures ClaimsInOrder(p')
  {
    forall k | 0 <= k < |p'.claimed| ensures ClaimAt(p', k) {
      assert ClaimAt(p, k);
    }
    assert (|p.claimed| + p'.overshoot) * p.grain
        == (|p.claimed| + p.overshoot) * p.grain + (p'.overshoot - p.overshoot) * p.grain;
  }

  lemma OneMoreClaim(p: Pool, t: nat)
    requires ClaimsInOrder(p) && |p.pc| == |p.seen| > 0 && Enabled(p, Fetch(t)) && p.next < p.count
    ensures ClaimsInOrder(Apply(p, Fetch(t)))
  {
    var p' := Apply(p, Fetch(t));
    var n := |p.claimed|;
    NoOvershoot(p);
    assert (n + 1) * p.grain == n * p.grain + p.grain;
    forall k | 0 <= k < |p'.claimed| ensures ClaimAt(p', k) {
      assert k < n ==> ClaimAt(p, k);
    }
  }

  lemma StepClaimsInOrder(p: Pool, step: Step)
    requires Inv(p) && Enabled(p, step)
    ensures ClaimsInOrder(Apply(p, step))
  {
    hide ClaimsHeld, ClaimAt;
    var p' := Apply(p, step);
    if step.Fetch? && p.next < p.count {
      OneMoreClaim(p, step.t);
    } else if !step.Dispatch? {
      if step.Fetch? && p.overshoot == 0 {
        assert |p.claimed| + p.overshoot == |p.claimed|;
      }
      SameClaims(p, p');
    }
  }

  /** While the range is not used up, nobody has fetched beyond it. */
  lemma NoOvershoot(p: Pool)
    requires ClaimsInOrder(p) && p.next < p.count
    ensures p.overshoot == 0
  {
    assert (|p.claimed| + p.overshoot) * p.grain == |p.claimed| * p.grain + p.overshoot * p.grain;
    assert p.overshoot * p.grain >= 0;
  }

  lemma StepClaimsHeld(p: Pool, step: Step)
    requires Inv(p) && Enabled(p, step)
    ensures ClaimsHeld(Apply(p, step))
  {
    hide ClaimsInOrder, Barrier, HeldBy, Inv;
    InvParts(p);
    var p' := Apply(p, step);
    match step
    case Fetch(t) => FetchHeld(p, t);
    case Dispatch(_, _) =>
      NobodyAtWork(p);
    case Finish(t) =>
      StillHeld(p, p', t);
    case Throw(t) =>
    case Start(w) =>
      StillHeld(p, p', w);
    case Done(w) =>
      StillHeld(p, p', w);
    case Return =>
      StillHeld(p, p', 0);
  }

  lemma InvParts(p: Pool)
    requires Inv(p)
    ensures |p.pc| == |p.seen| > 0 && ClaimsInOrder(p) && ClaimsHeld(p)
  {
  }

  /** Outside `run`, everybody is idle. */
  lemma NobodyAtWork(p: Pool)
    requires Inv(p) && p.pc[0].Idle?
    ensures forall t :: 0 <= t < |p.pc| ==> p.pc[t].Idle?
  {
    hide ClaimsInOrder, ClaimsHeld, Owing, Left;
    NobodyInside(p);
  }

  /** Claims other than the one thread `t` may have put down stay in the same hands. */
  lemma StillHeld(p: Pool, p': Pool, t: nat)
    requires ClaimsHeld(p) && t < |p.pc| == |p'.pc| && p'.claimed == p.claimed && p.error == p'.error
    requires forall u :: 0 <= u < |p.pc| && u != t ==> p'.pc[u] == p.pc[u]
    requires p.finished <= p'.finished && (p.pc[t].Working? ==> p.pc[t].k in p'.finished)
    ensures !p'.error ==> forall k :: 0 <= k < |p'.claimed| && k !in p'.finished ==> HeldBy(p', k)
  {
    if !p'.error {
      forall k | 0 <= k < |p'.claimed| && k !in p'.finished ensures HeldBy(p', k) {
        assert HeldBy(p, k);
        var u :| 0 <= u < |p.pc| && p.pc[u] == Working(k);
        assert p'.pc[u] == Working(k);
      }
    }
  }

  lemma FetchHeld(p: Pool, t: nat)
    requires Inv(p) && Enabled(p, Fetch(t))
    ensures ClaimsHeld(Apply(p, Fetch(t)))
  {
    hide ClaimAt, Inv, HeldBy;
    InvParts(p);
    var p' := Apply(p, Fetch(t));
    var n := |p.claimed|;
    FetchKeepsHold(p, t);
    assert (n + 1) * p.grain == n * p.grain + p.grain;
    if p.next >= p.count && p.overshoot == 0 {
      assert n * p.grain >= p.count;
    }
  }

  lemma FetchKeepsHold(p: Pool, t: nat)
    requires Inv(p) && Enabled(p, Fetch(t))
    ensures var p' := Apply(p, Fetch(t));
      !p'.error ==> forall k :: 0 <= k < |p'.claimed| && k !in p'.finished ==> HeldBy(p', k)
  {
    hide ClaimsInOrder, Owing, Left;
    var p' := Apply(p, Fetch(t));
    if !p'.error {
      forall k | 0 <= k < |p'.claimed| && k !in p'.finished ensures HeldBy(p', k) {
        if k == |p.claimed| {
          assert p'.pc[t] == Working(k);
        } else {
          assert HeldBy(p, k);
          var u :| 0 <= u < |p.pc| && p.pc[u] == Working(k);
          assert p'.pc[u] == Working(k);
        }
      }
    }
  }

  lemma StepInv(p: Pool, step: Step)
    requires Inv(p) && Enabled(p, step)
    ensures Inv(Apply(p, step))
  {
    StepBarrier(p, step);
    StepClaimsInOrder(p, step);
    StepClaimsHeld(p, step);
  }

  // ---- runs ---------------------------------------------------------------------------------

  /** A schedule: every step enabled where it is taken. */
  ghost predicate Feasible(p: Pool, steps: seq<Step>)
    decreases |steps|
  {
    steps == [] || (|p.pc| == |p.seen| > 0 && Enabled(p, steps[0]) && Feasible(Apply(p, steps[0]), steps[1..]))
  }

  ghost function After(p: Pool, steps: seq<Step>): Pool
    requires Feasible(p, steps)
    decreases |steps|
  {
    if steps == [] then p else After(Apply(p, steps[0]), steps[1..])
  }

  lemma {:induction false} ReachableInv(p: Pool, steps: seq<Step>)
    requires Inv(p) && Feasible(p, steps)
    ensures Inv(After(p, steps))
    decreases |steps|
  {
    if steps == [] {
    } else {
      StepInv(p, steps[0]);
      ReachableInv(Apply(p, steps[0]), steps[1..]);
    }
  }

  ghost predicate Contains(c: Chunk, i: nat) {
    c.begin <= i < c.end
  }

  /** Over all interleavings: when `run` may return, no worker is inside the loop, no chunk was claimed twice, and if no
      work threw, every index lies in exactly one claimed chunk and that chunk is finished. */
  lemma ReturnsComplete(threads: nat, steps: seq<Step>)
    requires threads > 0 && Feasible(Initial(threads), steps)
    ensures var p := After(Initial(threads), steps);
      && Inv(p)
      && (Enabled(p, Return) ==>
            && (forall w :: 0 < w < |p.pc| ==> p.pc[w].Idle? && p.seen[w] == p.generation)
            && (!p.error ==> forall i :: 0 <= i < p.count ==> ProcessedOnce(p, i)))
      && (forall j, k :: 0 <= j < k < |p.claimed| ==> p.claimed[j].end <= p.claimed[k].begin)
  {
    InitialInv(threads);
    ReachableInv(Initial(threads), steps);
    var p := After(Initial(threads), steps);
    ClaimsDisjoint(p);
    if Enabled(p, Return) {
      NobodyInside(p);
      if !p.error {
        forall i | 0 <= i < p.count ensures ProcessedOnce(p, i) {
          IndexCovered(p, i);
        }
      }
    }
  }

  ghost predicate Covering(p: Pool, i: nat, k: nat) {
    k < |p.claimed| && Contains(p.claimed[k], i)
  }

  /** Exactly one claimed chunk contains the index, and it has been worked off. */
  ghost predicate ProcessedOnce(p: Pool, i: nat) {
    exists k :: Covering(p, i, k) && k in p.finished && forall j :: Covering(p, i, j) ==> j == k
  }

  lemma NobodyInside(p: Pool)
    requires Inv(p) && p.remaining == 0
    ensures forall w :: 0 < w < |p.pc| ==> p.pc[w].Idle? && p.seen[w] == p.generation
  {
    assert Owing(p) == {};
    forall w | 0 < w < |p.pc| ensures p.pc[w].Idle? && p.seen[w] == p.generation {
      assert w !in Owing(p);
    }
  }

  lemma ClaimsDisjoint(p: Pool)
    requires Inv(p)
    ensures forall j, k :: 0 <= j < k < |p.claimed| ==> p.claimed[j].end <= p.claimed[k].begin
  {
    forall j, k | 0 <= j < k < |p.claimed| ensures p.claimed[j].end <= p.claimed[k].begin {
      assert ClaimAt(p, j) && ClaimAt(p, k);
      MulStep(j + 1, k, p.grain);
    }
  }

  lemma IndexCovered(p: Pool, i: nat)
    requires Inv(p) && Enabled(p, Return) && !p.error && i < p.count
    ensures ProcessedOnce(p, i)
  {
    hide ClaimsInOrder, ClaimsHeld, Barrier, Owing, Left;
    NobodyInside(p);
    ClaimsDisjoint(p);
    AllDone(p);
    var k := CoveringChunk(p, i);
    assert !HeldBy(p, k);
    assert k in p.finished;
  }

  /** What holds at the end of a run without errors. */
  lemma AllDone(p: Pool)
    requires Inv(p) && Enabled(p, Return) && !p.error
    ensures p.grain > 0 && |p.claimed| * p.grain >= p.count
    ensures forall k :: 0 <= k < |p.claimed| && k !in p.finished ==> HeldBy(p, k)
  {
    hide HeldBy, ClaimAt, Owing, Left;
  }

  lemma CoveringChunk(p: Pool, i: nat) returns (k: nat)
    requires ClaimsInOrder(p) && i < p.count <= |p.claimed| * p.grain
    ensures Covering(p, i, k)
  {
    k := i / p.grain;
    assert i == k * p.grain + i % p.grain;
    assert (k + 1) * p.grain == k * p.grain + p.grain;
    AllClaimed(p, k);
    assert ClaimAt(p, k);
  }

  lemma AllClaimed(p: Pool, k: nat)
    requires p.grain > 0 && k * p.grain < p.count <= |p.claimed| * p.grain
    ensures k < |p.claimed|
  {
    if k >= |p.claimed| {
      MulStep(|p.claimed|, k, p.grain);
    }
  }

  /** No worker skips or repeats a generation: the one it picks up is the successor of its last one. */
  lemma NextGeneration(p: Pool, w: nat)
    requires Inv(p) && Enabled(p, Start(w))
    ensures Apply(p, Start(w)).seen[w] == p.seen[w] + 1 == p.generation
  {
  }

  /** The shared cursor passes the end by at most one grain per thread, so it cannot wrap around unless the count and
      the grains of all threads together exceed the word size. */
  lemma CursorBounded(p: Pool)
    requires Inv(p) && p.count > 0
    ensures p.next < p.count + (|p.pc| + 1) * p.grain
  {
    hide Below, ClaimsHeld;
    var n := |p.claimed|;
    SubsetSize(Left(p), Below(|p.pc|));
    assert (n + p.overshoot) * p.grain == n * p.grain + p.overshoot * p.grain;
    MulStep(p.overshoot, |p.pc| + 1, p.grain);
    if n > 0 {
      assert ClaimAt(p, n - 1);
      assert n * p.grain == (n - 1) * p.grain + p.grain;
      assert p.overshoot * p.grain + p.grain <= (|p.pc| + 1) * p.grain;
    }
  }

  /** A run after an exception starts clean. */
  lemma DispatchIsClean(p: Pool, count: nat, grain: nat)
    requires Inv(p) && Enabled(p, Dispatch(count, grain))
    ensures var p' := Apply(p, Dispatch(count, grain));
      && Inv(p') && !p'.error && p'.next == 0 && p'.claimed == [] && p'.finished == {}
      && forall t :: 0 <= t < |p'.pc| ==> p'.pc[t] == if t == 0 then Fetching else Idle
  {
    StepInv(p, Dispatch(count, grain));
    NobodyInside(p);
  }

  // ---- no deadlock, and every run ends -----------------------------------------------------------

  /** While `run` has not returned, some thread can move. */
  lemma NoDeadlock(p: Pool) returns (step: Step)
    requires Inv(p) && !p.pc[0].Idle?
    ensures Enabled(p, step) && !step.Dispatch?
  {
    if p.pc[0].Fetching? {
      step := Fetch(0);
    } else if p.pc[0].Working? {
      step := Finish(0);
    } else if p.remaining == 0 {
      step := Return;
    } else {
      var w := Pick(Owing(p));
      step := if p.pc[w].Idle? then Start(w) else if p.pc[w].Fetching? then Fetch(w)
              else if p.pc[w].Working? then Finish(w) else Done(w);
    }
  }

  ghost function Rank(p: Pool, t: nat): nat
    requires t < |p.pc| == |p.seen|
  {
    match p.pc[t]
    case Idle => if t > 0 && p.seen[t] != p.generation then 4 else 0
    case Working(_) => 3
    case Fetching => 2
    case Leaving => 1
  }

  ghost function Ranks(p: Pool, n: nat): nat
    requires n <= |p.pc| == |p.seen|
  {
    if n == 0 then 0 else Ranks(p, n - 1) + Rank(p, n - 1)
  }

  lemma {:induction false} RanksChange(p: Pool, p': Pool, t: nat, n: nat)
    requires n <= |p.pc| == |p.seen| == |p'.pc| == |p'.seen| && t < |p.pc|
    requires forall u :: 0 <= u < |p.pc| && u != t ==> Rank(p', u) == Rank(p, u)
    ensures Ranks(p', n) == Ranks(p, n) + if t < n then Rank(p', t) - Rank(p, t) else 0
  {
    if n == 0 {
    } else {
      RanksChange(p, p', t, n - 1);
    }
  }

  ghost function Unclaimed(p: Pool): nat {
    if p.next < p.count then p.count - p.next else 0
  }

  /** Every step of a run in progress takes it closer to its end: either less is unclaimed, or as much and the threads
      are further on. */
  lemma RunsEnd(p: Pool, step: Step)
    requires Inv(p) && Enabled(p, step) && !step.Dispatch?
    ensures var p' := Apply(p, step);
      && |p'.pc| == |p'.seen|
      && (Unclaimed(p') < Unclaimed(p)
          || (Unclaimed(p') == Unclaimed(p) && Ranks(p', |p'.pc|) < Ranks(p, |p.pc|)))
  {
    hide Ranks, ClaimsHeld;
    var p' := Apply(p, step);
    var t := match step
             case Start(w) => w
             case Fetch(t) => t
             case Finish(t) => t
             case Throw(t) => t
             case Done(w) => w
             case _ => 0;
    RanksChange(p, p', t, |p.pc|);
  }
}

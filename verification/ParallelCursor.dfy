/** The thread pool's cursor in machine words (src/minillm/parallel.cpp:87-96): a fetch adds the grain modulo the word
    size, and so does the end of a chunk. The pool is the one with the unbounded cursor exactly as long as no fetch that
    should find the range used up wraps back into it. */
module ParallelCursors {
  import opened Arithmetic
  import opened RefCounts
  import opened ParallelExecutors

  const WORD: nat := 0x1_0000_0000_0000_0000

  function Sum(a: nat, b: nat): nat {
    (a + b) % WORD
  }

  /** The steps of the pool, with the cursor kept in a word. */
  function WordApply(p: Pool, step: Step): Pool
    requires |p.pc| == |p.seen| > 0 && Enabled(p, step)
  {
    match step
    case Fetch(t) =>
      if p.next < p.count then
        var end := if Sum(p.next, p.grain) < p.count then Sum(p.next, p.grain) else p.count;
        p.(next := Sum(p.next, p.grain), pc := p.pc[t := Working(|p.claimed|)],
                                               claimed := p.claimed + [Chunk(p.next, end)])
      else p.(next := Sum(p.next, p.grain), pc := p.pc[t := Leaving], overshoot := p.overshoot + 1)
    case _ => Apply(p, step)
  }

  ghost predicate WordFeasible(p: Pool, steps: seq<Step>)
    decreases |steps|
  {
    steps == [] || (|p.pc| == |p.seen| > 0 && Enabled(p, steps[0]) && WordFeasible(WordApply(p, steps[0]), steps[1..]))
  }

  ghost function WordAfter(p: Pool, steps: seq<Step>): Pool
    requires WordFeasible(p, steps)
    decreases |steps|
  {
    if steps == [] then p else WordAfter(WordApply(p, steps[0]), steps[1..])
  }

  /** Chunks of a range. */
  function Chunks(count: nat, grain: nat): nat
    requires grain > 0
  {
    CeilDiv(count, grain)
  }

  /** None of the fetches that find the range used up, one for each thread, lands in it again. */
  ghost predicate Clear(count: nat, grain: nat, threads: nat) {
    0 < count < WORD && 0 < grain < WORD && forall i :: 0 <= i < threads ==> Lands(count, grain, i) >= count
  }

  /** Where the cursor stands after all chunks and `i` fetches beyond them. */
  function Lands(count: nat, grain: nat, i: nat): nat
    requires grain > 0
  {
    ((Chunks(count, grain) + i) * grain) % WORD
  }

  /** In particular, a count and grains that fit a word together are clear. */
  lemma SmallIsClear(count: nat, grain: nat, threads: nat)
    requires 0 < count && 0 < grain && threads > 0 && count + threads * grain <= WORD
    ensures Clear(count, grain, threads)
  {
    MulStep(0, threads, grain);
    CeilDivBounds(count, grain);
    var k := Chunks(count, grain);
    forall i | 0 <= i < threads ensures Lands(count, grain, i) >= count {
      assert (k + i) * grain == k * grain + i * grain;
      MulStep(i, threads, grain);
    }
  }

  // ---- the same runs ------------------------------------------------------------------------

  /** The same pool, but for the cursor. */
  ghost predicate Mirrors(p: Pool, w: Pool) {
    w == p.(next := p.next % WORD)
  }

  /** The run in progress, or the last one, is clear; before the first one nobody moves. */
  ghost predicate CountOk(p: Pool)
    requires |p.pc| == |p.seen|
  {
    if p.count == 0 then forall t :: 0 <= t < |p.pc| ==> p.pc[t].Idle? && p.seen[t] == p.generation
    else Clear(p.count, p.grain, |p.pc|)
  }

  ghost predicate StepOk(step: Step, threads: nat) {
    step.Dispatch? ==> Clear(step.count, step.grain, threads)
  }

  /** When a thread fetches, the word cursor tells the same, and a chunk ends at the same place. */
  lemma SameFetch(p: Pool, t: nat)
    requires Inv(p) && CountOk(p) && Enabled(p, Fetch(t)) && p.count > 0
    ensures p.next < p.count <==> p.next % WORD < p.count
    ensures p.next < p.count ==>
              p.next % WORD == p.next
              && (p.next + p.grain < p.count ==> Sum(p.next, p.grain) == p.next + p.grain)
              && (p.next + p.grain >= p.count ==> Sum(p.next, p.grain) >= p.count)
  {
    hide Inv, ClaimAt, ClaimsHeld, Barrier, CeilDiv;
    InvParts(p);
    var n, k := |p.claimed|, Chunks(p.count, p.grain);
    CeilDivBounds(p.count, p.grain);
    if p.next < p.count {
      NoOvershoot(p);
      assert p.next == n * p.grain;
      if p.next + p.grain >= p.count {
        assert (n + 1) * p.grain == n * p.grain + p.grain;
        LastChunk(p.count, p.grain, n);
        assert Lands(p.count, p.grain, 0) >= p.count;
        assert k + 0 == n + 1;
      }
    } else {
      AllTaken(p);
      assert n == k;
      Outside(p, t);
      assert Lands(p.count, p.grain, p.overshoot) >= p.count;
    }
  }

  lemma LastChunk(count: nat, grain: nat, n: nat)
    requires grain > 0 && n * grain < count <= n * grain + grain
    ensures Chunks(count, grain) == n + 1
  {
    CeilDivBounds(count, grain);
    var k := Chunks(count, grain);
    assert (n + 1) * grain == n * grain + grain;
    MulStep(n + 1, k, grain);
    MulStep(k, n + 1, grain);
  }

  /** Beyond the range, all its chunks have been claimed. */
  lemma AllTaken(p: Pool)
    requires Inv(p) && p.count > 0 && p.next >= p.count
    ensures |p.claimed| == Chunks(p.count, p.grain)
  {
    var n := |p.claimed|;
    if p.overshoot == 0 {
      assert p.next == n * p.grain;
    }
    assert n * p.grain >= p.count;
    assert 0 * p.grain == 0;
    assert n > 0;
    assert ClaimAt(p, n - 1);
    assert n * p.grain == (n - 1) * p.grain + p.grain;
    LastChunk(p.count, p.grain, n - 1);
  }

  /** A thread that still fetches has not left, so fewer than all have fetched in vain. */
  lemma Outside(p: Pool, t: nat)
    requires Inv(p) && Enabled(p, Fetch(t))
    ensures p.overshoot < |p.pc|
  {
    hide ClaimsInOrder, ClaimsHeld;
    SubsetSize(Left(p) + {t}, Below(|p.pc|));
  }

  lemma ModSum(a: nat, b: nat)
    ensures Sum(a % WORD, b) == (a + b) % WORD
  {
    var q := a / WORD;
    assert a == q * WORD + a % WORD;
    var r := a % WORD + b;
    assert a + b == (q + r / WORD) * WORD + r % WORD;
    DivUnique(a + b, WORD, q + r / WORD, r % WORD);
  }

  lemma SameStep(p: Pool, w: Pool, step: Step)
    requires Inv(p) && CountOk(p) && Mirrors(p, w) && StepOk(step, |p.pc|)
    ensures Enabled(w, step) <==> Enabled(p, step)
    ensures Enabled(p, step) ==>
              Mirrors(Apply(p, step), WordApply(w, step)) && |Apply(p, step).pc| == |p.pc| && CountOk(Apply(p, step))
  {
    hide Clear, ClaimsInOrder, ClaimsHeld;
    if step.Fetch? && Enabled(p, step) {
      SameFetch(p, step.t);
      ModSum(p.next, p.grain);
    }
  }

  /** A schedule whose runs are all clear is feasible for the one exactly if it is for the other, and leads to the same
      claims and the same threads in the same places. */
  lemma {:induction false} SameRun(p: Pool, w: Pool, steps: seq<Step>)
    requires Inv(p) && CountOk(p) && Mirrors(p, w)
    requires forall i :: 0 <= i < |steps| ==> StepOk(steps[i], |p.pc|)
    ensures WordFeasible(w, steps) <==> Feasible(p, steps)
    ensures Feasible(p, steps) ==> Mirrors(After(p, steps), WordAfter(w, steps))
    decreases |steps|
  {
    hide Inv, CountOk, StepOk, Mirrors, Enabled, Apply, WordApply;
    InvShape(p);
    MirrorShape(p, w);
    if steps == [] {
    } else {
      SameStep(p, w, steps[0]);
      if Enabled(p, steps[0]) {
        StepInv(p, steps[0]);
        SameRun(Apply(p, steps[0]), WordApply(w, steps[0]), steps[1..]);
      }
    }
  }

  lemma InvShape(p: Pool)
    requires Inv(p)
    ensures |p.pc| == |p.seen| > 0
  {
  }

  lemma MirrorShape(p: Pool, w: Pool)
    requires Mirrors(p, w)
    ensures |p.pc| == |w.pc| && |p.seen| == |w.seen|
  {
  }

  /** The theorem for the pool with its cursor in a word, over all interleavings of clear runs. */
  lemma WordReturnsComplete(threads: nat, steps: seq<Step>)
    requires threads > 0 && WordFeasible(Initial(threads), steps)
    requires forall i :: 0 <= i < |steps| ==> StepOk(steps[i], threads)
    ensures var p := WordAfter(Initial(threads), steps);
      && |p.pc| == |p.seen| == threads
      && (Enabled(p, Return) ==>
            && (forall w :: 0 < w < |p.pc| ==> p.pc[w].Idle? && p.seen[w] == p.generation)
            && (!p.error ==> forall i :: 0 <= i < p.count ==> ProcessedOnce(p, i)))
      && (forall j, k :: 0 <= j < k < |p.claimed| ==> p.claimed[j].end <= p.claimed[k].begin)
      && (p.count > 0 ==> p.grain > 0 && |p.claimed| <= Chunks(p.count, p.grain))
  {
    var p := Initial(threads);
    InitialInv(threads);
    SameRun(p, p, steps);
    ReturnsComplete(threads, steps);
    var q, w := After(p, steps), WordAfter(p, steps);
    SameThreads(p, steps);
    SameOutcome(q, w);
    AtMostChunks(q);
  }

  lemma {:induction false} SameThreads(p: Pool, steps: seq<Step>)
    requires Inv(p) && Feasible(p, steps)
    ensures |After(p, steps).pc| == |p.pc|
    decreases |steps|
  {
    hide Inv;
    if steps == [] {
    } else {
      StepInv(p, steps[0]);
      SameThreads(Apply(p, steps[0]), steps[1..]);
    }
  }

  /** Nothing the theorem speaks of depends on the cursor. */
  lemma SameOutcome(q: Pool, w: Pool)
    requires Mirrors(q, w) && |q.pc| == |q.seen| > 0
    ensures Enabled(w, Return) <==> Enabled(q, Return)
    ensures forall i :: ProcessedOnce(q, i) ==> ProcessedOnce(w, i)
  {
    forall i | ProcessedOnce(q, i) ensures ProcessedOnce(w, i) {
      var k :| Covering(q, i, k) && k in q.finished && forall j :: Covering(q, i, j) ==> j == k;
      assert Covering(w, i, k);
      forall j | Covering(w, i, j) ensures j == k {
        assert Covering(q, i, j);
      }
    }
  }

  lemma AtMostChunks(p: Pool)
    requires Inv(p)
    ensures p.count > 0 ==> |p.claimed| <= Chunks(p.count, p.grain)
  {
    var n := |p.claimed|;
    if p.count > 0 && n > 0 {
      assert ClaimAt(p, n - 1);
      CeilDivBounds(p.count, p.grain);
      MulStep(Chunks(p.count, p.grain), n - 1, p.grain);
      assert (n - 1) * p.grain < p.count <= Chunks(p.count, p.grain) * p.grain;
      if Chunks(p.count, p.grain) == n - 1 {
        assert false;
      }
    }
  }

  // ---- a run that is not clear ------------------------------------------------------------------

  /** The schedule goes wrong: more chunks have been claimed than the range has. */
  ghost predicate GoesWrong(w: Pool, steps: seq<Step>) {
    && WordFeasible(w, steps)
    && (forall i :: 0 <= i < |steps| ==> !steps[i].Dispatch? && !steps[i].Throw?)
    && var p := WordAfter(w, steps);
       p.count == w.count && p.grain == w.grain > 0 && |p.claimed| > Chunks(w.count, w.grain)
  }

  lemma Prepend(w: Pool, step: Step, rest: seq<Step>)
    requires |w.pc| == |w.seen| > 0 && Enabled(w, step) && !step.Dispatch? && !step.Throw?
             && GoesWrong(WordApply(w, step), rest)
    ensures GoesWrong(w, [step] + rest)
  {
    var all := [step] + rest;
    assert all[0] == step && all[1..] == rest;
    forall i | 0 <= i < |all| ensures !all[i].Dispatch? && !all[i].Throw? {
      assert i > 0 ==> all[i] == rest[i - 1];
    }
  }

  lemma Wrong(w: Pool)
    requires w.grain > 0 && |w.claimed| > Chunks(w.count, w.grain)
    ensures GoesWrong(w, [])
  {
  }

  /** The caller alone claims chunk after chunk. */
  ghost predicate Alone(w: Pool, n: nat, first: nat) {
    && |w.pc| == |w.seen| > first && 0 < w.count < WORD && 0 < w.grain < WORD
    && w.pc[0] == Fetching && |w.claimed| == n <= Chunks(w.count, w.grain) && w.next == (n * w.grain) % WORD
    && (forall t :: 0 < t < |w.pc| ==> w.pc[t].Idle? && w.seen[t] != w.generation)
    && (forall i :: 0 <= i < first ==> Lands(w.count, w.grain, i) >= w.count)
    && Lands(w.count, w.grain, first) < w.count
  }

  lemma {:induction false} ClaimOn(w: Pool, n: nat, first: nat) returns (steps: seq<Step>)
    requires Alone(w, n, first)
    ensures GoesWrong(w, steps)
    decreases Chunks(w.count, w.grain) - n
  {
    hide GoesWrong;
    var k := Chunks(w.count, w.grain);
    ModSum(n * w.grain, w.grain);
    assert (n + 1) * w.grain == n * w.grain + w.grain;
    var w1 := WordApply(w, Fetch(0));
    if n < k {
      BelowEnd(w.count, w.grain, n);
      assert w.next < w.count;
      var w2 := WordApply(w1, Finish(0));
      var rest := ClaimOn(w2, n + 1, first);
      Prepend(w1, Finish(0), rest);
      steps := [Fetch(0)] + ([Finish(0)] + rest);
      Prepend(w, Fetch(0), [Finish(0)] + rest);
    } else {
      assert Lands(w.count, w.grain, 0) == w.next;
      var rest;
      if first == 0 {
        rest := [];
        Wrong(w1);
      } else {
        rest := FetchOn(w1, 1, first);
      }
      steps := [Fetch(0)] + rest;
      Prepend(w, Fetch(0), rest);
    }
  }

  lemma BelowEnd(count: nat, grain: nat, n: nat)
    requires grain > 0 && n < Chunks(count, grain) && count < WORD
    ensures n * grain < count && (n * grain) % WORD == n * grain
  {
    CeilDivBounds(count, grain);
    MulStep(n, Chunks(count, grain), grain);
  }

  /** With all chunks claimed, workers fetch in vain one after the other, until one is led back into the range. */
  ghost predicate InVain(w: Pool, t: nat, first: nat) {
    && |w.pc| == |w.seen| > first && 0 < t <= first && 0 < w.count < WORD && 0 < w.grain < WORD
    && |w.claimed| == Chunks(w.count, w.grain) && w.next == Lands(w.count, w.grain, t)
    && (forall u :: t <= u < |w.pc| ==> w.pc[u].Idle? && w.seen[u] != w.generation)
    && (forall i :: 0 <= i < first ==> Lands(w.count, w.grain, i) >= w.count)
    && Lands(w.count, w.grain, first) < w.count
  }

  lemma VainStep(w: Pool, t: nat, first: nat)
    requires InVain(w, t, first)
    ensures |w.pc| == |w.seen| > 0 && t <= first && Enabled(w, Start(t))
    ensures var w1 := WordApply(w, Start(t));
      && |w1.pc| == |w1.seen| > 0 && Enabled(w1, Fetch(t))
      && var w2 := WordApply(w1, Fetch(t));
         && w2.grain == w.grain > 0 && w2.count == w.count
         && (t < first ==> InVain(w2, t + 1, first))
         && (t == first ==> |w2.claimed| > Chunks(w.count, w.grain))
  {
    hide Chunks;
    var k := Chunks(w.count, w.grain);
    ModSum((k + t) * w.grain, w.grain);
    assert (k + (t + 1)) * w.grain == (k + t) * w.grain + w.grain;
  }

  lemma {:induction false} FetchOn(w: Pool, t: nat, first: nat) returns (steps: seq<Step>)
    requires InVain(w, t, first)
    ensures GoesWrong(w, steps)
    decreases first - t
  {
    hide GoesWrong, Chunks, InVain, WordApply, Enabled;
    VainStep(w, t, first);
    var w1 := WordApply(w, Start(t));
    var w2 := WordApply(w1, Fetch(t));
    var rest;
    if t == first {
      rest := [];
      Wrong(w2);
    } else {
      rest := FetchOn(w2, t + 1, first);
    }
    Prepend(w1, Fetch(t), rest);
    steps := [Start(t)] + ([Fetch(t)] + rest);
    Prepend(w, Start(t), [Fetch(t)] + rest);
  }

  /** A run that is not clear can claim a part of its range twice. */
  lemma WrapsBack(threads: nat, count: nat, grain: nat) returns (steps: seq<Step>)
    requires threads > 0 && 0 < count < WORD && 0 < grain < WORD && !Clear(count, grain, threads)
    ensures GoesWrong(Apply(Initial(threads), Dispatch(count, grain)), steps)
  {
    var first := Least(count, grain, threads);
    assert 0 * grain == 0;
    steps := ClaimOn(Apply(Initial(threads), Dispatch(count, grain)), 0, first);
  }

  lemma {:induction false} Least(count: nat, grain: nat, threads: nat) returns (first: nat)
    requires 0 < count < WORD && 0 < grain < WORD && !Clear(count, grain, threads)
    ensures first < threads && Lands(count, grain, first) < count
    ensures forall i :: 0 <= i < first ==> Lands(count, grain, i) >= count
  {
    first := 0;
    while Lands(count, grain, first) >= count
      invariant first < threads && forall i :: 0 <= i < first ==> Lands(count, grain, i) >= count
      decreases threads - first
    {
      assert exists i :: 0 <= i < threads && Lands(count, grain, i) < count;
      first := first + 1;
    }
  }

  /** Exactly the clear runs never claim more chunks than their range has. */
  lemma ClearIsExact(threads: nat, count: nat, grain: nat)
    requires threads > 0 && 0 < count < WORD && 0 < grain < WORD
    ensures Clear(count, grain, threads) <==>
            forall steps :: !GoesWrong(Apply(Initial(threads), Dispatch(count, grain)), steps)
  {
    var w := Apply(Initial(threads), Dispatch(count, grain));
    if Clear(count, grain, threads) {
      forall steps ensures !GoesWrong(w, steps) {
        if GoesWrong(w, steps) {
          Prefixed(threads, count, grain, steps);
          WordReturnsComplete(threads, [Dispatch(count, grain)] + steps);
        }
      }
    } else {
      var steps := WrapsBack(threads, count, grain);
    }
  }

  lemma Prefixed(threads: nat, count: nat, grain: nat, steps: seq<Step>)
    requires threads > 0 && count > 0 && grain > 0 && Clear(count, grain, threads)
    requires GoesWrong(Apply(Initial(threads), Dispatch(count, grain)), steps)
    ensures var all := [Dispatch(count, grain)] + steps;
      && WordFeasible(Initial(threads), all) && (forall i :: 0 <= i < |all| ==> StepOk(all[i], threads))
      && var p := WordAfter(Initial(threads), all);
         p.count == count && p.grain == grain && |p.claimed| > Chunks(count, grain)
  {
    var all := [Dispatch(count, grain)] + steps;
    assert all[0] == Dispatch(count, grain) && all[1..] == steps;
    forall i | 0 <= i < |all| ensures StepOk(all[i], threads) {
      assert i > 0 ==> all[i] == steps[i - 1];
    }
  }

  /** For example: three threads, a single index, and a grain of half the word size. The third thread claims the same
      chunk again. */
  lemma HalfWordGrain()
    ensures !Clear(1, WORD / 2, 3)
    ensures var steps := [Dispatch(1, WORD / 2), Fetch(0), Start(1), Fetch(1), Start(2), Fetch(2)];
      && WordFeasible(Initial(3), steps)
      && WordAfter(Initial(3), steps).claimed == [Chunk(0, 1), Chunk(0, 1)]
  {
    assert Lands(1, WORD / 2, 1) == 0;
    var p0 := Initial(3);
    var p1 := WordApply(p0, Dispatch(1, WORD / 2));
    var p2 := WordApply(p1, Fetch(0));
    var p3 := WordApply(p2, Start(1));
    var p4 := WordApply(p3, Fetch(1));
    var p5 := WordApply(p4, Start(2));
    var p6 := WordApply(p5, Fetch(2));
    assert p6.claimed == [Chunk(0, 1), Chunk(0, 1)];
    Then(p5, Fetch(2), []);
    Then(p4, Start(2), [Fetch(2)]);
    Then(p3, Fetch(1), [Start(2), Fetch(2)]);
    Then(p2, Start(1), [Fetch(1), Start(2), Fetch(2)]);
    Then(p1, Fetch(0), [Start(1), Fetch(1), Start(2), Fetch(2)]);
    Then(p0, Dispatch(1, WORD / 2), [Fetch(0), Start(1), Fetch(1), Start(2), Fetch(2)]);
    assert [Dispatch(1, WORD / 2)] + [Fetch(0), Start(1), Fetch(1), Start(2), Fetch(2)]
        == [Dispatch(1, WORD / 2), Fetch(0), Start(1), Fetch(1), Start(2), Fetch(2)];
  }

  lemma Then(p: Pool, step: Step, rest: seq<Step>)
    requires |p.pc| == |p.seen| > 0 && Enabled(p, step) && WordFeasible(WordApply(p, step), rest)
    ensures WordFeasible(p, [step] + rest) && WordAfter(p, [step] + rest) == WordAfter(WordApply(p, step), rest)
  {
    var all := [step] + rest;
    assert all[0] == step && all[1..] == rest;
  }
}

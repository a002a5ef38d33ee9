/** The contract between the serving engine and a model runner: token histories per slot, the credit blocks reserved
    for them, and the steps the engine takes on both. */
module Credits {
  import opened Arithmetic
  import opened Outcomes
  import opened RefCounts
  import opened Batches

  datatype View = View(histories: Histories, blocks: seq<seq<nat>>)

  datatype Capacity = Capacity(blockSize: nat, blocks: nat, vocabulary: nat, maxModelLen: nat, batchTokens: nat)

  datatype Step =
    /** A request ends or a cache entry is evicted. */
    | Release(slot: nat)
    /** An admission, or the snapshot of a prompt into the cache: a reused prefix of another slot, and fresh credits. */
    | Adopt(slot: nat, source: Option<nat>, tokens: nat, granted: seq<nat>)
    /** One batch. */
    | Feed(batch: seq<InputToken>)

  ghost predicate Unheld(blocks: seq<seq<nat>>, b: nat) {
    forall s :: 0 <= s < |blocks| ==> b !in blocks[s]
  }

  ghost predicate Legal(v: View, c: Capacity, step: Step)
    requires c.blockSize > 0
  {
    && |v.histories| == |v.blocks|
    && match step
       case Release(slot) => slot < |v.blocks|
       case Adopt(slot, source, tokens, granted) =>
         && slot < |v.blocks| && v.blocks[slot] == [] && v.histories[slot] == []
         && Distinct(granted) && Within(granted, c.blocks)
         && (forall i :: 0 <= i < |granted| ==> Unheld(v.blocks, granted[i]))
         && tokens % c.blockSize == 0
         && (match source
             case None => tokens == 0
             case Some(r) => r < |v.blocks| && r != slot && tokens <= |v.histories[r]|
                             && tokens / c.blockSize <= |v.blocks[r]|)
       case Feed(batch) =>
         && 0 < |batch| <= c.batchTokens
         && WellFormed(Lengths(v.histories), batch, c.vocabulary, c.maxModelLen)
         && forall s :: 0 <= s < |v.blocks| ==> |HistoriesAfter(v.histories, batch)[s]| <= |v.blocks[s]| * c.blockSize
  }

  ghost function Apply(v: View, c: Capacity, step: Step): View
    requires c.blockSize > 0 && Legal(v, c, step)
  {
    match step
    case Release(slot) => View(v.histories[slot := []], v.blocks[slot := []])
    case Adopt(slot, source, tokens, granted) =>
      var reused := if source.Some? then v.histories[source.value][..tokens] else [];
      var held := if source.Some? then v.blocks[source.value][..tokens / c.blockSize] else [];
      View(v.histories[slot := reused], v.blocks[slot := held + granted])
    case Feed(batch) => v.(histories := HistoriesAfter(v.histories, batch))
  }

  /** A run of legal steps and where it leads. */
  ghost predicate LegalRun(v: View, c: Capacity, steps: seq<Step>)
    requires c.blockSize > 0
    decreases |steps|
  {
    steps == [] || (Legal(v, c, steps[0]) && LegalRun(Apply(v, c, steps[0]), c, steps[1..]))
  }

  ghost function Replay(v: View, c: Capacity, steps: seq<Step>): View
    requires c.blockSize > 0 && LegalRun(v, c, steps)
    decreases |steps|
  {
    if steps == [] then v else Replay(Apply(v, c, steps[0]), c, steps[1..])
  }

  lemma {:induction false} RunExtends(v: View, c: Capacity, steps: seq<Step>, step: Step)
    requires c.blockSize > 0 && LegalRun(v, c, steps) && Legal(Replay(v, c, steps), c, step)
    ensures LegalRun(v, c, steps + [step]) && Replay(v, c, steps + [step]) == Apply(Replay(v, c, steps), c, step)
    decreases |steps|
  {
    if steps == [] {
      assert [step][1..] == [];
      assert steps + [step] == [step];
      var v1 := Apply(v, c, step);
      assert LegalRun(v1, c, []) && Replay(v1, c, []) == v1;
    } else {
      assert (steps + [step])[0] == steps[0] && (steps + [step])[1..] == steps[1..] + [step];
      RunExtends(Apply(v, c, steps[0]), c, steps[1..], step);
    }
  }

  ghost function EmptyView(slots: nat): View {
    View(seq(slots, _ => []), seq(slots, _ => []))
  }

  // ---- what every legal run keeps ------------------------------------------------

  /** Blocks are shared at equal positions only, and only where both histories fill them, with the same tokens. */
  ghost predicate SharedFull(v: View, bs: nat, s: nat, i: nat, t: nat, j: nat)
    requires |v.histories| == |v.blocks| && s < |v.blocks| && t < |v.blocks| && i < |v.blocks[s]| && j < |v.blocks[t]|
  {
    s != t && v.blocks[s][i] == v.blocks[t][j] ==>
      && i == j
      && (i + 1) * bs <= |v.histories[s]| && (i + 1) * bs <= |v.histories[t]|
      && v.histories[s][..(i + 1) * bs] == v.histories[t][..(i + 1) * bs]
  }

  ghost predicate SlotOk(v: View, c: Capacity, s: nat)
    requires |v.histories| == |v.blocks| && s < |v.blocks|
  {
    && Distinct(v.blocks[s]) && Within(v.blocks[s], c.blocks)
    && |v.histories[s]| <= |v.blocks[s]| * c.blockSize
  }

  ghost predicate Sound(v: View, c: Capacity) {
    && c.blockSize > 0
    && |v.histories| == |v.blocks|
    && (forall s :: 0 <= s < |v.blocks| ==> SlotOk(v, c, s))
    && (forall s, t, i, j :: 0 <= s < |v.blocks| && 0 <= t < |v.blocks| && 0 <= i < |v.blocks[s]|
                             && 0 <= j < |v.blocks[t]| ==>
          SharedFull(v, c.blockSize, s, i, t, j))
  }

  lemma EmptySound(c: Capacity, slots: nat)
    requires c.blockSize > 0
    ensures Sound(EmptyView(slots), c)
  {
  }

  lemma ReleaseSound(v: View, c: Capacity, slot: nat)
    requires Sound(v, c) && Legal(v, c, Release(slot))
    ensures Sound(Apply(v, c, Release(slot)), c)
  {
    var v' := Apply(v, c, Release(slot));
    forall s | 0 <= s < |v'.blocks| ensures SlotOk(v', c, s) {
      assert SlotOk(v, c, s);
    }
    forall s, t, i, j | 0 <= s < |v'.blocks| && 0 <= t < |v'.blocks| && 0 <= i < |v'.blocks[s]|
           && 0 <= j < |v'.blocks[t]|
      ensures SharedFull(v', c.blockSize, s, i, t, j)
    {
      assert SharedFull(v, c.blockSize, s, i, t, j);
    }
  }

  lemma AdoptedTable(v: View, c: Capacity, slot: nat, source: Option<nat>, tokens: nat, granted: seq<nat>)
    requires Sound(v, c) && Legal(v, c, Adopt(slot, source, tokens, granted))
    ensures var v' := Apply(v, c, Adopt(slot, source, tokens, granted));
      && SlotOk(v', c, slot) && |v'.histories[slot]| == tokens
      && forall i :: 0 <= i < |v'.blocks[slot]| ==>
           if i < tokens / c.blockSize then source.Some? && v'.blocks[slot][i] == v.blocks[source.value][i]
           else v'.blocks[slot][i] == granted[i - tokens / c.blockSize]
  {
    var v' := Apply(v, c, Adopt(slot, source, tokens, granted));
    var n := tokens / c.blockSize;
    assert tokens == n * c.blockSize;
    CeilDivExact(0, c.blockSize);
    var held: seq<nat> := if source.Some? then v.blocks[source.value][..n] else [];
    assert |held| == n;
    if source.Some? {
      assert SlotOk(v, c, source.value);
      forall i | 0 <= i < |granted| ensures granted[i] !in held {
        assert Unheld(v.blocks, granted[i]);
      }
    }
    JoinTables(held, granted, c.blocks);
    MulStep(n, |held + granted|, c.blockSize);
  }

  lemma JoinTables(held: seq<nat>, granted: seq<nat>, bound: nat)
    requires Distinct(held) && Within(held, bound) && Distinct(granted) && Within(granted, bound)
    requires forall i :: 0 <= i < |granted| ==> granted[i] !in held
    ensures Distinct(held + granted) && Within(held + granted, bound)
  {
  }

  lemma AdoptShares(v: View, c: Capacity, slot: nat, source: Option<nat>, tokens: nat, granted: seq<nat>, i: nat,
                    t: nat, j: nat)
    requires Sound(v, c) && Legal(v, c, Adopt(slot, source, tokens, granted)) && t < |v.blocks| && t != slot
    requires var v' := Apply(v, c, Adopt(slot, source, tokens, granted));
      i < |v'.blocks[slot]| && j < |v'.blocks[t]|
    ensures var v' := Apply(v, c, Adopt(slot, source, tokens, granted));
      SharedFull(v', c.blockSize, slot, i, t, j) && SharedFull(v', c.blockSize, t, j, slot, i)
  {
    var v' := Apply(v, c, Adopt(slot, source, tokens, granted));
    var n := tokens / c.blockSize;
    assert tokens == n * c.blockSize;
    AdoptedTable(v, c, slot, source, tokens, granted);
    assert i >= n ==> Unheld(v.blocks, granted[i - n]);
    if v'.blocks[slot][i] == v'.blocks[t][j] {
      if i < n {
        var r := source.value;
        assert SlotOk(v, c, r);
        MulStep(i, n, c.blockSize);
        assert (i + 1) * c.blockSize == i * c.blockSize + c.blockSize;
        if r != t {
          assert SharedFull(v, c.blockSize, r, i, t, j);
        } else {
          assert i == j;
        }
        var m := (i + 1) * c.blockSize;
        assert v'.histories[slot][..m] == v.histories[r][..tokens][..m] == v.histories[r][..m];
      }
    }
  }

  lemma AdoptSound(v: View, c: Capacity, slot: nat, source: Option<nat>, tokens: nat, granted: seq<nat>)
    requires Sound(v, c) && Legal(v, c, Adopt(slot, source, tokens, granted))
    ensures Sound(Apply(v, c, Adopt(slot, source, tokens, granted)), c)
  {
    var v' := Apply(v, c, Adopt(slot, source, tokens, granted));
    AdoptedTable(v, c, slot, source, tokens, granted);
    forall s | 0 <= s < |v'.blocks| ensures SlotOk(v', c, s) {
      if s != slot {
        assert SlotOk(v, c, s);
      }
    }
    forall s, t, i, j | 0 <= s < |v'.blocks| && 0 <= t < |v'.blocks| && 0 <= i < |v'.blocks[s]|
           && 0 <= j < |v'.blocks[t]|
      ensures SharedFull(v', c.blockSize, s, i, t, j)
    {
      if s == slot && t != slot {
        AdoptShares(v, c, slot, source, tokens, granted, i, t, j);
      } else if t == slot && s != slot {
        AdoptShares(v, c, slot, source, tokens, granted, j, s, i);
      } else if s != slot && t != slot {
        assert SharedFull(v, c.blockSize, s, i, t, j);
      }
    }
  }

  /** Growing histories within their credits. */
  lemma GrowSound(v: View, c: Capacity, h: Histories)
    requires Sound(v, c) && |h| == |v.histories|
    requires forall s :: 0 <= s < |h| ==> v.histories[s] <= h[s] && |h[s]| <= |v.blocks[s]| * c.blockSize
    ensures Sound(View(h, v.blocks), c)
  {
    var v' := View(h, v.blocks);
    forall s | 0 <= s < |v'.blocks| ensures SlotOk(v', c, s) {
      assert SlotOk(v, c, s);
    }
    forall s, t, i, j | 0 <= s < |v'.blocks| && 0 <= t < |v'.blocks| && 0 <= i < |v'.blocks[s]|
           && 0 <= j < |v'.blocks[t]|
      ensures SharedFull(v', c.blockSize, s, i, t, j)
    {
      assert SharedFull(v, c.blockSize, s, i, t, j);
      if s != t && v.blocks[s][i] == v.blocks[t][j] {
        var m := (i + 1) * c.blockSize;
        assert h[s][..m] == v.histories[s][..m] && h[t][..m] == v.histories[t][..m];
      }
    }
  }

  lemma FeedSound(v: View, c: Capacity, batch: seq<InputToken>)
    requires Sound(v, c) && Legal(v, c, Feed(batch))
    ensures Sound(Apply(v, c, Feed(batch)), c)
  {
    assert batch[..0] == [];
    forall s | 0 <= s < |v.blocks| ensures v.histories[s] <= HistoriesAfter(v.histories, batch)[s] {
      HistoriesGrow(v.histories, batch, 0, s);
    }
    GrowSound(v, c, HistoriesAfter(v.histories, batch));
  }

  /** Two slots that hold the same credit block hold it for the same full block of the same tokens, in every reachable
      view. */
  lemma StepSound(v: View, c: Capacity, step: Step)
    requires Sound(v, c) && Legal(v, c, step)
    ensures Sound(Apply(v, c, step), c)
  {
    match step
    case Release(slot) => ReleaseSound(v, c, slot);
    case Adopt(slot, source, tokens, granted) => AdoptSound(v, c, slot, source, tokens, granted);
    case Feed(batch) => FeedSound(v, c, batch);
  }

  lemma {:induction false} RunSound(v: View, c: Capacity, steps: seq<Step>)
    requires Sound(v, c) && LegalRun(v, c, steps)
    ensures Sound(Replay(v, c, steps), c)
    decreases |steps|
  {
    if steps == [] {
    } else {
      StepSound(v, c, steps[0]);
      RunSound(Apply(v, c, steps[0]), c, steps[1..]);
    }
  }

  // ---- runs without sharing --------------------------------------------------------------

  ghost predicate Plain(step: Step) {
    step.Adopt? ==> step.source.None?
  }

  ghost predicate NoShares(steps: seq<Step>) {
    forall i :: 0 <= i < |steps| ==> Plain(steps[i])
  }

  /** No block is held twice. */
  ghost predicate Exclusive(v: View) {
    forall s, t, i, j :: 0 <= s < |v.blocks| && 0 <= t < |v.blocks| && 0 <= i < |v.blocks[s]| && 0 <= j < |v.blocks[t]|
                         && s != t ==>
      v.blocks[s][i] != v.blocks[t][j]
  }

  lemma StepExclusive(v: View, c: Capacity, step: Step)
    requires c.blockSize > 0 && Legal(v, c, step) && Exclusive(v) && Plain(step)
    ensures Exclusive(Apply(v, c, step))
  {
    var v' := Apply(v, c, step);
    if step.Adopt? {
      var granted, slot := step.granted, step.slot;
      assert v'.blocks[slot] == granted;
      forall i | 0 <= i < |granted| ensures Unheld(v.blocks, granted[i]) {
      }
    }
  }

  /** Without a prefix cache nothing is ever shared. */
  lemma {:induction false} RunExclusive(v: View, c: Capacity, steps: seq<Step>)
    requires c.blockSize > 0 && LegalRun(v, c, steps) && Exclusive(v) && NoShares(steps)
    ensures Exclusive(Replay(v, c, steps))
    decreases |steps|
  {
    if steps == [] {
    } else {
      StepExclusive(v, c, steps[0]);
      RunExclusive(Apply(v, c, steps[0]), c, steps[1..]);
    }
  }
}

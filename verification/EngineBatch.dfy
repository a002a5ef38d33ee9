/** One iteration's batch (src/engine.cpp:427-441): which tokens each slice feeds, and what they make of the
    histories. */
module EngineBatches {
  import opened Arithmetic
  import opened Requests
  import opened Batches
  import opened EngineState
  import opened Scheduling

  predicate SliceOk(active: seq<Item>, s: Slice) {
    && s.key < |active| && !active[s.key].done
    && var it := active[s.key];
       if s.prefill then 0 < s.tokens <= |it.request.prompt| - it.processed
       else s.tokens == 1 && it.processed == |it.request.prompt| && it.generated > 0
  }

  function Served(active: seq<Item>, s: Slice): Item
    requires SliceOk(active, s)
  {
    active[s.key]
  }

  ghost predicate SlicesOk(active: seq<Item>, slices: seq<Slice>) {
    && (forall i :: 0 <= i < |slices| ==> SliceOk(active, slices[i]))
    && forall i, j :: 0 <= i < j < |slices| ==> slices[i].key != slices[j].key
  }

  function SliceTokens(it: Item, s: Slice): (r: seq<InputToken>)
    requires if s.prefill then s.tokens <= |it.request.prompt| - it.processed else it.generated > 0
    ensures |r| == if s.prefill then s.tokens else 1
  {
    if s.prefill then
      seq(s.tokens, j requires 0 <= j < s.tokens =>
        InputToken(it.request.prompt[it.processed + j], it.processed + j, it.sequence,
                   it.processed + j + 1 == |it.request.prompt|))
    else [InputToken(it.lastToken, |it.request.prompt| + it.generated - 1, it.sequence, true)]
  }

  /** The tokens a slice appends to its sequence. */
  ghost function FedTokens(it: Item, s: Slice): seq<int>
    requires s.prefill ==> s.tokens <= |it.request.prompt| - it.processed
  {
    if s.prefill then it.request.prompt[it.processed..it.processed + s.tokens] else [it.lastToken]
  }

  ghost function BatchOf(active: seq<Item>, slices: seq<Slice>): seq<InputToken>
    requires forall i :: 0 <= i < |slices| ==> SliceOk(active, slices[i])
  {
    if slices == [] then []
    else
      var last := slices[|slices| - 1];
      BatchOf(active, slices[..|slices| - 1]) + SliceTokens(Served(active, last), last)
  }

  /** A slice whose last token asks for logits. */
  predicate Completes(active: seq<Item>, s: Slice)
    requires SliceOk(active, s)
  {
    s.prefill ==> active[s.key].processed + s.tokens == |active[s.key].request.prompt|
  }

  // ---- feeding a run of consecutive tokens of one sequence -----------------------------

  ghost predicate RunOk(run: seq<InputToken>, vals: seq<int>, s: nat, start: nat, vocabulary: nat, maxPosition: nat) {
    && |run| == |vals| && start + |run| <= maxPosition
    && forall j :: 0 <= j < |run| ==>
         && run[j].token == vals[j] && run[j].position == start + j && run[j].sequence == s
         && 0 <= vals[j] < vocabulary
  }

  lemma {:induction false} FeedRun(h: Histories, a: seq<InputToken>, run: seq<InputToken>, vals: seq<int>, s: nat,
                                   vocabulary: nat, maxPosition: nat)
    requires WellFormed(Lengths(h), a, vocabulary, maxPosition) && s < |h|
    requires RunOk(run, vals, s, |HistoriesAfter(h, a)[s]|, vocabulary, maxPosition)
    ensures WellFormed(Lengths(h), a + run, vocabulary, maxPosition)
    ensures HistoriesAfter(h, a + run) == HistoriesAfter(h, a)[s := HistoriesAfter(h, a)[s] + vals]
    decreases |run|
  {
    assert |vals| == |run|;
    hide *;
    if run == [] {
      assert a + run == a;
      var before := HistoriesAfter(h, a);
      assert before[s] + vals == before[s];
      assert before[s := before[s]] == before;
    } else {
      var n := |run| - 1;
      var start := |HistoriesAfter(h, a)[s]|;
      RunParts(run, vals, s, start, vocabulary, maxPosition);
      FeedRun(h, a, run[..n], vals[..n], s, vocabulary, maxPosition);
      var b := a + run[..n];
      var before, mid := HistoriesAfter(h, a), HistoriesAfter(h, b);
      Appended(before, s, vals[..n], mid);
      FeedLast(h, b, run[n], vocabulary, maxPosition);
      Joined(before, s, vals, n);
      SplitLast(a, run);
    }
  }

  lemma SplitLast<T>(a: seq<T>, run: seq<T>)
    requires run != []
    ensures a + run == a + run[..|run| - 1] + [run[|run| - 1]]
  {
    assert run == run[..|run| - 1] + [run[|run| - 1]];
  }

  lemma RunParts(run: seq<InputToken>, vals: seq<int>, s: nat, start: nat, vocabulary: nat, maxPosition: nat)
    requires run != [] && RunOk(run, vals, s, start, vocabulary, maxPosition)
    ensures var n := |run| - 1;
      && |vals| == |run| && RunOk(run[..n], vals[..n], s, start, vocabulary, maxPosition)
      && run[n].token == vals[n] && run[n].position == start + n && run[n].sequence == s
      && 0 <= vals[n] < vocabulary && start + n < maxPosition
  {
  }

  lemma Appended(before: Histories, s: nat, vals: seq<int>, mid: Histories)
    requires s < |before| && mid == before[s := before[s] + vals]
    ensures |mid| == |before| && mid[s] == before[s] + vals && |mid[s]| == |before[s]| + |vals|
  {
  }

  lemma Joined(before: Histories, s: nat, vals: seq<int>, n: nat)
    requires s < |before| && n + 1 == |vals|
    ensures var mid := before[s := before[s] + vals[..n]];
      mid[s := mid[s] + [vals[n]]] == before[s := before[s] + vals]
  {
    assert vals == vals[..n] + [vals[n]];
    assert before[s] + vals[..n] + [vals[n]] == before[s] + vals;
  }

  lemma FeedLast(h: Histories, b: seq<InputToken>, t: InputToken, vocabulary: nat, maxPosition: nat)
    requires WellFormed(Lengths(h), b, vocabulary, maxPosition)
    requires 0 <= t.sequence < |h| && 0 <= t.token < vocabulary
    requires t.position == |HistoriesAfter(h, b)[t.sequence]| < maxPosition
    ensures WellFormed(Lengths(h), b + [t], vocabulary, maxPosition)
    ensures HistoriesAfter(h, b + [t])
              == HistoriesAfter(h, b)[t.sequence := HistoriesAfter(h, b)[t.sequence] + [t.token]]
  {
    var all := b + [t];
    assert all[..|b|] == b;
    LengthsOfHistories(h, b);
    assert LengthsAfter(Lengths(h), b)[t.sequence] == |HistoriesAfter(h, b)[t.sequence]|;
    forall i | 0 <= i < |all| ensures TokenFits(LengthsAfter(Lengths(h), all[..i]), all[i], vocabulary, maxPosition) {
      if i < |b| {
        assert all[..i] == b[..i];
      }
    }
  }

  // ---- the whole batch -----------------------------------------------------------------

  /** What the histories must be like for a slice to continue its sequence. */
  ghost predicate Continues(it: Item, s: Slice, h: Histories, vocabulary: nat, maxPosition: nat)
    requires s.prefill ==> s.tokens <= |it.request.prompt| - it.processed
  {
    && it.sequence < |h|
    && |h[it.sequence]| == (if s.prefill then it.processed else |it.request.prompt| + it.generated - 1)
    && |h[it.sequence]| + |FedTokens(it, s)| <= maxPosition
    && forall j :: 0 <= j < |FedTokens(it, s)| ==> 0 <= FedTokens(it, s)[j] < vocabulary
  }

  ghost predicate FedAs(active: seq<Item>, slices: seq<Slice>, h: Histories, after: Histories)
    requires forall i :: 0 <= i < |slices| ==> SliceOk(active, slices[i])
  {
    && |after| == |h|
    && (forall i :: 0 <= i < |slices| && Served(active, slices[i]).sequence < |h| ==>
          after[Served(active, slices[i]).sequence]
            == h[Served(active, slices[i]).sequence] + FedTokens(Served(active, slices[i]), slices[i]))
    && forall s :: 0 <= s < |h| && (forall i :: 0 <= i < |slices| ==> Served(active, slices[i]).sequence != s) ==>
         after[s] == h[s]
  }

  lemma {:induction false} BatchFeeds(active: seq<Item>, slices: seq<Slice>, h: Histories, vocabulary: nat,
                                      maxPosition: nat)
    requires SlicesOk(active, slices)
    requires forall i, j :: 0 <= i < j < |active| ==> Apart(active, i, j)
    requires forall i :: 0 <= i < |slices| ==>
               Continues(Served(active, slices[i]), slices[i], h, vocabulary, maxPosition)
    ensures WellFormed(Lengths(h), BatchOf(active, slices), vocabulary, maxPosition)
    ensures FedAs(active, slices, h, HistoriesAfter(h, BatchOf(active, slices)))
    decreases |slices|
  {
    if slices == [] {
    } else {
      var n := |slices| - 1;
      var rest, last := slices[..n], slices[n];
      BatchFeeds(active, rest, h, vocabulary, maxPosition);
      var it := active[last.key];
      var a := BatchOf(active, rest);
      var mid := HistoriesAfter(h, a);
      forall i | 0 <= i < n ensures Served(active, rest[i]).sequence != it.sequence {
        DistinctSlots(active, slices, i, n);
      }
      assert mid[it.sequence] == h[it.sequence];
      assert Continues(it, last, h, vocabulary, maxPosition);
      SliceRun(it, last, |h[it.sequence]|, vocabulary, maxPosition);
      FeedRun(h, a, SliceTokens(it, last), FedTokens(it, last), it.sequence, vocabulary, maxPosition);
      FedSnoc(active, slices, h, mid, HistoriesAfter(h, BatchOf(active, slices)));
    }
  }

  lemma DistinctSlots(active: seq<Item>, slices: seq<Slice>, i: nat, j: nat)
    requires SlicesOk(active, slices) && i < |slices| && j < |slices| && i != j
    requires forall k, l :: 0 <= k < l < |active| ==> Apart(active, k, l)
    ensures Served(active, slices[i]).sequence != Served(active, slices[j]).sequence
  {
    var k, l := slices[i].key, slices[j].key;
    assert SliceOk(active, slices[i]) && SliceOk(active, slices[j]);
    assert if k < l then Apart(active, k, l) else Apart(active, l, k);
  }

  lemma SliceRun(it: Item, s: Slice, start: nat, vocabulary: nat, maxPosition: nat)
    requires if s.prefill then s.tokens <= |it.request.prompt| - it.processed else it.generated > 0
    requires start == (if s.prefill then it.processed else |it.request.prompt| + it.generated - 1)
    requires start + |FedTokens(it, s)| <= maxPosition && forall j :: 0 <= j < |FedTokens(it, s)| ==>
                                                            0 <= FedTokens(it, s)[j] < vocabulary
    ensures RunOk(SliceTokens(it, s), FedTokens(it, s), it.sequence, start, vocabulary, maxPosition)
  {
  }

  lemma FedSnoc(active: seq<Item>, slices: seq<Slice>, h: Histories, mid: Histories, after: Histories)
    requires slices != [] && SlicesOk(active, slices) && FedAs(active, slices[..|slices| - 1], h, mid)
    requires forall i, j :: 0 <= i < j < |active| ==> Apart(active, i, j)
    requires var last := slices[|slices| - 1];
             var it := active[last.key];
      it.sequence < |h| && mid[it.sequence] == h[it.sequence]
      && after == mid[it.sequence := mid[it.sequence] + FedTokens(it, last)]
    ensures FedAs(active, slices, h, after)
  {
    var n := |slices| - 1;
    var it := active[slices[n].key];
    forall i | 0 <= i < |slices| && Served(active, slices[i]).sequence < |h|
      ensures after[Served(active, slices[i]).sequence]
                == h[Served(active, slices[i]).sequence] + FedTokens(Served(active, slices[i]), slices[i])
    {
      if i < n {
        DistinctSlots(active, slices, i, n);
        assert slices[..n][i] == slices[i];
      }
    }
    forall s | 0 <= s < |h| && (forall i :: 0 <= i < |slices| ==> Served(active, slices[i]).sequence != s)
      ensures after[s] == h[s]
    {
      assert s != it.sequence;
      forall i | 0 <= i < n ensures Served(active, slices[..n][i]).sequence != s {
        assert slices[..n][i] == slices[i];
      }
    }
  }

  lemma {:induction false} BatchSize(active: seq<Item>, slices: seq<Slice>)
    requires forall i :: 0 <= i < |slices| ==> SliceOk(active, slices[i])
    ensures |BatchOf(active, slices)| == TokensOf(slices)
  {
    if slices == [] {
    } else {
      var n := |slices| - 1;
      BatchSize(active, slices[..n]);
      TokensSnoc(slices[..n], slices[n]);
      assert slices == slices[..n] + [slices[n]];
      assert SliceOk(active, slices[n]);
    }
  }

  lemma {:induction false} TokensSnoc(a: seq<Slice>, s: Slice)
    ensures TokensOf(a + [s]) == TokensOf(a) + s.tokens
  {
    if a == [] {
      assert [s][1..] == [];
    } else {
      assert (a + [s])[1..] == a[1..] + [s];
      TokensSnoc(a[1..], s);
    }
  }

  // ---- which sequences are to be sampled ---------------------------------------------------

  ghost function Asked(tokens: seq<InputToken>): set<int> {
    if tokens == [] then {}
    else
      var rest, last := Asked(tokens[..|tokens| - 1]), tokens[|tokens| - 1];
      if last.logits then rest + {last.sequence} else rest
  }

  ghost function Questions(tokens: seq<InputToken>): nat {
    if tokens == [] then 0
    else Questions(tokens[..|tokens| - 1]) + if tokens[|tokens| - 1].logits then 1 else 0
  }

  lemma {:induction false} AskedAppend(a: seq<InputToken>, b: seq<InputToken>)
    ensures Asked(a + b) == Asked(a) + Asked(b) && Questions(a + b) == Questions(a) + Questions(b)
  {
    if b == [] {
      assert a + b == a;
    } else {
      var n := |b| - 1;
      AskedAppend(a, b[..n]);
      assert (a + b)[..|a + b| - 1] == a + b[..n];
    }
  }

  lemma {:induction false} NoneAsked(tokens: seq<InputToken>)
    requires forall i :: 0 <= i < |tokens| ==> !tokens[i].logits
    ensures Asked(tokens) == {} && Questions(tokens) == 0
  {
    if tokens == [] {
    } else {
      NoneAsked(tokens[..|tokens| - 1]);
    }
  }

  lemma SliceAsks(active: seq<Item>, s: Slice)
    requires SliceOk(active, s)
    ensures var it := active[s.key];
      && Asked(SliceTokens(it, s)) == (if Completes(active, s) then {it.sequence} else {})
      && Questions(SliceTokens(it, s)) == if Completes(active, s) then 1 else 0
  {
    var it := active[s.key];
    var run := SliceTokens(it, s);
    var n := |run| - 1;
    NoneAsked(run[..n]);
    assert run[n].sequence == it.sequence && (run[n].logits <==> Completes(active, s));
  }

  ghost predicate AsksFor(active: seq<Item>, slices: seq<Slice>, asked: set<int>)
    requires forall i :: 0 <= i < |slices| ==> SliceOk(active, slices[i])
  {
    && (forall i :: 0 <= i < |slices| && Completes(active, slices[i]) ==> Served(active, slices[i]).sequence in asked)
    && forall s :: s in asked ==>
         exists i :: 0 <= i < |slices| && Completes(active, slices[i]) && Served(active, slices[i]).sequence == s
  }

  lemma AsksSnoc(active: seq<Item>, slices: seq<Slice>, before: set<int>)
    requires slices != [] && SlicesOk(active, slices) && AsksFor(active, slices[..|slices| - 1], before)
    requires forall i, j :: 0 <= i < j < |active| ==> Apart(active, i, j)
    ensures var last := slices[|slices| - 1];
            var s := Served(active, last).sequence;
      && s !in before
      && AsksFor(active, slices, before + if Completes(active, last) then {s} else {})
  {
    var n := |slices| - 1;
    var rest, last := slices[..n], slices[n];
    var it := Served(active, last);
    var asked: set<int> := before + if Completes(active, last) then {it.sequence} else {};
    if it.sequence in before {
      var i :| 0 <= i < n && Completes(active, rest[i]) && Served(active, rest[i]).sequence == it.sequence;
      DistinctSlots(active, slices, i, n);
      assert false;
    }
    forall i | 0 <= i < |slices| && Completes(active, slices[i]) ensures Served(active, slices[i]).sequence in asked {
      if i < n {
        assert rest[i] == slices[i];
      }
    }
    forall s | s in asked
      ensures exists i :: 0 <= i < |slices| && Completes(active, slices[i]) && Served(active, slices[i]).sequence == s
    {
      if s in before {
        var i :| 0 <= i < n && Completes(active, rest[i]) && Served(active, rest[i]).sequence == s;
        assert slices[i] == rest[i];
      }
    }
  }

  /** A batch asks once for each sequence whose slice completes it, and for no other. */
  lemma {:induction false} BatchAsks(active: seq<Item>, slices: seq<Slice>)
    requires SlicesOk(active, slices)
    requires forall i, j :: 0 <= i < j < |active| ==> Apart(active, i, j)
    ensures AsksFor(active, slices, Asked(BatchOf(active, slices)))
    ensures |Asked(BatchOf(active, slices))| == Questions(BatchOf(active, slices))
    decreases |slices|
  {
    hide SlicesOk, Apart, SliceTokens, Served, SliceOk, Completes;
    if slices == [] {
    } else {
      var n := |slices| - 1;
      var rest, last := slices[..n], slices[n];
      BatchSnoc(active, slices);
      BatchAsks(active, rest);
      SliceAsks(active, last);
      AskedAppend(BatchOf(active, rest), SliceTokens(Served(active, last), last));
      AsksSnoc(active, slices, Asked(BatchOf(active, rest)));
      OneMore(Asked(BatchOf(active, rest)), Served(active, last).sequence);
    }
  }

  lemma OneMore(s: set<int>, x: int)
    requires x !in s
    ensures |s + {x}| == |s| + 1 && s + {} == s
  {
  }

  lemma BatchSnoc(active: seq<Item>, slices: seq<Slice>)
    requires slices != [] && SlicesOk(active, slices)
    ensures var rest, last := slices[..|slices| - 1], slices[|slices| - 1];
      && SlicesOk(active, rest) && SliceOk(active, last)
      && (last.prefill || Served(active, last).generated > 0)
      && (last.prefill ==> last.tokens <= |Served(active, last).request.prompt| - Served(active, last).processed)
      && Served(active, last) == active[last.key]
      && BatchOf(active, slices) == BatchOf(active, rest) + SliceTokens(Served(active, last), last)
  {
    assert SliceOk(active, slices[|slices| - 1]);
  }
}

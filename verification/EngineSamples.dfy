/** The samples of a batch (src/engine.cpp:489-511): checked as a whole before any of them is used. */
module EngineSamples {
  import opened Outcomes
  import opened RefCounts
  import opened Batches
  import opened Requests
  import opened Runners
  import opened EngineState
  import opened EngineBatches

  /** One valid token for every sequence that was asked for, and nothing else. */
  ghost predicate Answers(samples: seq<Sample>, asked: set<int>, vocabulary: nat) {
    && |samples| == |asked|
    && (forall i :: 0 <= i < |samples| ==> samples[i].sequence in asked && 0 <= samples[i].token < vocabulary)
    && (forall i, j :: 0 <= i < j < |samples| ==> samples[i].sequence != samples[j].sequence)
  }

  ghost function Sampled(samples: seq<Sample>): set<int> {
    set i | 0 <= i < |samples| :: samples[i].sequence
  }

  lemma SampledSnoc(samples: seq<Sample>, s: Sample)
    ensures Sampled(samples + [s]) == Sampled(samples) + {s.sequence}
  {
    var all := samples + [s];
    assert all[|samples|] == s;
    forall x | x in Sampled(samples) ensures x in Sampled(all) {
      var i :| 0 <= i < |samples| && samples[i].sequence == x;
      assert all[i] == samples[i];
    }
  }

  lemma SampledTail(samples: seq<Sample>, j: nat)
    requires j < |samples| && forall i, k :: 0 <= i < k < |samples| ==> samples[i].sequence != samples[k].sequence
    ensures samples[j].sequence in Sampled(samples[j..])
    ensures Sampled(samples[j + 1..]) == Sampled(samples[j..]) - {samples[j].sequence}
  {
    var rest, next := samples[j..], samples[j + 1..];
    assert rest[0] == samples[j];
    forall x | x in Sampled(next) ensures x in Sampled(rest) && x != samples[j].sequence {
      var i :| 0 <= i < |next| && next[i].sequence == x;
      assert rest[i + 1] == next[i] && samples[j + 1 + i] == next[i];
    }
    forall x | x in Sampled(rest) && x != samples[j].sequence ensures x in Sampled(next) {
      var i :| 0 <= i < |rest| && rest[i].sequence == x;
      assert next[i - 1] == rest[i];
    }
  }

  lemma SampledMember(samples: seq<Sample>, j: nat, k: nat)
    requires j <= k < |samples|
    ensures samples[k].sequence in Sampled(samples[j..])
  {
    assert samples[j..][k - j] == samples[k];
  }

  lemma {:induction false} SampledSize(samples: seq<Sample>)
    requires forall i, j :: 0 <= i < j < |samples| ==> samples[i].sequence != samples[j].sequence
    ensures |Sampled(samples)| == |samples|
  {
    if samples == [] {
    } else {
      var n := |samples| - 1;
      SampledSize(samples[..n]);
      SampledSnoc(samples[..n], samples[n]);
      assert samples == samples[..n] + [samples[n]];
    }
  }

  /** A checked list leaves no question open. */
  lemma AnswersAll(samples: seq<Sample>, asked: set<int>, vocabulary: nat)
    requires Answers(samples, asked, vocabulary)
    ensures Sampled(samples) == asked
  {
    SampledSize(samples);
    assert Sampled(samples) <= asked;
    if Sampled(samples) != asked {
      SmallerSubset(Sampled(samples), asked);
    }
  }

  lemma SmallerSubset(a: set<int>, b: set<int>)
    requires a <= b
    ensures a != b ==> |a| < |b|
  {
    if a != b {
      var rest := b - a;
      assert b == a + rest;
      assert rest != {};
    }
  }

  lemma {:induction false} AskedWithin(tokens: seq<InputToken>, s: int)
    requires s in Asked(tokens)
    ensures Expects(tokens, s)
  {
    var n := |tokens| - 1;
    if tokens[n].logits && tokens[n].sequence == s {
      assert tokens[n].logits && tokens[n].sequence == s;
    } else {
      AskedWithin(tokens[..n], s);
      var i :| 0 <= i < n && tokens[..n][i].logits && tokens[..n][i].sequence == s;
      assert tokens[i].logits && tokens[i].sequence == s;
    }
  }

  lemma {:induction false} AskedAtMost(tokens: seq<InputToken>)
    ensures |Asked(tokens)| <= Questions(tokens)
  {
    if tokens == [] {
    } else {
      AskedAtMost(tokens[..|tokens| - 1]);
      SubsetSize(Asked(tokens), Asked(tokens[..|tokens| - 1]) + {tokens[|tokens| - 1].sequence});
    }
  }

  lemma AskedStep(tokens: seq<InputToken>, i: nat)
    requires i < |tokens|
    ensures Asked(tokens[..i + 1]) == Asked(tokens[..i]) + if tokens[i].logits then {tokens[i].sequence} else {}
    ensures Questions(tokens[..i + 1]) == Questions(tokens[..i]) + if tokens[i].logits then 1 else 0
  {
    var part := tokens[..i + 1];
    assert part[..|part| - 1] == tokens[..i] && part[|part| - 1] == tokens[i];
  }

  /** If no sequence is asked twice in a batch, none is asked twice in a part of it. */
  lemma {:induction false} AskedOnce(tokens: seq<InputToken>, i: nat)
    requires i < |tokens| && |Asked(tokens)| == Questions(tokens)
    ensures |Asked(tokens[..i])| == Questions(tokens[..i])
    ensures tokens[i].logits ==> tokens[i].sequence !in Asked(tokens[..i])
    ensures Asked(tokens[..i + 1]) == Asked(tokens[..i]) + if tokens[i].logits then {tokens[i].sequence} else {}
    decreases |tokens| - i
  {
    hide Asked, Questions;
    AskedStep(tokens, i);
    if i + 1 == |tokens| {
      assert tokens[..i + 1] == tokens;
    } else {
      AskedOnce(tokens, i + 1);
    }
    AskedAtMost(tokens[..i]);
    AddedOne(Asked(tokens[..i]), tokens[i].sequence);
  }

  lemma AddedOne(s: set<int>, x: int)
    ensures |s + {x}| == |s| + if x in s then 0 else 1
    ensures s + {} == s
  {
    if x in s {
      assert s + {x} == s;
    }
  }

  method CountQuestions(tokens: seq<InputToken>) returns (n: nat)
    ensures n == Questions(tokens)
  {
    n := 0;
    assert tokens[..0] == [];
    for i := 0 to |tokens|
      invariant n == Questions(tokens[..i])
    {
      assert tokens[..i + 1][..i] == tokens[..i];
      if tokens[i].logits {
        n := n + 1;
      }
    }
    assert tokens[..|tokens|] == tokens;
  }

  /** The sequences asked for, as a table of flags; no sequence is ever asked twice. */
  method Expectations(tokens: seq<InputToken>, slots: nat) returns (expected: seq<bool>)
    requires |Asked(tokens)| == Questions(tokens) && forall s :: s in Asked(tokens) ==> 0 <= s < slots
    ensures |expected| == slots && forall s :: 0 <= s < slots ==> (expected[s] <==> s in Asked(tokens))
  {
    hide Questions;
    expected := seq(slots, _ => false);
    assert tokens[..0] == [];
    for i := 0 to |tokens|
      invariant |expected| == slots && Asked(tokens[..i]) <= Asked(tokens)
      invariant forall s :: 0 <= s < slots ==> (expected[s] <==> s in Asked(tokens[..i]))
    {
      AskedOnce(tokens, i);
      AskedGrows(tokens, i + 1);
      if tokens[i].logits {
        assert !expected[tokens[i].sequence];
        expected := expected[tokens[i].sequence := true];
      }
    }
    assert tokens[..|tokens|] == tokens;
  }

  lemma {:induction false} AskedGrows(tokens: seq<InputToken>, i: nat)
    requires i <= |tokens|
    ensures Asked(tokens[..i]) <= Asked(tokens)
  {
    AskedAppend(tokens[..i], tokens[i..]);
    assert tokens[..i] + tokens[i..] == tokens;
  }

  /** The check of a whole batch of samples: missing, unexpected, repeated or out-of-vocabulary samples fail it, and
      nothing else does. */
  method Validate(tokens: seq<InputToken>, samples: seq<Sample>, slots: nat, vocabulary: nat) returns (status: Status)
    requires |Asked(tokens)| == Questions(tokens) && forall s :: s in Asked(tokens) ==> 0 <= s < slots
    ensures status == if Answers(samples, Asked(tokens), vocabulary) then Ok else Failed(BackendError)
  {
    hide Asked, Questions;
    var count := CountQuestions(tokens);
    if |samples| != count {
      return Failed(BackendError);
    }
    var expected := Expectations(tokens, slots);
    var sampled := seq(slots, _ => false);
    for i := 0 to |samples|
      invariant |sampled| == slots
      invariant forall j :: 0 <= j < i ==> samples[j].sequence in Asked(tokens) && 0 <= samples[j].token < vocabulary
      invariant forall j, k :: 0 <= j < k < i ==> samples[j].sequence != samples[k].sequence
      invariant forall s :: 0 <= s < slots ==> (sampled[s] <==> exists j :: 0 <= j < i && samples[j].sequence == s)
    {
      var s := samples[i];
      if s.sequence < 0 || s.sequence >= slots || !expected[s.sequence] || sampled[s.sequence] || s.token < 0
         || s.token >= vocabulary {
        return Failed(BackendError);
      }
      sampled := sampled[s.sequence := true];
    }
    return Ok;
  }
}

/** Batches of input tokens, shared by the CPU and the CUDA runtimes: what makes a batch a contiguous continuation
    of the sequences' token histories. */
module Batches {

  datatype InputToken = InputToken(token: int, position: int, sequence: int, logits: bool)

  type Histories = seq<seq<int>>

  ghost function Lengths(h: Histories): (r: seq<nat>)
    ensures |r| == |h|
  {
    seq(|h|, s requires 0 <= s < |h| => |h[s]|)
  }

  /** Sequence lengths after a batch, counting every token for its sequence. */
  ghost function LengthsAfter(lengths: seq<nat>, tokens: seq<InputToken>): (r: seq<nat>)
    ensures |r| == |lengths|
    ensures forall s :: 0 <= s < |lengths| ==> r[s] >= lengths[s]
  {
    if tokens == [] then lengths
    else
      var before := LengthsAfter(lengths, tokens[..|tokens| - 1]);
      var t := tokens[|tokens| - 1];
      if 0 <= t.sequence < |before| then before[t.sequence := before[t.sequence] + 1] else before
  }

  predicate TokenFits(lengths: seq<nat>, t: InputToken, vocabulary: nat, maxPosition: nat) {
    && 0 <= t.sequence < |lengths|
    && 0 <= t.token < vocabulary
    && 0 <= t.position < maxPosition
    && t.position == lengths[t.sequence]
  }

  /** Every token is in range and directly continues its sequence, counting the tokens before it in the batch. */
  ghost predicate WellFormed(lengths: seq<nat>, tokens: seq<InputToken>, vocabulary: nat, maxPosition: nat) {
    forall i :: 0 <= i < |tokens| ==> TokenFits(LengthsAfter(lengths, tokens[..i]), tokens[i], vocabulary, maxPosition)
  }

  /** Tokens for a sequence among the first `n` of a batch. */
  function Earlier(tokens: seq<InputToken>, n: nat, s: int): nat
    requires n <= |tokens|
  {
    if n == 0 then 0 else Earlier(tokens, n - 1, s) + if tokens[n - 1].sequence == s then 1 else 0
  }

  lemma {:induction false} LengthsMean(lengths: seq<nat>, tokens: seq<InputToken>, n: nat, s: nat)
    requires n <= |tokens| && s < |lengths|
    ensures LengthsAfter(lengths, tokens[..n])[s] == lengths[s] + Earlier(tokens, n, s)
  {
    if n == 0 {
    } else {
      LengthsMean(lengths, tokens, n - 1, s);
      assert tokens[..n][..n - 1] == tokens[..n - 1];
    }
  }

  /** A batch is accepted exactly if every token is in range and stands right behind its sequence's length and the
      tokens for it that come earlier in the batch. */
  lemma WellFormedMeans(lengths: seq<nat>, tokens: seq<InputToken>, vocabulary: nat, maxPosition: nat)
    ensures WellFormed(lengths, tokens, vocabulary, maxPosition) <==>
            forall i :: 0 <= i < |tokens| ==>
              var t := tokens[i];
              && 0 <= t.sequence < |lengths| && 0 <= t.token < vocabulary && 0 <= t.position < maxPosition
              && t.position == lengths[t.sequence] + Earlier(tokens, i, t.sequence)
  {
    forall i | 0 <= i < |tokens|
      ensures 0 <= tokens[i].sequence < |lengths| ==>
                LengthsAfter(lengths, tokens[..i])[tokens[i].sequence]
                == lengths[tokens[i].sequence] + Earlier(tokens, i, tokens[i].sequence)
    {
      if 0 <= tokens[i].sequence < |lengths| {
        LengthsMean(lengths, tokens, i, tokens[i].sequence);
      }
    }
  }

  /** Token histories after a batch. */
  function HistoriesAfter(h: Histories, tokens: seq<InputToken>): (r: Histories)
    ensures |r| == |h|
  {
    if tokens == [] then h
    else
      var before := HistoriesAfter(h, tokens[..|tokens| - 1]);
      var t := tokens[|tokens| - 1];
      if 0 <= t.sequence < |before| then before[t.sequence := before[t.sequence] + [t.token]] else before
  }

  lemma {:induction false} LengthsOfHistories(h: Histories, tokens: seq<InputToken>)
    ensures Lengths(HistoriesAfter(h, tokens)) == LengthsAfter(Lengths(h), tokens)
  {
    if tokens == [] {
    } else {
      LengthsOfHistories(h, tokens[..|tokens| - 1]);
    }
  }

  lemma {:induction false} HistoriesGrow(h: Histories, tokens: seq<InputToken>, i: nat, s: nat)
    requires i <= |tokens| && s < |h|
    ensures HistoriesAfter(h, tokens[..i])[s] <= HistoriesAfter(h, tokens)[s]
    decreases |tokens| - i
  {
    if i == |tokens| {
      assert tokens[..i] == tokens;
    } else {
      assert tokens[..i + 1][..i] == tokens[..i];
      HistoriesGrow(h, tokens, i + 1, s);
    }
  }

  lemma WellFormedPrefix(lengths: seq<nat>, tokens: seq<InputToken>, vocabulary: nat, maxPosition: nat, n: nat)
    requires WellFormed(lengths, tokens, vocabulary, maxPosition) && n <= |tokens|
    ensures WellFormed(lengths, tokens[..n], vocabulary, maxPosition)
  {
    forall i | 0 <= i < n
      ensures TokenFits(LengthsAfter(lengths, tokens[..n][..i]), tokens[..n][i], vocabulary, maxPosition)
    {
      assert tokens[..n][..i] == tokens[..i];
    }
  }

  /** In a well-formed batch each token sits in the resulting history at its own position. */
  lemma TokenInHistory(h: Histories, tokens: seq<InputToken>, vocabulary: nat, maxPosition: nat, i: nat)
    requires WellFormed(Lengths(h), tokens, vocabulary, maxPosition) && i < |tokens|
    ensures var t := tokens[i];
      && 0 <= t.sequence < |h| && |h[t.sequence]| <= t.position < |HistoriesAfter(h, tokens)[t.sequence]|
      && HistoriesAfter(h, tokens)[t.sequence][t.position] == t.token
  {
    hide LengthsAfter;
    var t := tokens[i];
    assert TokenFits(LengthsAfter(Lengths(h), tokens[..i]), t, vocabulary, maxPosition);
    LengthsOfHistories(h, tokens[..i]);
    assert tokens[..i + 1][..i] == tokens[..i];
    assert |HistoriesAfter(h, tokens[..i])[t.sequence]| == Lengths(HistoriesAfter(h, tokens[..i]))[t.sequence]
             == t.position;
    HistoriesGrow(h, tokens, i + 1, t.sequence);
  }

  /** Every new position of every sequence comes from a token of the batch. */
  lemma {:induction false} PositionFromToken(h: Histories, tokens: seq<InputToken>, vocabulary: nat, maxPosition: nat,
                                             s: nat, p: nat) returns (i: nat)
    requires WellFormed(Lengths(h), tokens, vocabulary, maxPosition)
    requires s < |h| && |h[s]| <= p < |HistoriesAfter(h, tokens)[s]|
    ensures i < |tokens| && tokens[i].sequence == s && tokens[i].position == p
  {
    assert tokens != [];
    var n := |tokens| - 1;
    if p < |HistoriesAfter(h, tokens[..n])[s]| {
      WellFormedPrefix(Lengths(h), tokens, vocabulary, maxPosition, n);
      i := PositionFromToken(h, tokens[..n], vocabulary, maxPosition, s, p);
    } else {
      i := n;
      TokenInHistory(h, tokens, vocabulary, maxPosition, n);
      LengthsOfHistories(h, tokens[..n]);
      assert |HistoriesAfter(h, tokens[..n])[s]| == Lengths(HistoriesAfter(h, tokens[..n]))[s];
      assert TokenFits(LengthsAfter(Lengths(h), tokens[..n]), tokens[n], vocabulary, maxPosition);
    }
  }

  lemma HistoriesAfterOne(h: Histories, tokens: seq<InputToken>, i: nat)
    requires i < |tokens| && 0 <= tokens[i].sequence < |h|
    ensures var now := HistoriesAfter(h, tokens[..i]);
      |now| == |h|
      && HistoriesAfter(h, tokens[..i + 1]) == now[tokens[i].sequence := now[tokens[i].sequence] + [tokens[i].token]]
  {
    assert tokens[..i + 1][..i] == tokens[..i];
  }

  lemma LengthsAfterNone(before: seq<nat>, tokens: seq<InputToken>)
    ensures LengthsAfter(before, tokens[..0]) == before
  {
    assert tokens[..0] == [];
  }

  lemma LengthsAfterOne(before: seq<nat>, tokens: seq<InputToken>, vocabulary: nat, maxPosition: nat, i: nat)
    requires i < |tokens| && TokenFits(LengthsAfter(before, tokens[..i]), tokens[i], vocabulary, maxPosition)
    ensures var now := LengthsAfter(before, tokens[..i]);
      && 0 <= tokens[i].sequence < |now|
      && LengthsAfter(before, tokens[..i + 1]) == now[tokens[i].sequence := now[tokens[i].sequence] + 1]
  {
    assert tokens[..i + 1][..i] == tokens[..i];
  }

  /** The validation loop: lengths after the batch, or nothing at the first token that is out of range or does not
      continue its sequence. */
  method CountTokens(before: seq<nat>, tokens: seq<InputToken>, vocabulary: nat, maxPosition: nat)
    returns (ok: bool, lengths: seq<nat>)
    ensures ok <==> WellFormed(before, tokens, vocabulary, maxPosition)
    ensures ok ==> lengths == LengthsAfter(before, tokens)
  {
    hide LengthsAfter, TokenFits;
    lengths := before;
    LengthsAfterNone(before, tokens);
    var i := 0;
    while i < |tokens|
      invariant 0 <= i <= |tokens|
      invariant lengths == LengthsAfter(before, tokens[..i])
      invariant forall j :: 0 <= j < i ==>
                  TokenFits(LengthsAfter(before, tokens[..j]), tokens[j], vocabulary, maxPosition)
    {
      if !TokenFits(lengths, tokens[i], vocabulary, maxPosition) {
        return false, lengths;
      }
      LengthsAfterOne(before, tokens, vocabulary, maxPosition, i);
      lengths := lengths[tokens[i].sequence := lengths[tokens[i].sequence] + 1];
      i := i + 1;
    }
    assert tokens[..|tokens|] == tokens;
    ok := true;
  }
}

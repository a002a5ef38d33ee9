/** The CPU runtime's forward pass around its paged cache (src/minillm/runtime.cpp): batch validation, page preflight,
    the append loop, and per layer the stores followed by the attention reads. */
module CpuRuntime {
  import opened Arithmetic
  import opened RefCounts
  import opened Outcomes
  import opened PageLedger
  import opened PageContents
  import opened PagedKVCache
  import opened Batches
  import opened Preflight
  import opened Transformer

  datatype RuntimeConfig = RuntimeConfig(
    contextTokens: nat, pageTokens: nat, maxSequences: nat, batchTokens: nat,
    vocabulary: nat, trainedContext: nat, layers: nat, kvWidth: nat)

  /** The limits the constructor insists on. */
  predicate Checked(c: RuntimeConfig) {
    && c.contextTokens > 0 && c.pageTokens > 0 && c.contextTokens % c.pageTokens == 0
    && 0 < c.maxSequences <= 256
    && 0 < c.batchTokens <= c.contextTokens <= c.trainedContext
    && c.layers > 0 && c.kvWidth > 0
  }

  datatype Output = Output(sequence: int, token: int)

  // ---- what the cache holds, in terms of token histories ----------------------

  ghost predicate SlotsFilled(k: Kernels, c: RuntimeConfig, slots: seq<Slot>, h: seq<int>, p: nat, upto: nat)
    requires p < |h|
  {
    && |slots| == c.layers
    && forall l :: 0 <= l < upto && l < |slots| ==> slots[l] == SlotAt(k, c.kvWidth, h, p, l)
  }

  /** Positions before `start` are filled in every layer, later ones in the layers below `upto`. */
  ghost predicate ArrayFilled(k: Kernels, c: RuntimeConfig, cells: seq<seq<Slot>>, h: seq<int>, start: nat, upto: nat) {
    && |cells| == |h|
    && forall p :: 0 <= p < |cells| ==> SlotsFilled(k, c, cells[p], h, p, if p < start then c.layers else upto)
  }

  ghost predicate AllFilled(k: Kernels, c: RuntimeConfig, arrays: Arrays, h: Histories, starts: seq<nat>, upto: nat) {
    && |arrays| == |h| == |starts|
    && forall s :: 0 <= s < |arrays| ==> ArrayFilled(k, c, arrays[s], h[s], starts[s], upto)
  }

  /** The first `n` tokens of the batch have their slot of layer `l`. */
  ghost predicate BatchFilled(k: Kernels, c: RuntimeConfig, arrays: Arrays, h: Histories, tokens: seq<InputToken>,
                              l: nat, n: nat) {
    && |arrays| == |h| && n <= |tokens|
    && forall i :: 0 <= i < n ==> TokenFilled(k, c, arrays, h, tokens[i], l)
  }

  ghost predicate TokenFilled(k: Kernels, c: RuntimeConfig, arrays: Arrays, h: Histories, t: InputToken, l: nat)
    requires |arrays| == |h|
  {
    && 0 <= t.sequence < |arrays|
    && 0 <= t.position < |arrays[t.sequence]| && t.position < |h[t.sequence]|
    && l < |arrays[t.sequence][t.position]|
    && arrays[t.sequence][t.position][l] == SlotAt(k, c.kvWidth, h[t.sequence], t.position, l)
  }

  /** The residual streams of all batch tokens, as their histories determine them. */
  ghost predicate StreamsAt(k: Kernels, c: RuntimeConfig, hidden: seq<Hidden>, h: Histories, tokens: seq<InputToken>,
                            l: nat, n: nat) {
    && n <= |hidden| == |tokens|
    && forall i :: 0 <= i < n ==> StreamAt(k, c, hidden[i], h, tokens[i], l)
  }

  ghost predicate StreamAt(k: Kernels, c: RuntimeConfig, x: Hidden, h: Histories, t: InputToken, l: nat) {
    && 0 <= t.sequence < |h| && 0 <= t.position < |h[t.sequence]|
    && x == HiddenAt(k, c.kvWidth, h[t.sequence], t.position, l)
  }

  /** The outputs of the first `n` batch tokens: one greedy token per requested position, in batch order. */
  ghost function Outputs(k: Kernels, c: RuntimeConfig, h: Histories, tokens: seq<InputToken>, n: nat): seq<Output>
    requires n <= |tokens|
    requires forall i :: 0 <= i < |tokens| ==>
               0 <= tokens[i].sequence < |h| && 0 <= tokens[i].position < |h[tokens[i].sequence]|
  {
    if n == 0 then []
    else
      var t := tokens[n - 1];
      var before := Outputs(k, c, h, tokens, n - 1);
      if t.logits then before + [Output(t.sequence, NextToken(k, c.kvWidth, c.layers, h[t.sequence][..t.position + 1]))]
      else before
  }

  // ---- lemmas about the fill level ---------------------------------------------

  /** Growing the histories by a batch: what was filled stays filled, with the new positions still empty. */
  lemma FilledForBatch(k: Kernels, c: RuntimeConfig, cells: seq<seq<Slot>>, h: seq<int>, cells': seq<seq<Slot>>,
                       h': seq<int>)
    requires ArrayFilled(k, c, cells, h, |h|, c.layers)
    requires h <= h' && |cells'| == |h'| && cells <= cells'
    requires forall p :: |cells| <= p < |cells'| ==> |cells'[p]| == c.layers
    ensures ArrayFilled(k, c, cells', h', |h|, 0)
  {
    forall p | 0 <= p < |cells'|
      ensures SlotsFilled(k, c, cells'[p], h', p, if p < |h| then c.layers else 0)
    {
      if p < |h| {
        assert SlotsFilled(k, c, cells[p], h, p, c.layers);
        assert h[..p + 1] == h'[..p + 1];
        forall l | 0 <= l < c.layers ensures cells'[p][l] == SlotAt(k, c.kvWidth, h', p, l) {
          DependsOnPrefix(k, c.kvWidth, h, h', p, l);
        }
      }
    }
  }

  /** Storing the right slot keeps the fill level and fills one more token of the layer. */
  lemma StoreFills(k: Kernels, c: RuntimeConfig, arrays: Arrays, h: Histories, starts: seq<nat>,
                   tokens: seq<InputToken>,
                   l: nat, i: nat, slot: Slot)
    requires AllFilled(k, c, arrays, h, starts, l) && BatchFilled(k, c, arrays, h, tokens, l, i)
    requires i < |tokens| && l < c.layers
    requires 0 <= tokens[i].sequence < |h| && 0 <= tokens[i].position < |h[tokens[i].sequence]|
    requires |arrays[tokens[i].sequence]| == |h[tokens[i].sequence]|
    requires |arrays[tokens[i].sequence][tokens[i].position]| == c.layers
    requires slot == SlotAt(k, c.kvWidth, h[tokens[i].sequence], tokens[i].position, l)
    ensures var a' := ArraysStored(arrays, tokens[i].sequence, l, tokens[i].position, slot.key, slot.value);
      AllFilled(k, c, a', h, starts, l) && BatchFilled(k, c, a', h, tokens, l, i + 1)
  {
    var s, p := tokens[i].sequence, tokens[i].position;
    var a' := ArraysStored(arrays, s, l, p, slot.key, slot.value);
    assert Written(slot.key, slot.value) == slot;
    assert ArrayFilled(k, c, arrays[s], h[s], starts[s], l);
    assert SlotsFilled(k, c, arrays[s][p], h[s], p, if p < starts[s] then c.layers else l);
    assert ArrayFilled(k, c, a'[s], h[s], starts[s], l);
    forall j | 0 <= j < i + 1 ensures TokenFilled(k, c, a', h, tokens[j], l) {
      if j < i {
        assert TokenFilled(k, c, arrays, h, tokens[j], l);
      }
    }
  }

  lemma PositionFilled(k: Kernels, c: RuntimeConfig, arrays: Arrays, h0: Histories, h: Histories,
                       tokens: seq<InputToken>,
                       maxPosition: nat, l: nat, s: nat, p: nat)
    requires WellFormed(Lengths(h0), tokens, c.vocabulary, maxPosition) && h == HistoriesAfter(h0, tokens)
    requires BatchFilled(k, c, arrays, h, tokens, l, |tokens|) && l < c.layers
    requires s < |h| && |h0[s]| <= p < |h[s]| && |arrays[s]| == |h[s]| && SlotsFilled(k, c, arrays[s][p], h[s], p, l)
    ensures SlotsFilled(k, c, arrays[s][p], h[s], p, l + 1)
  {
    var i := PositionFromToken(h0, tokens, c.vocabulary, maxPosition, s, p);
    assert TokenFilled(k, c, arrays, h, tokens[i], l);
  }

  /** Once every batch token is stored, the whole layer is filled. */
  lemma LayerFilled(k: Kernels, c: RuntimeConfig, arrays: Arrays, h0: Histories, h: Histories, tokens: seq<InputToken>,
                    maxPosition: nat, l: nat)
    requires WellFormed(Lengths(h0), tokens, c.vocabulary, maxPosition) && h == HistoriesAfter(h0, tokens)
    requires AllFilled(k, c, arrays, h, Lengths(h0), l) && BatchFilled(k, c, arrays, h, tokens, l, |tokens|)
             && l < c.layers
    ensures AllFilled(k, c, arrays, h, Lengths(h0), l + 1)
  {
    forall s | 0 <= s < |arrays| ensures ArrayFilled(k, c, arrays[s], h[s], Lengths(h0)[s], l + 1) {
      assert ArrayFilled(k, c, arrays[s], h[s], Lengths(h0)[s], l);
      forall p | 0 <= p < |arrays[s]|
        ensures SlotsFilled(k, c, arrays[s][p], h[s], p, if p < Lengths(h0)[s] then c.layers else l + 1)
      {
        assert SlotsFilled(k, c, arrays[s][p], h[s], p, if p < Lengths(h0)[s] then c.layers else l);
        if p >= |h0[s]| {
          PositionFilled(k, c, arrays, h0, h, tokens, maxPosition, l, s, p);
        }
      }
    }
  }

  lemma FilledSlot(k: Kernels, c: RuntimeConfig, arrays: Arrays, h: Histories, starts: seq<nat>, upto: nat, s: nat,
                   p: nat, l: nat)
    requires AllFilled(k, c, arrays, h, starts, upto) && s < |h| && p < |h[s]| && l < upto <= c.layers
    ensures |arrays[s]| == |h[s]| && |arrays[s][p]| == c.layers
    ensures arrays[s][p][l] == SlotAt(k, c.kvWidth, h[s], p, l)
  {
    assert ArrayFilled(k, c, arrays[s], h[s], starts[s], upto);
    assert SlotsFilled(k, c, arrays[s][p], h[s], p, if p < starts[s] then c.layers else upto);
  }

  lemma FilledShape(k: Kernels, c: RuntimeConfig, arrays: Arrays, h: Histories, starts: seq<nat>, upto: nat, s: nat,
                    p: nat)
    requires AllFilled(k, c, arrays, h, starts, upto) && s < |h| && p < |h[s]|
    ensures |arrays[s]| == |h[s]| && |arrays[s][p]| == c.layers
  {
    assert ArrayFilled(k, c, arrays[s], h[s], starts[s], upto);
    assert SlotsFilled(k, c, arrays[s][p], h[s], p, if p < starts[s] then c.layers else upto);
  }

  lemma LastLayerFilled(k: Kernels, c: RuntimeConfig, arrays: Arrays, h: Histories, starts: seq<nat>)
    requires AllFilled(k, c, arrays, h, starts, c.layers)
    ensures AllFilled(k, c, arrays, h, Lengths(h), c.layers)
  {
    forall s | 0 <= s < |arrays| ensures ArrayFilled(k, c, arrays[s], h[s], |h[s]|, c.layers) {
      assert ArrayFilled(k, c, arrays[s], h[s], starts[s], c.layers);
    }
  }

  // ---- the runtime ---------------------------------------------------------------

  class Runtime {
    const config: RuntimeConfig
    const kernels: Kernels
    const cache: PagedKV
    /** The tokens each sequence has been fed. */
    ghost var histories: Histories

    ghost predicate Valid()
      reads this, cache
    {
      && Shape()
      && cache.Valid()
      && Matches(histories)
      && AllFilled(kernels, config, cache.arrays, histories, Lengths(histories), config.layers)
    }

    ghost predicate Shape()
      reads {}
    {
      && Checked(config)
      && cache.config == KVConfig(config.contextTokens / config.pageTokens, config.pageTokens, config.layers,
                                  config.kvWidth, config.maxSequences)
      && cache.toHalf == kernels.toHalf
    }

    /** The cache's table lengths are the lengths of these histories. */
    ghost predicate Matches(h: Histories)
      reads cache
    {
      && |h| == |cache.tables| == config.maxSequences
      && forall s :: 0 <= s < |h| ==> cache.tables[s].length == |h[s]|
    }

    constructor (c: RuntimeConfig, k: Kernels)
      requires Checked(c)
      ensures Valid() && fresh(this) && fresh(cache)
      ensures config == c && kernels == k && histories == seq(c.maxSequences, _ => [])
      ensures |cache.free| == c.contextTokens / c.pageTokens
    {
      DivMonotone(c.pageTokens, c.contextTokens, c.pageTokens);
      config := c;
      kernels := k;
      cache := new PagedKV(KVConfig(c.contextTokens / c.pageTokens, c.pageTokens, c.layers, c.kvWidth, c.maxSequences),
                           k.toHalf);
      histories := seq(c.maxSequences, _ => []);
    }

    method ReadLengths() returns (lengths: seq<nat>)
      requires Matches(histories)
      ensures lengths == Lengths(histories)
    {
      lengths := [];
      for i := 0 to config.maxSequences
        invariant |lengths| == i && forall j :: 0 <= j < i ==> lengths[j] == cache.tables[j].length
      {
        lengths := lengths + [cache.tables[i].length];
      }
    }

    /** Sequence lengths after the batch, or failure on the first token that is out of range or not contiguous. */
    method Validate(tokens: seq<InputToken>) returns (r: Result<seq<nat>>)
      requires Matches(histories)
      ensures r.Success? <==> && 0 < |tokens| <= config.batchTokens
                              && WellFormed(Lengths(histories), tokens, config.vocabulary, config.trainedContext)
      ensures r.Success? ==> r.value == LengthsAfter(Lengths(histories), tokens)
      ensures r.Failure? ==> r.error == InvalidArgument
    {
      if |tokens| == 0 || |tokens| > config.batchTokens {
        return Failure(InvalidArgument);
      }
      var before := ReadLengths();
      var ok, lengths := CountTokens(before, tokens, config.vocabulary, config.trainedContext);
      return if ok then Success(lengths) else Failure(InvalidArgument);
    }

    method PagesFor(s: nat, target: nat) returns (needed: nat)
      requires Shape() && Consistent(cache.State(), config.pageTokens)
      requires s < |cache.tables| && cache.tables[s].length <= target
      ensures needed == NeededFor(cache.State(), s, target, config.pageTokens)
    {
      var before := cache.tables[s].length;
      if before == target {
        return 0;
      }
      CeilDivMonotone(before, target, config.pageTokens);
      needed := CeilDiv(target, config.pageTokens) - CeilDiv(before, config.pageTokens);
      if before % config.pageTokens != 0 {
        TailExists(cache.tables[s], |cache.refs|, config.pageTokens);
        if cache.refs[cache.tables[s].pages[|cache.tables[s].pages| - 1]] > 1 {
          needed := needed + 1;
        }
      }
    }

    /** The preflight sum over a per-sequence summary. */
    method PagesNeeded(lengths: seq<nat>) returns (needed: nat)
      requires Shape() && Reachable(cache.State(), lengths, config.pageTokens)
      ensures needed == Needed(cache.State(), lengths, config.pageTokens, |lengths|)
    {
      needed := 0;
      for i := 0 to |lengths|
        invariant needed == Needed(cache.State(), lengths, config.pageTokens, i)
      {
        var one := PagesFor(i, lengths[i]);
        needed := needed + one;
      }
    }

    /** The cache's ledger is `l` after the appends of these tokens. */
    ghost predicate Followed(l: Ledger, copies: nat, tokens: seq<InputToken>)
      requires config.pageTokens > 0
      reads cache
    {
      && cache.State() == AppendedAll(l, tokens, config.pageTokens)
      && cache.copyOnWrites == copies + CopiesAll(l, tokens, config.pageTokens)
    }

    /** Between two appends of a covered batch: `now` are the histories so far. */
    ghost predicate Appending(h: Histories, now: Histories, targets: seq<nat>, arrays0: Arrays)
      reads cache
    {
      && Shape() && cache.Valid() && Matches(now)
      && Reachable(cache.State(), targets, config.pageTokens)
      && Needed(cache.State(), targets, config.pageTokens, |targets|) <= |cache.free|
      && GrownExclusive(cache.State(), Lengths(h), config.pageTokens)
      && Grown(config.layers, arrays0, cache.arrays)
    }

    method AppendOne(t: InputToken, ghost h: Histories, ghost now: Histories, ghost targets: seq<nat>,
                     ghost arrays0: Arrays,
                     ghost l: Ledger, ghost copies: nat, ghost done: seq<InputToken>)
      requires Appending(h, now, targets, arrays0) && config.pageTokens > 0 && Followed(l, copies, done)
      requires 0 <= t.sequence < |now| && t.position == |now[t.sequence]| < targets[t.sequence]
      modifies cache
      ensures Appending(h, now[t.sequence := now[t.sequence] + [t.token]], targets, arrays0)
      ensures Followed(l, copies, done + [t])
    {
      hide Grown, NeedsPage, Needed, AppendedAll, CopiesAll, Appended;
      CoveredStep(cache.State(), t.sequence, targets, config.pageTokens);
      ExclusiveStep(cache.State(), t.sequence, Lengths(h), config.pageTokens);
      GrownStep(config.layers, arrays0, cache.arrays, t.sequence);
      AppendedAllSnoc(l, done, t, config.pageTokens);
      var status := cache.Append(t.sequence, t.position);
      assert status == Ok;
    }

    method AppendNext(tokens: seq<InputToken>, i: nat, ghost h: Histories, ghost targets: seq<nat>,
                      ghost arrays0: Arrays,
                      ghost l: Ledger, ghost copies: nat)
      requires WellFormed(Lengths(h), tokens, config.vocabulary, config.trainedContext)
      requires targets == LengthsAfter(Lengths(h), tokens)
      requires config.pageTokens > 0 && i < |tokens|
      requires Appending(h, HistoriesAfter(h, tokens[..i]), targets, arrays0) && Followed(l, copies, tokens[..i])
      modifies cache
      ensures Appending(h, HistoriesAfter(h, tokens[..i + 1]), targets, arrays0) && Followed(l, copies, tokens[..i + 1])
    {
      hide *;
      ghost var now, done := HistoriesAfter(h, tokens[..i]), tokens[..i];
      NextAppend(h, tokens, config.vocabulary, config.trainedContext, targets, i);
      HistoriesAfterOne(h, tokens, i);
      assert done + [tokens[i]] == tokens[..i + 1];
      AppendOne(tokens[i], h, now, targets, arrays0, l, copies, done);
    }

    /** The append loop. After a preflight that covered it, no append fails, and every new position ends up on a page
        of its sequence alone. */
    method AppendAll(tokens: seq<InputToken>, ghost h: Histories, ghost targets: seq<nat>)
      requires WellFormed(Lengths(h), tokens, config.vocabulary, config.trainedContext)
      requires targets == LengthsAfter(Lengths(h), tokens)
      requires config.pageTokens > 0 && Appending(h, h, targets, cache.arrays)
      modifies cache
      ensures Appending(h, HistoriesAfter(h, tokens), targets, old(cache.arrays))
      ensures Followed(old(cache.State()), old(cache.copyOnWrites), tokens)
    {
      ghost var l, copies, arrays0 := cache.State(), cache.copyOnWrites, cache.arrays;
      assert tokens[..0] == [] && tokens[..|tokens|] == tokens;
      assert HistoriesAfter(h, []) == h && Followed(l, copies, []);
      hide *;
      var i := 0;
      while i < |tokens|
        invariant 0 <= i <= |tokens|
        invariant Appending(h, HistoriesAfter(h, tokens[..i]), targets, arrays0) && Followed(l, copies, tokens[..i])
      {
        AppendNext(tokens, i, h, targets, arrays0, l, copies);
        i := i + 1;
      }
    }

    /** During the layers: appends are done, histories are those after the batch, layers below `l` are filled. */
    ghost predicate Layered(h0: Histories, h: Histories, tokens: seq<InputToken>, l: nat)
      reads cache
    {
      && Shape() && cache.Valid() && Matches(h)
      && WellFormed(Lengths(h0), tokens, config.vocabulary, config.trainedContext)
      && h == HistoriesAfter(h0, tokens)
      && GrownExclusive(cache.State(), Lengths(h0), config.pageTokens)
      && AllFilled(kernels, config, cache.arrays, h, Lengths(h0), l)
    }

    lemma LayeredBatch(h0: Histories, h: Histories, tokens: seq<InputToken>, l: nat)
      requires Layered(h0, h, tokens, l)
      ensures WellFormed(Lengths(h0), tokens, config.vocabulary, config.trainedContext)
              && h == HistoriesAfter(h0, tokens)
    {
    }

    /** Stores the projections of one batch token; its page is exclusive, so the store never throws. */
    method StoreOne(tokens: seq<InputToken>, i: nat, layer: nat, x: Hidden, ghost h0: Histories, ghost h: Histories)
      requires Layered(h0, h, tokens, layer) && layer < config.layers && i < |tokens|
      requires BatchFilled(kernels, config, cache.arrays, h, tokens, layer, i)
      requires StreamAt(kernels, config, x, h, tokens[i], layer)
      modifies cache`data, cache`arrays
      ensures Layered(h0, h, tokens, layer)
      ensures BatchFilled(kernels, config, cache.arrays, h, tokens, layer, i + 1)
    {
      var t := tokens[i];
      TokenInHistory(h0, tokens, config.vocabulary, config.trainedContext, i);
      FilledShape(kernels, config, cache.arrays, h, Lengths(h0), layer, t.sequence, t.position);
      StoreFills(kernels, config, cache.arrays, h, Lengths(h0), tokens, layer, i,
                 SlotAt(kernels, config.kvWidth, h[t.sequence], t.position, layer));
      assert SingleOwner(cache.State(), t.sequence, t.position, config.pageTokens);
      var status := cache.Store(t.sequence, layer, t.position,
                                KeyVector(kernels, config.kvWidth, layer, t.position, x),
                                ValueVector(kernels, config.kvWidth, layer, t.position, x));
      assert status == Ok;
    }

    method StoreLayer(tokens: seq<InputToken>, layer: nat, hidden: seq<Hidden>, ghost h0: Histories, ghost h: Histories)
      requires Layered(h0, h, tokens, layer) && layer < config.layers
      requires StreamsAt(kernels, config, hidden, h, tokens, layer, |tokens|)
      modifies cache`data, cache`arrays
      ensures Layered(h0, h, tokens, layer + 1)
    {
      var i := 0;
      while i < |tokens|
        invariant 0 <= i <= |tokens|
        invariant Layered(h0, h, tokens, layer)
        invariant BatchFilled(kernels, config, cache.arrays, h, tokens, layer, i)
      {
        assert StreamAt(kernels, config, hidden[i], h, tokens[i], layer);
        StoreOne(tokens, i, layer, hidden[i], h0, h);
        i := i + 1;
      }
      LayerFilled(kernels, config, cache.arrays, h0, h, tokens, config.trainedContext, layer);
    }

    /** Attention reads every cached key and value of the token's own sequence up to its position. */
    method ReadContext(t: InputToken, layer: nat, ghost h0: Histories, ghost h: Histories,
                       ghost tokens: seq<InputToken>)
      returns (keys: seq<seq<Half>>, values: seq<seq<Half>>)
      requires Layered(h0, h, tokens, layer + 1) && layer < config.layers
      requires 0 <= t.sequence < |h| && 0 <= t.position < |h[t.sequence]|
      ensures keys == KeysTo(kernels, config.kvWidth, h[t.sequence], t.position + 1, layer)
      ensures values == ValuesTo(kernels, config.kvWidth, h[t.sequence], t.position + 1, layer)
    {
      hide AllFilled, GrownExclusive, WellFormed, SlotAt;
      keys, values := [], [];
      var p := 0;
      while p < t.position + 1
        invariant 0 <= p <= t.position + 1 && |keys| == |values| == p
        invariant forall j :: 0 <= j < p ==> keys[j] == SlotAt(kernels, config.kvWidth, h[t.sequence], j, layer).key
        invariant forall j :: 0 <= j < p ==> values[j] == SlotAt(kernels, config.kvWidth, h[t.sequence], j, layer).value
      {
        FilledSlot(kernels, config, cache.arrays, h, Lengths(h0), layer + 1, t.sequence, p, layer);
        var key := cache.Key(t.sequence, layer, p);
        var value := cache.Value(t.sequence, layer, p);
        assert key.Success? && value.Success?;
        keys := keys + [key.value];
        values := values + [value.value];
        p := p + 1;
      }
      assert keys == KeysTo(kernels, config.kvWidth, h[t.sequence], t.position + 1, layer);
      assert values == ValuesTo(kernels, config.kvWidth, h[t.sequence], t.position + 1, layer);
    }

    method AttendOne(t: InputToken, layer: nat, x: Hidden, ghost h0: Histories, ghost h: Histories,
                     ghost tokens: seq<InputToken>)
      returns (next: Hidden)
      requires Layered(h0, h, tokens, layer + 1) && layer < config.layers
      requires StreamAt(kernels, config, x, h, t, layer)
      ensures StreamAt(kernels, config, next, h, t, layer + 1)
    {
      var keys, values := ReadContext(t, layer, h0, h, tokens);
      next := kernels.attend(layer, t.position, x, keys, values);
    }

    method AttendLayer(tokens: seq<InputToken>, layer: nat, hidden: seq<Hidden>, ghost h0: Histories,
                       ghost h: Histories)
      returns (next: seq<Hidden>)
      requires Layered(h0, h, tokens, layer + 1) && layer < config.layers
      requires StreamsAt(kernels, config, hidden, h, tokens, layer, |tokens|)
      ensures StreamsAt(kernels, config, next, h, tokens, layer + 1, |tokens|)
    {
      hide Layered, StreamAt;
      next := [];
      for i := 0 to |tokens|
        invariant |next| == i
        invariant forall j :: 0 <= j < i ==> StreamAt(kernels, config, next[j], h, tokens[j], layer + 1)
      {
        var x := AttendOne(tokens[i], layer, hidden[i], h0, h, tokens);
        next := next + [x];
      }
    }

    method EmbedBatch(tokens: seq<InputToken>, ghost h0: Histories, ghost h: Histories) returns (hidden: seq<Hidden>)
      requires WellFormed(Lengths(h0), tokens, config.vocabulary, config.trainedContext)
               && h == HistoriesAfter(h0, tokens)
      ensures StreamsAt(kernels, config, hidden, h, tokens, 0, |tokens|)
    {
      hidden := [];
      for i := 0 to |tokens|
        invariant |hidden| == i
        invariant forall j :: 0 <= j < i ==> StreamAt(kernels, config, hidden[j], h, tokens[j], 0)
      {
        TokenInHistory(h0, tokens, config.vocabulary, config.trainedContext, i);
        hidden := hidden + [kernels.embed(tokens[i].token)];
      }
    }

    method RunLayers(tokens: seq<InputToken>, ghost h0: Histories, ghost h: Histories) returns (hidden: seq<Hidden>)
      requires Layered(h0, h, tokens, 0)
      modifies cache`data, cache`arrays
      ensures Layered(h0, h, tokens, config.layers)
      ensures StreamsAt(kernels, config, hidden, h, tokens, config.layers, |tokens|)
    {
      hide *;
      LayeredBatch(h0, h, tokens, 0);
      hidden := EmbedBatch(tokens, h0, h);
      var layer := 0;
      while layer < config.layers
        invariant 0 <= layer <= config.layers
        invariant Layered(h0, h, tokens, layer)
        invariant StreamsAt(kernels, config, hidden, h, tokens, layer, |tokens|)
      {
        StoreLayer(tokens, layer, hidden, h0, h);
        hidden := AttendLayer(tokens, layer, hidden, h0, h);
        layer := layer + 1;
      }
    }

    method Collect(tokens: seq<InputToken>, hidden: seq<Hidden>, ghost h: Histories) returns (result: seq<Output>)
      requires StreamsAt(kernels, config, hidden, h, tokens, config.layers, |tokens|)
      ensures forall i :: 0 <= i < |tokens| ==>
                0 <= tokens[i].sequence < |h| && 0 <= tokens[i].position < |h[tokens[i].sequence]|
      ensures result == Outputs(kernels, config, h, tokens, |tokens|)
    {
      forall i | 0 <= i < |tokens|
        ensures 0 <= tokens[i].sequence < |h| && 0 <= tokens[i].position < |h[tokens[i].sequence]|
      {
        assert StreamAt(kernels, config, hidden[i], h, tokens[i], config.layers);
      }
      result := [];
      for i := 0 to |tokens|
        invariant result == Outputs(kernels, config, h, tokens, i)
      {
        assert StreamAt(kernels, config, hidden[i], h, tokens[i], config.layers);
        if tokens[i].logits {
          ghost var g := h[tokens[i].sequence];
          DependsOnPrefix(kernels, config.kvWidth, g, g[..tokens[i].position + 1], tokens[i].position, config.layers);
          result := result + [Output(tokens[i].sequence, kernels.greedy(hidden[i]))];
        }
      }
    }

    /** One forward pass. It fails exactly when the batch is malformed or its page demand exceeds the free pages, and
        then leaves cache and histories as they were. Otherwise no append, store or read inside it can fail, and each
        requested output is the greedy token of that sequence's own history: how tokens were batched, chunked,
        paged or shared does not matter. */
    method Forward(tokens: seq<InputToken>) returns (r: Result<seq<Output>>)
      requires Valid()
      modifies this, cache
      ensures Valid()
      ensures var wellFormed := 0 < |tokens| <= config.batchTokens
                && WellFormed(Lengths(old(histories)), tokens, config.vocabulary, config.trainedContext);
              r == Failure(InvalidArgument) <==> !wellFormed
      ensures r.Failure? && r != Failure(InvalidArgument) ==>
                && r == Failure(CapacityExceeded)
                && old(Reachable(cache.State(), LengthsAfter(Lengths(histories), tokens), config.pageTokens))
                && old(Needed(cache.State(), LengthsAfter(Lengths(histories), tokens), config.pageTokens,
                              config.maxSequences) > |cache.free|)
      ensures r.Failure? ==>
                && cache.State() == old(cache.State()) && cache.arrays == old(cache.arrays)
                   && histories == old(histories)
                && cache.copyOnWrites == old(cache.copyOnWrites)
      ensures r.Success? ==>
                && Followed(old(cache.State()), old(cache.copyOnWrites), tokens)
                && histories == HistoriesAfter(old(histories), tokens)
                && (forall i :: 0 <= i < |tokens| ==>
                      0 <= tokens[i].sequence < |histories|
                      && 0 <= tokens[i].position < |histories[tokens[i].sequence]|)
                && r.value == Outputs(kernels, config, histories, tokens, |tokens|)
    {
      var lengths := Validate(tokens);
      if lengths.Failure? {
        return Failure(lengths.error);
      }
      BatchReachable(cache.State(), histories, tokens, config.pageTokens);
      var needed := PagesNeeded(lengths.value);
      if needed > |cache.free| {
        return Failure(CapacityExceeded);
      }
      var outputs := Execute(tokens, lengths.value);
      return Success(outputs);
    }

    /** Makes `target` continue from a prefix of `source`, without computing anything again. */
    method SharePrefix(source: int, target: int, tokens: nat) returns (status: Status)
      requires Valid()
      modifies this, cache
      ensures Valid() && cache.copyOnWrites == old(cache.copyOnWrites)
      ensures status == (if !(0 <= source < config.maxSequences)
                         || !(0 <= target < config.maxSequences) then Failed(OutOfRange)
                         else if source == target || tokens > |old(histories)[source]| then Failed(InvalidArgument)
                         else Ok)
      ensures status.Failed? ==> cache.State() == old(cache.State()) && histories == old(histories)
      ensures status.Ok? ==>
                && cache.State() == Shared(old(cache.State()), source, target, tokens, config.pageTokens)
                && histories == old(histories)[target := old(histories)[source][..tokens]]
    {
      if source < 0 || target < 0 {
        return Failed(OutOfRange);
      }
      hide Shared, AllFilled;
      status := cache.SharePrefix(source, target, tokens);
      if status.Ok? {
        SharedFilled(kernels, config, old(cache.arrays), histories, source, target, tokens);
        histories := histories[target := histories[source][..tokens]];
      }
    }

    method ClearSequence(sequence: int)
      requires Valid()
      modifies this, cache
      ensures Valid() && cache.copyOnWrites == old(cache.copyOnWrites)
      ensures 0 <= sequence < config.maxSequences ==>
                && cache.State() == Cleared(old(cache.State()), sequence, config.pageTokens, [])
                && histories == old(histories)[sequence := []]
      ensures !(0 <= sequence < config.maxSequences) ==>
                cache.State() == old(cache.State()) && histories == old(histories)
    {
      if 0 <= sequence < config.maxSequences {
        cache.Clear(sequence);
        histories := histories[sequence := []];
      }
    }

    method Execute(tokens: seq<InputToken>, ghost targets: seq<nat>) returns (outputs: seq<Output>)
      requires Valid()
      requires WellFormed(Lengths(histories), tokens, config.vocabulary, config.trainedContext)
      requires targets == LengthsAfter(Lengths(histories), tokens)
      requires Reachable(cache.State(), targets, config.pageTokens)
      requires Needed(cache.State(), targets, config.pageTokens, |targets|) <= |cache.free|
      modifies this, cache
      ensures Valid() && Followed(old(cache.State()), old(cache.copyOnWrites), tokens)
      ensures histories == HistoriesAfter(old(histories), tokens)
      ensures forall i :: 0 <= i < |tokens| ==>
                0 <= tokens[i].sequence < |histories| && 0 <= tokens[i].position < |histories[tokens[i].sequence]|
      ensures outputs == Outputs(kernels, config, histories, tokens, |tokens|)
    {
      hide LengthsAfter, Reachable, Needed, HistoriesAfter, Outputs, FreeExact, AllFilled, Usable, Consistent, Backed,
           PageElements;
      ghost var h0 := histories;
      ghost var arrays0 := cache.arrays;
      ghost var h := HistoriesAfter(h0, tokens);
      BatchAppending(cache.State(), h0, config.pageTokens);
      AppendAll(tokens, h0, targets);
      BatchLayered(kernels, config, arrays0, cache.arrays, h0, h, tokens);
      var hidden := RunLayers(tokens, h0, h);
      LastLayerFilled(kernels, config, cache.arrays, h, Lengths(h0));
      histories := h;
      outputs := Collect(tokens, hidden, h);
    }
  }

  /** A shared prefix holds what the target's new history calls for, because cached slots only depend on the prefix. */
  lemma SharedFilled(k: Kernels, c: RuntimeConfig, arrays: Arrays, h: Histories, source: nat, target: nat, tokens: nat)
    requires AllFilled(k, c, arrays, h, Lengths(h), c.layers)
    requires source < |h| && target < |h| && tokens <= |h[source]|
    ensures tokens <= |arrays[source]|
    ensures var h' := h[target := h[source][..tokens]];
      AllFilled(k, c, ArraysShared(arrays, source, target, tokens), h', Lengths(h'), c.layers)
  {
    assert ArrayFilled(k, c, arrays[source], h[source], Lengths(h)[source], c.layers);
    var g := h[source][..tokens];
    var cells := arrays[source][..tokens];
    forall p | 0 <= p < |cells| ensures SlotsFilled(k, c, cells[p], g, p, c.layers) {
      assert SlotsFilled(k, c, arrays[source][p], h[source], p, c.layers);
      assert g[..p + 1] == h[source][..p + 1];
      forall l | 0 <= l < c.layers ensures cells[p][l] == SlotAt(k, c.kvWidth, g, p, l) {
        DependsOnPrefix(k, c.kvWidth, h[source], g, p, l);
      }
    }
    forall s | 0 <= s < |h| && s != target ensures ArrayFilled(k, c, arrays[s], h[s], |h[s]|, c.layers) {
      assert ArrayFilled(k, c, arrays[s], h[s], Lengths(h)[s], c.layers);
    }
  }

  lemma BatchReachable(l: Ledger, h: Histories, tokens: seq<InputToken>, pageTokens: nat)
    requires pageTokens > 0 && Consistent(l, pageTokens)
    requires |h| == |l.tables| && forall s :: 0 <= s < |h| ==> l.tables[s].length == |h[s]|
    ensures Reachable(l, LengthsAfter(Lengths(h), tokens), pageTokens)
  {
  }

  lemma BatchAppending(l: Ledger, h: Histories, pageTokens: nat)
    requires pageTokens > 0 && |h| == |l.tables| && forall s :: 0 <= s < |h| ==> l.tables[s].length == |h[s]|
    ensures GrownExclusive(l, Lengths(h), pageTokens)
  {
  }

  lemma BatchLayered(k: Kernels, c: RuntimeConfig, arrays0: Arrays, arrays: Arrays, h0: Histories, h: Histories,
                     tokens: seq<InputToken>)
    requires AllFilled(k, c, arrays0, h0, Lengths(h0), c.layers) && h == HistoriesAfter(h0, tokens)
    requires Grown(c.layers, arrays0, arrays)
    requires forall s :: 0 <= s < |arrays| ==> |arrays[s]| == |h[s]|
    ensures AllFilled(k, c, arrays, h, Lengths(h0), 0)
  {
    assert tokens[..0] == [];
    forall s | 0 <= s < |arrays| ensures ArrayFilled(k, c, arrays[s], h[s], Lengths(h0)[s], 0) {
      HistoriesGrow(h0, tokens, 0, s);
      assert ArrayFilled(k, c, arrays0[s], h0[s], Lengths(h0)[s], c.layers);
      FilledForBatch(k, c, arrays0[s], h0[s], arrays[s], h[s]);
    }
  }

  lemma GrownStep(layers: nat, before: Arrays, after: Arrays, s: nat)
    requires Grown(layers, before, after) && s < |after|
    ensures Grown(layers, before, ArraysAppended(after, s, layers))
  {
  }

  /** Arrays that only grew, by positions with all their layers. */
  ghost predicate Grown(layers: nat, before: Arrays, after: Arrays) {
    && |before| == |after|
    && forall s :: 0 <= s < |before| ==>
         && before[s] <= after[s]
         && forall p :: |before[s]| <= p < |after[s]| ==> |after[s][p]| == layers
  }

  lemma NextAppend(h: Histories, tokens: seq<InputToken>, vocabulary: nat, maxPosition: nat, targets: seq<nat>, i: nat)
    requires WellFormed(Lengths(h), tokens, vocabulary, maxPosition) && i < |tokens|
    requires targets == LengthsAfter(Lengths(h), tokens)
    ensures 0 <= tokens[i].sequence < |h| == |HistoriesAfter(h, tokens[..i])| == |targets|
    ensures tokens[i].position == |HistoriesAfter(h, tokens[..i])[tokens[i].sequence]| < targets[tokens[i].sequence]
  {
    assert TokenFits(LengthsAfter(Lengths(h), tokens[..i]), tokens[i], vocabulary, maxPosition);
    LengthsOfHistories(h, tokens[..i]);
    assert Lengths(HistoriesAfter(h, tokens[..i]))[tokens[i].sequence] == tokens[i].position;
    LengthsOfHistories(h, tokens);
    TokenInHistory(h, tokens, vocabulary, maxPosition, i);
    assert Lengths(HistoriesAfter(h, tokens))[tokens[i].sequence] == targets[tokens[i].sequence];
  }
}

/** The engine on the CPU runtime: whatever the engine does while its runner is healthy, the paged cache can do as well,
    within the engine's credits and without ever copying a page; and its outputs are answers the engine may rely on
    (src/mini_runner.cpp:17-21, 43-60, 62-82). */
module EnginesOnCpu {
  import Arithmetic
  import opened RefCounts
  import opened Batches
  import opened Requests
  import opened EngineState
  import opened EngineCredits
  import opened EngineBatches
  import opened EngineFeeds
  import opened EngineLaws
  import opened EngineSync
  import opened Runners
  import opened EngineSamples
  import opened Engines
  import Credits
  import CpuRuntime
  import CpuServing
  import Scheduling
  import Transformer

  /** The runtime the CPU runner builds from the engine's configuration. */
  ghost predicate BuiltFor(rt: CpuRuntime.Runtime, engine: Engine) {
    && rt.config.pageTokens == engine.config.blockSize && rt.config.contextTokens == engine.config.contextTokens
    && rt.config.maxSequences == Slots(engine.config) && rt.config.batchTokens == engine.config.batchTokens
    && rt.config.vocabulary == engine.model.vocabulary && engine.config.maxModelLen <= rt.config.trainedContext
  }

  lemma SameCapacity(rt: CpuRuntime.Runtime, engine: Engine)
    requires engine.Lifecycle() && BuiltFor(rt, engine)
    ensures CpuServing.Configured(rt, Cap(engine.pool.refs, engine.model, engine.config))
  {
    BlockCountExact(engine);
  }

  lemma BlockCountExact(engine: Engine)
    requires engine.Lifecycle()
    ensures engine.config.blockSize > 0 && |engine.pool.refs| == engine.config.contextTokens / engine.config.blockSize
  {
    hide LogsOk, Registered, Tracked, ItemsOk, QueueOk, CreditsExact, SlotsExact, CacheSlotsExact, TableExact;
    Arithmetic.CeilDivExact(|engine.pool.refs|, engine.config.blockSize);
  }

  /** The blocks the slots hold are the pool's blocks in use. */
  lemma HeldIsUsed(refs: seq<nat>, table: seq<seq<nat>>)
    requires CreditsExact(refs, table)
    ensures CpuServing.HeldBlocks(table) == Used(refs)
  {
    forall b: nat ensures b in CpuServing.HeldBlocks(table) <==> b in Used(refs) {
      if b in CpuServing.HeldBlocks(table) {
        var s, i :| 0 <= s < |table| && 0 <= i < |table[s]| && table[s][i] == b;
        assert s in Holding(table, b);
      }
      if b in Used(refs) {
        var s := Pick(Holding(table, b));
        var i :| 0 <= i < |table[s]| && table[s][i] == b;
      }
    }
  }

  /** A run of the engine, replayed on a new CPU runtime: no call fails, no page is copied, the cache holds exactly the
      histories the engine counts on, and it uses no more pages than the engine has credits in use. */
  method ReplayOnCpu(engine: Engine, rt: CpuRuntime.Runtime, steps: seq<Credits.Step>)
    requires engine.Lifecycle() && engine.OnTrack() && steps == engine.trace
    requires rt.Valid() && rt.histories == seq(rt.config.maxSequences, _ => []) && BuiltFor(rt, engine)
    modifies rt, rt.cache
    ensures rt.Valid() && rt.histories == engine.runner.histories
    ensures rt.cache.copyOnWrites == old(rt.cache.copyOnWrites)
    ensures |rt.cache.refs| - |rt.cache.free| <= |engine.pool.refs| - |engine.pool.free|
  {
    ghost var c := Cap(engine.pool.refs, engine.model, engine.config);
    ghost var refs, free, table, h := engine.pool.refs, engine.pool.free, engine.table, engine.runner.histories;
    SameCapacity(rt, engine);
    EngineFacts(engine);
    HeldIsUsed(refs, table);
    FreeCount(refs, free);
    CpuServing.FreshFollows(rt, c);
    CpuServing.Follow(rt, steps, c);
  }

  lemma EngineFacts(engine: Engine)
    requires engine.Lifecycle() && engine.OnTrack()
    ensures engine.config.blockSize > 0
    ensures Traced(engine.trace, engine.runner.histories, engine.table,
                   Cap(engine.pool.refs, engine.model, engine.config), Slots(engine.config))
    ensures CreditsExact(engine.pool.refs, engine.table) && FreeExact(engine.pool.refs, engine.pool.free)
  {
    hide Traced, CreditsExact, LogsOk, Registered, Tracked, ItemsOk, QueueOk, SlotsExact, CacheSlotsExact, TableExact;
  }

  // ---- the runtime's outputs are honest answers ------------------------------------------

  /** The model the CPU runtime computes. */
  ghost function ModelOf(k: Transformer.Kernels, c: CpuRuntime.RuntimeConfig, eog: int -> bool): Model {
    Model((h: seq<int>) => if h == [] then 0 else Transformer.NextToken(k, c.kvWidth, c.layers, h), eog, c.vocabulary)
  }

  function SamplesOf(outputs: seq<CpuRuntime.Output>): (r: seq<Sample>)
    ensures |r| == |outputs|
  {
    seq(|outputs|, i requires 0 <= i < |outputs| => Sample(outputs[i].sequence, outputs[i].token))
  }

  lemma {:induction false} OutputsAnswer(k: Transformer.Kernels, c: CpuRuntime.RuntimeConfig, h: Histories,
                                         tokens: seq<InputToken>, n: nat, i: nat)
    requires n <= |tokens| && AsksAtEnd(tokens, h)
    requires forall j :: 0 <= j < |tokens| ==>
               0 <= tokens[j].sequence < |h| && 0 <= tokens[j].position < |h[tokens[j].sequence]|
    requires i < |CpuRuntime.Outputs(k, c, h, tokens, n)|
    ensures var o := CpuRuntime.Outputs(k, c, h, tokens, n)[i];
      0 <= o.sequence < |h| && h[o.sequence] != []
      && o.token == Transformer.NextToken(k, c.kvWidth, c.layers, h[o.sequence])
  {
    var t := tokens[n - 1];
    if i < |CpuRuntime.Outputs(k, c, h, tokens, n - 1)| {
      OutputsAnswer(k, c, h, tokens, n - 1, i);
    } else {
      assert h[t.sequence][..t.position + 1] == h[t.sequence];
    }
  }

  /** What the CPU runtime answers is what the engine takes the model's answers to be. */
  lemma CpuIsHonest(k: Transformer.Kernels, c: CpuRuntime.RuntimeConfig, eog: int -> bool, h: Histories,
                    tokens: seq<InputToken>)
    requires AsksAtEnd(tokens, h)
    requires forall j :: 0 <= j < |tokens| ==>
               0 <= tokens[j].sequence < |h| && 0 <= tokens[j].position < |h[tokens[j].sequence]|
    ensures Honest(ModelOf(k, c, eog), h, tokens, SamplesOf(CpuRuntime.Outputs(k, c, h, tokens, |tokens|)))
  {
    var outputs := CpuRuntime.Outputs(k, c, h, tokens, |tokens|);
    var samples := SamplesOf(outputs);
    forall i | 0 <= i < |samples| && Plausible(ModelOf(k, c, eog), h, tokens, samples[i])
      ensures samples[i].token == ModelOf(k, c, eog).next(h[samples[i].sequence])
    {
      OutputsAnswer(k, c, h, tokens, |tokens|, i);
    }
  }

  /** One output for each question, in the order of the batch. */
  lemma {:induction false} OutputsAsked(k: Transformer.Kernels, c: CpuRuntime.RuntimeConfig, h: Histories,
                                        tokens: seq<InputToken>, n: nat)
    requires n <= |tokens| && |Asked(tokens)| == Questions(tokens)
    requires forall j :: 0 <= j < |tokens| ==>
               0 <= tokens[j].sequence < |h| && 0 <= tokens[j].position < |h[tokens[j].sequence]|
    ensures AnswersTo(SamplesOf(CpuRuntime.Outputs(k, c, h, tokens, n)), tokens[..n])
  {
    hide AnswersTo, Asked, Questions, Transformer.NextToken;
    if n == 0 {
      NothingAsked(tokens);
    } else {
      OutputsAsked(k, c, h, tokens, n - 1);
      var before := SamplesOf(CpuRuntime.Outputs(k, c, h, tokens, n - 1));
      var all := SamplesOf(CpuRuntime.Outputs(k, c, h, tokens, n));
      if tokens[n - 1].logits {
        assert all == before + [Sample(tokens[n - 1].sequence, all[|before|].token)];
      } else {
        assert all == before;
      }
      OneMoreAnswer(tokens, n - 1, before, all);
    }
  }

  ghost predicate AnswersTo(samples: seq<Sample>, tokens: seq<InputToken>) {
    && |samples| == Questions(tokens) && Sampled(samples) == Asked(tokens)
    && forall i, j :: 0 <= i < j < |samples| ==> samples[i].sequence != samples[j].sequence
  }

  lemma OneMoreAnswer(tokens: seq<InputToken>, n: nat, before: seq<Sample>, all: seq<Sample>)
    requires n < |tokens| && |Asked(tokens)| == Questions(tokens) && AnswersTo(before, tokens[..n])
    requires tokens[n].logits ==> |all| == |before| + 1 && all[|before|].sequence == tokens[n].sequence
                                  && all == before + [all[|before|]]
    requires !tokens[n].logits ==> all == before
    ensures AnswersTo(all, tokens[..n + 1])
  {
    hide Asked, Questions, Sampled;
    AskedOnce(tokens, n);
    AskedStep(tokens, n);
    if tokens[n].logits {
      NewSample(before, all[|before|]);
    }
  }

  lemma NothingAsked(tokens: seq<InputToken>)
    ensures AnswersTo([], tokens[..0])
  {
  }

  /** A sample of a sequence that has none yet. */
  lemma NewSample(samples: seq<Sample>, last: Sample)
    requires last.sequence !in Sampled(samples)
    requires forall i, j :: 0 <= i < j < |samples| ==> samples[i].sequence != samples[j].sequence
    ensures var all := samples + [last];
      && Sampled(all) == Sampled(samples) + {last.sequence}
      && forall i, j :: 0 <= i < j < |all| ==> all[i].sequence != all[j].sequence
  {
    SampledSnoc(samples, last);
    forall i | 0 <= i < |samples| ensures samples[i].sequence != last.sequence {
      assert samples[i].sequence in Sampled(samples);
    }
  }

  /** They pass the engine's check of the whole batch, as long as the sampler stays within the vocabulary. */
  lemma OutputsPass(k: Transformer.Kernels, c: CpuRuntime.RuntimeConfig, h: Histories, tokens: seq<InputToken>)
    requires |Asked(tokens)| == Questions(tokens) && forall x :: 0 <= k.greedy(x) < c.vocabulary
    requires forall j :: 0 <= j < |tokens| ==>
               0 <= tokens[j].sequence < |h| && 0 <= tokens[j].position < |h[tokens[j].sequence]|
    ensures Answers(SamplesOf(CpuRuntime.Outputs(k, c, h, tokens, |tokens|)), Asked(tokens), c.vocabulary)
  {
    OutputsAsked(k, c, h, tokens, |tokens|);
    assert tokens[..|tokens|] == tokens;
    var outputs := CpuRuntime.Outputs(k, c, h, tokens, |tokens|);
    forall i | 0 <= i < |outputs| ensures outputs[i].sequence in Asked(tokens) && 0 <= outputs[i].token < c.vocabulary {
      assert SamplesOf(outputs)[i].sequence in Sampled(SamplesOf(outputs));
      OutputSampled(k, c, h, tokens, |tokens|, i);
    }
  }

  lemma {:induction false} OutputSampled(k: Transformer.Kernels, c: CpuRuntime.RuntimeConfig, h: Histories,
                                         tokens: seq<InputToken>, n: nat, i: nat)
    requires n <= |tokens| && forall x :: 0 <= k.greedy(x) < c.vocabulary
    requires forall j :: 0 <= j < |tokens| ==>
               0 <= tokens[j].sequence < |h| && 0 <= tokens[j].position < |h[tokens[j].sequence]|
    requires i < |CpuRuntime.Outputs(k, c, h, tokens, n)|
    ensures 0 <= CpuRuntime.Outputs(k, c, h, tokens, n)[i].token < c.vocabulary
  {
    if n == 0 {
    } else if i < |CpuRuntime.Outputs(k, c, h, tokens, n - 1)| {
      OutputSampled(k, c, h, tokens, n - 1, i);
    }
  }

  /** For every batch the engine may plan, the CPU runtime's outputs are the answers the engine takes them for. */
  lemma EngineBatchAnswered(engine: Engine, slices: seq<Scheduling.Slice>, k: Transformer.Kernels,
                            c: CpuRuntime.RuntimeConfig, eog: int -> bool)
    requires engine.Settled() && SlicesOk(engine.active, slices)
    ensures var batch := BatchOf(engine.active, slices);
            var h := HistoriesAfter(engine.runner.histories, batch);
      && (forall j :: 0 <= j < |batch| ==>
            0 <= batch[j].sequence < |h| && 0 <= batch[j].position < |h[batch[j].sequence]|)
      && Honest(ModelOf(k, c, eog), h, batch, SamplesOf(CpuRuntime.Outputs(k, c, h, batch, |batch|)))
      && ((forall x :: 0 <= k.greedy(x) < c.vocabulary) ==>
            Answers(SamplesOf(CpuRuntime.Outputs(k, c, h, batch, |batch|)), Asked(batch), c.vocabulary))
  {
    hide Engine.Lifecycle, Engine.OnTrack, Engine.Queued, ActiveInStep, ItemsKnown, SliceOk, BatchOf, HistoriesAfter,
         Apart, Answers, Honest, Asked, Questions, CpuRuntime.Outputs, AsksFor;
    engine.ItemsAreKnown();
    engine.ItemsApart();
    BatchPlaces(engine.active, slices, engine.handles, engine.runner.histories, engine.model, engine.config);
    CpuIsHonest(k, c, eog, HistoriesAfter(engine.runner.histories, BatchOf(engine.active, slices)),
                BatchOf(engine.active, slices));
    BatchAsks(engine.active, slices);
    if forall x :: 0 <= k.greedy(x) < c.vocabulary {
      OutputsPass(k, c, HistoriesAfter(engine.runner.histories, BatchOf(engine.active, slices)),
                  BatchOf(engine.active, slices));
    }
  }
}

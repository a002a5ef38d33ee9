/** One batch as a step of the runner (src/engine.cpp:427-479): it is well-formed, stays within the items' credits, and
    leaves every item in step, samples pending where they were asked for. */
module EngineFeeds {
  import opened Arithmetic
  import opened Outcomes
  import opened RefCounts
  import opened Requests
  import opened Batches
  import opened BlockPools
  import opened PrefixIndexes
  import opened Runners
  import opened EngineState
  import opened EngineCredits
  import opened EngineBatches
  import opened EngineSync
  import opened EngineLaws
  import opened Credits
  import Scheduling

  ghost predicate ItemsKnown(active: seq<Item>, m: Model, c: Config)
    requires c.blockSize > 0
  {
    forall i :: 0 <= i < |active| && !active[i].done ==>
      RequestOk(active[i].request, m, c)
      && |active[i].blocks| == CeilDiv(|active[i].request.prompt| + active[i].request.maxTokens, c.blockSize)
  }

  lemma SliceContinues(active: seq<Item>, slices: seq<Scheduling.Slice>, handles: Handles, h: Histories, m: Model,
                       c: Config, i: nat)
    requires c.blockSize > 0 && SlicesOk(active, slices) && ActiveInStep(active, handles, h, m, {}, {})
             && ItemsKnown(active, m, c)
    requires i < |slices|
    ensures SliceOk(active, slices[i])
    ensures var it := Served(active, slices[i]);
      && Continues(it, slices[i], h, m.vocabulary, c.maxModelLen)
      && |h[it.sequence]| + |FedTokens(it, slices[i])| <= |it.blocks| * c.blockSize
  {
    assert SliceOk(active, slices[i]);
    var it := Served(active, slices[i]);
    assert InStep(it, handles, h, m, {}, {});
    hide InStep, RequestOk, CeilDiv, ActiveInStep;
    StepContinues(it, slices[i], handles, h, m, c);
    CeilDivBounds(|it.request.prompt| + it.request.maxTokens, c.blockSize);
  }

  lemma AllContinue(active: seq<Item>, slices: seq<Scheduling.Slice>, handles: Handles, h: Histories, m: Model,
                    c: Config)
    requires c.blockSize > 0 && SlicesOk(active, slices) && ActiveInStep(active, handles, h, m, {}, {})
             && ItemsKnown(active, m, c)
    ensures forall i :: 0 <= i < |slices| ==>
              Continues(Served(active, slices[i]), slices[i], h, m.vocabulary, c.maxModelLen)
  {
    forall i | 0 <= i < |slices| ensures Continues(Served(active, slices[i]), slices[i], h, m.vocabulary,
                                                   c.maxModelLen) {
      SliceContinues(active, slices, handles, h, m, c, i);
    }
  }

  /** No slot outgrows its credits. */
  lemma FeedFits(active: seq<Item>, slices: seq<Scheduling.Slice>, handles: Handles, h: Histories, after: Histories,
                 table: seq<seq<nat>>, cap: Capacity, m: Model, c: Config, s: nat)
    requires c.blockSize > 0 && SlicesOk(active, slices) && ActiveInStep(active, handles, h, m, {}, {})
             && ItemsKnown(active, m, c)
    requires FedAs(active, slices, h, after) && Sound(View(h, table), cap) && cap.blockSize == c.blockSize
    requires forall i :: 0 <= i < |active| && !active[i].done ==>
               active[i].sequence < |table| && table[active[i].sequence] == active[i].blocks
    requires s < |table|
    ensures s < |after| && |after[s]| <= |table[s]| * c.blockSize
  {
    assert SlotOk(View(h, table), cap, s);
    if i :| 0 <= i < |slices| && Served(active, slices[i]).sequence == s {
      SliceContinues(active, slices, handles, h, m, c, i);
    }
  }

  lemma FeedLegal(active: seq<Item>, slices: seq<Scheduling.Slice>, handles: Handles, h: Histories,
                  table: seq<seq<nat>>, cap: Capacity, m: Model, c: Config)
    requires c.blockSize > 0 && SlicesOk(active, slices) && ActiveInStep(active, handles, h, m, {}, {})
             && ItemsKnown(active, m, c)
    requires forall i, j :: 0 <= i < j < |active| ==> Apart(active, i, j)
    requires forall i :: 0 <= i < |active| && !active[i].done ==>
               active[i].sequence < |table| && table[active[i].sequence] == active[i].blocks
    requires Sound(View(h, table), cap)
             && cap == Capacity(c.blockSize, cap.blocks, m.vocabulary, c.maxModelLen, c.batchTokens)
    requires slices != [] && Scheduling.TokensOf(slices) <= c.batchTokens
    ensures FedAs(active, slices, h, HistoriesAfter(h, BatchOf(active, slices)))
    ensures Legal(View(h, table), cap, Feed(BatchOf(active, slices)))
  {
    hide ActiveInStep, ItemsKnown, Apart, Sound, WellFormed, HistoriesAfter, Continues, FedAs, BatchOf, Legal, SliceOk,
         Scheduling.TokensOf, Lengths;
    var batch := BatchOf(active, slices);
    var after := HistoriesAfter(h, batch);
    AllContinue(active, slices, handles, h, m, c);
    BatchFeeds(active, slices, h, m.vocabulary, c.maxModelLen);
    BatchSize(active, slices);
    SomeTokens(active, slices);
    SoundSizes(View(h, table), cap);
    forall s | 0 <= s < |table| ensures |after[s]| <= |table[s]| * c.blockSize {
      FeedFits(active, slices, handles, h, after, table, cap, m, c, s);
    }
    FeedIsLegal(View(h, table), cap, batch);
  }

  lemma FeedIsLegal(v: View, cap: Capacity, batch: seq<InputToken>)
    requires cap.blockSize > 0 && |v.histories| == |v.blocks| && 0 < |batch| <= cap.batchTokens
    requires WellFormed(Lengths(v.histories), batch, cap.vocabulary, cap.maxModelLen)
    requires forall s :: 0 <= s < |v.blocks| ==>
               |HistoriesAfter(v.histories, batch)[s]| <= |v.blocks[s]| * cap.blockSize
    ensures Legal(v, cap, Feed(batch))
  {
  }

  lemma SoundSizes(v: View, cap: Capacity)
    requires Sound(v, cap)
    ensures |v.histories| == |v.blocks|
  {
  }

  lemma SomeTokens(active: seq<Item>, slices: seq<Scheduling.Slice>)
    requires SlicesOk(active, slices) && slices != []
    ensures Scheduling.TokensOf(slices) > 0
  {
    assert SliceOk(active, slices[0]);
  }

  /** Slots without a scheduled item are not touched. */
  lemma FeedSlots(active: seq<Item>, slices: seq<Scheduling.Slice>, h: Histories, after: Histories,
                  refs: seq<nat>, table: seq<seq<nat>>, entries: map<int, Entry>, tokenCount: nat, free: seq<nat>,
                  freeCache: seq<nat>, c: Config)
    requires SlicesOk(active, slices) && FedAs(active, slices, h, after) && SlotsInStep(entries, free, freeCache, h, c)
    requires Balanced(refs, table, active, entries, tokenCount, free, freeCache, c)
    ensures SlotsInStep(entries, free, freeCache, after, c)
  {
    forall s | 0 <= s < |h| && s !in BusySlots(active) ensures after[s] == h[s] {
      forall i | 0 <= i < |slices| ensures Served(active, slices[i]).sequence != s {
        assert SliceOk(active, slices[i]);
      }
    }
    hide FedAs, SlicesOk, CreditsExact, Apart;
    forall s | s in entries && 0 <= s < |h| ensures s !in BusySlots(active) {
    }
    forall s | s in freeCache && s < |h| ensures s !in BusySlots(active) {
    }
  }

  /** The whole step: legal, traced, and every item in step afterwards. */
  lemma FeedFollows(active: seq<Item>, slices: seq<Scheduling.Slice>, handles: Handles, trace: seq<Step>, h: Histories,
                    refs: seq<nat>, table: seq<seq<nat>>, entries: map<int, Entry>, tokenCount: nat, free: seq<nat>,
                    freeCache: seq<nat>,
                    m: Model, c: Config)
    requires c.blockSize > 0 && SlicesOk(active, slices) && ActiveInStep(active, handles, h, m, {}, {})
             && ItemsKnown(active, m, c)
    requires Balanced(refs, table, active, entries, tokenCount, free, freeCache, c)
    requires Following(trace, h, table, refs, entries, free, freeCache, m, c)
    requires slices != [] && Scheduling.TokensOf(slices) <= c.batchTokens
    ensures var batch := BatchOf(active, slices);
            var after := HistoriesAfter(h, batch);
      && Following(trace + [Feed(batch)], after, table, refs, entries, free, freeCache, m, c)
      && ActiveInStep(EngineSync.Booked(active, slices), handles, after, m, {}, Asked(batch))
      && AsksFor(active, slices, Asked(batch)) && |Asked(batch)| == Questions(batch)
  {
    hide ActiveInStep, ItemsKnown, Apart, Sound, HistoriesAfter, FedAs, BatchOf, Asked, Questions, EngineSync.Booked,
         SliceOk, AsksFor, LegalRun, Replay, Legal, SlotsInStep, CreditsExact, SlotsExact, CacheSlotsExact, EmptyView,
         InStep, RequestOk, CeilDiv;
    var cap := Cap(refs, m, c);
    var batch := BatchOf(active, slices);
    EmptySound(cap, Slots(c));
    RunSound(EmptyView(Slots(c)), cap, trace);
    FeedLegal(active, slices, handles, h, table, cap, m, c);
    TraceFeed(trace, h, table, cap, Slots(c), batch);
    FeedSlots(active, slices, h, HistoriesAfter(h, batch), refs, table, entries, tokenCount, free, freeCache, c);
    BatchAsks(active, slices);
    BatchInStep(active, slices, handles, h, HistoriesAfter(h, batch), m, Asked(batch));
  }

  // ---- where a batch asks ---------------------------------------------------------------------

  /** Logits are only asked for at the end of a sequence. */
  ghost predicate AsksAtEnd(tokens: seq<InputToken>, h: Histories) {
    forall i :: 0 <= i < |tokens| && tokens[i].logits ==>
      0 <= tokens[i].sequence < |h| && tokens[i].position + 1 == |h[tokens[i].sequence]|
  }

  lemma {:induction false} PartAsksAtEnd(active: seq<Item>, slices: seq<Scheduling.Slice>, h: Histories,
                                         after: Histories,
                                         vocabulary: nat, maxPosition: nat, n: nat)
    requires SlicesOk(active, slices) && n <= |slices| && FedAs(active, slices, h, after)
    requires forall i :: 0 <= i < |slices| ==>
               Continues(Served(active, slices[i]), slices[i], h, vocabulary, maxPosition)
    ensures SlicesOk(active, slices[..n]) && AsksAtEnd(BatchOf(active, slices[..n]), after)
  {
    hide AsksAtEnd, Continues, SlicesOk, SliceTokens, SliceOk, FedTokens;
    PartOk(active, slices, n);
    if n == 0 {
      NoQuestions(BatchOf(active, slices[..n]), after);
    } else {
      PartAsksAtEnd(active, slices, h, after, vocabulary, maxPosition, n - 1);
      var part := slices[..n];
      assert part[..n - 1] == slices[..n - 1] && part[n - 1] == slices[n - 1];
      BatchSnoc(active, part);
      var it := Served(active, slices[n - 1]);
      ContinuesSlot(it, slices[n - 1], h, vocabulary, maxPosition);
      SliceAsksAtEnd(it, slices[n - 1], h, after, vocabulary, maxPosition);
      JoinAsks(BatchOf(active, slices[..n - 1]), SliceTokens(it, slices[n - 1]), after);
    }
  }

  lemma ContinuesSlot(it: Item, s: Scheduling.Slice, h: Histories, vocabulary: nat, maxPosition: nat)
    requires s.prefill ==> s.tokens <= |it.request.prompt| - it.processed
    requires Continues(it, s, h, vocabulary, maxPosition)
    ensures it.sequence < |h|
  {
  }

  lemma NoQuestions(tokens: seq<InputToken>, h: Histories)
    requires tokens == []
    ensures AsksAtEnd(tokens, h)
  {
  }

  lemma SliceAsksAtEnd(it: Item, s: Scheduling.Slice, h: Histories, after: Histories, vocabulary: nat, maxPosition: nat)
    requires if s.prefill then s.tokens <= |it.request.prompt| - it.processed else it.generated > 0
    requires Continues(it, s, h, vocabulary, maxPosition) && it.sequence < |after|
             && after[it.sequence] == h[it.sequence] + FedTokens(it, s)
    ensures AsksAtEnd(SliceTokens(it, s), after)
  {
  }

  lemma JoinAsks(a: seq<InputToken>, b: seq<InputToken>, h: Histories)
    requires AsksAtEnd(a, h) && AsksAtEnd(b, h)
    ensures AsksAtEnd(a + b, h)
  {
  }

  /** Every token of an engine's batch lands in its sequence, and logits are asked for at the ends only. */
  lemma BatchPlaces(active: seq<Item>, slices: seq<Scheduling.Slice>, handles: Handles, h: Histories, m: Model,
                    c: Config)
    requires c.blockSize > 0 && SlicesOk(active, slices) && ActiveInStep(active, handles, h, m, {}, {})
             && ItemsKnown(active, m, c)
    requires forall i, j :: 0 <= i < j < |active| ==> Apart(active, i, j)
    ensures var batch := BatchOf(active, slices);
            var after := HistoriesAfter(h, batch);
      && AsksAtEnd(batch, after)
      && forall j :: 0 <= j < |batch| ==>
           0 <= batch[j].sequence < |after| && 0 <= batch[j].position < |after[batch[j].sequence]|
  {
    hide ActiveInStep, ItemsKnown, Apart, HistoriesAfter, BatchOf, SliceOk, FedAs, Continues, AsksAtEnd, WellFormed;
    var batch := BatchOf(active, slices);
    AllContinue(active, slices, handles, h, m, c);
    BatchFeeds(active, slices, h, m.vocabulary, c.maxModelLen);
    PartAsksAtEnd(active, slices, h, HistoriesAfter(h, batch), m.vocabulary, c.maxModelLen, |slices|);
    assert slices[..|slices|] == slices;
    forall j | 0 <= j < |batch|
      ensures 0 <= batch[j].sequence < |HistoriesAfter(h, batch)|
              && 0 <= batch[j].position < |HistoriesAfter(h, batch)[batch[j].sequence]|
    {
      TokenInHistory(h, batch, m.vocabulary, c.maxModelLen, j);
    }
  }
}

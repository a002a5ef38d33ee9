/** Pure steps behind the engine's methods: shapes of queues and lists, and what single changes make of them. */
module EngineSteps {
  import opened Arithmetic
  import opened Outcomes
  import opened RefCounts
  import opened Requests
  import opened Batches
  import opened BlockPools
  import opened PrefixIndexes
  import opened Runners
  import opened EngineState
  import opened EngineBatches
  import opened EngineSync
  import opened EngineLaws
  import opened EngineWork
  import opened EngineSamples
  import opened Decimals
  import Scheduling

  function NewItem(r: Request, slot: nat, blocks: seq<nat>, reused: nat): Item {
    Item(r, slot, blocks, reused, 0, reused, 0, false)
  }

  lemma GrantedLive(refs: seq<nat>, granted: seq<nat>, held: seq<nat>)
    requires LiveTable(refs, held) && forall b :: 0 <= b < |refs| ==> refs[b] < MAX_REFS
    ensures LiveTable(Granted(refs, granted), held)
    ensures forall i :: 0 <= i < |held| ==> Granted(refs, granted)[held[i]] != MAX_REFS
  {
  }

  /** The least recently used entry. */
  ghost predicate Oldest(entries: map<int, Entry>, s: int) {
    s in entries && forall t :: t in entries && t != s ==> entries[s].lastUsed < entries[t].lastUsed
  }

  /** Some entries are gone, all others are as they were: those gone were used before those left, `e` last. */
  ghost predicate OldestGone(before: map<int, Entry>, after: map<int, Entry>, e: Entry) {
    && e.sequence in before && e.sequence !in after && e == before[e.sequence]
    && (forall s :: s in after ==> s in before && after[s] == before[s] && e.lastUsed < after[s].lastUsed)
    && forall s :: s in before && s !in after ==> before[s].lastUsed <= e.lastUsed
  }

  lemma NextOldest(before: map<int, Entry>, entries: map<int, Entry>, last: Option<Entry>, after: map<int, Entry>,
                   e: Entry)
    requires if last.Some? then OldestGone(before, entries, last.value) else entries == before
    requires Oldest(entries, e.sequence) && e == entries[e.sequence] && after == entries - {e.sequence}
    ensures OldestGone(before, after, e)
  {
  }

  /** What is left of the entries is as it was, except for when it was last used, which was after `e`; `e` is gone. */
  ghost predicate FewerLeft(before: map<int, Entry>, after: map<int, Entry>, e: Entry) {
    && e.sequence in before && e.sequence !in after && SameEntry(before[e.sequence], e)
    && forall s :: s in after ==> s in before && SameEntry(before[s], after[s]) && e.lastUsed < after[s].lastUsed
  }

  ghost predicate NoneOlder(before: map<int, Entry>, after: map<int, Entry>) {
    forall s :: s in after && s in before ==> before[s].lastUsed <= after[s].lastUsed
  }

  predicate SameEntry(a: Entry, b: Entry) {
    b.tokens == a.tokens && b.blocks == a.blocks && b.space == a.space
  }

  lemma NextGone(before: map<int, Entry>, entries: map<int, Entry>, last: Option<Entry>, left: map<int, Entry>,
                 after: map<int, Entry>, e: Entry)
    requires if last.Some? then FewerLeft(before, entries, last.value) else SameEntries(before, entries)
    requires Oldest(entries, e.sequence) && e == entries[e.sequence] && left == entries - {e.sequence}
    requires SameEntries(left, after) && NoneOlder(left, after)
    ensures FewerLeft(before, after, e)
  {
  }

  ghost predicate SameSlots(h: Histories, h': Histories, n: nat) {
    |h'| == |h| && forall s :: 0 <= s < n && s < |h| ==> h'[s] == h[s]
  }

  /** Nobody who decodes is left out, and if prompts are still to be fed, one of them is. */
  ghost predicate ServedByPlan(active: seq<Item>, slices: seq<Scheduling.Slice>) {
    && (forall i :: 0 <= i < |active| && active[i].processed == |active[i].request.prompt| ==>
          Scheduling.Slice(i, 1, false) in slices)
    && ((exists i :: 0 <= i < |active| && active[i].processed < |active[i].request.prompt|) ==>
          exists s :: s in slices && s.prefill)
  }

  lemma ServesAll(active: seq<Item>, items: seq<Scheduling.ScheduleItem>, c: Scheduling.Limits)
    requires c.agingMs > 0 && c.prefillChunk > 0 && c.policy == Scheduling.Mixed && |active| == |items| <= c.batchTokens
    requires forall i :: 0 <= i < |items| ==>
               items[i].key == i && items[i].prefillRemaining == Minus(|active[i].request.prompt|, active[i].processed)
    ensures ServedByPlan(active, Scheduling.Plan(items, c).slices)
  {
    hide Scheduling.Plan, Scheduling.Queue;
    var slices := Scheduling.Plan(items, c).slices;
    if active != [] {
      Scheduling.MixedServesItems(items, c);
    }
    forall i | 0 <= i < |active|
           && active[i].processed == |active[i].request.prompt| ensures Scheduling.Slice(i, 1, false) in slices {
      assert items[i].prefillRemaining == 0;
    }
    if i :| 0 <= i < |active| && active[i].processed < |active[i].request.prompt| {
      var k := Scheduling.Queued(items, i, c.agingMs);
      var s :| s in slices && Scheduling.ServedSlice(Scheduling.Queue(items, true, c.agingMs)[0], s, c.prefillChunk);
    }
  }

  /** No prefill slice is larger than a chunk. */
  lemma PlanInChunks(items: seq<Scheduling.ScheduleItem>, c: Scheduling.Limits)
    requires c.agingMs > 0 && c.prefillChunk > 0 && c.batchTokens > 0
    ensures forall s :: s in Scheduling.Plan(items, c).slices && s.prefill ==> s.tokens <= c.prefillChunk
  {
    hide Scheduling.Plan, Scheduling.Queue, Scheduling.DecodeServed;
    Scheduling.PlanIsGreedy(items, c);
    var d := Scheduling.DecodeServed(items, c);
    var slices, prefill := Scheduling.Plan(items, c).slices, Scheduling.Queue(items, true, c.agingMs);
    forall j | 0 <= j < |slices| ensures slices[j].prefill ==> slices[j].tokens <= c.prefillChunk {
      if j < d {
        assert slices[..d][j] == slices[j];
      } else {
        assert Scheduling.ServedSlice(prefill[j - d], slices[d..][j - d], c.prefillChunk);
      }
    }
  }

  /** A plan stays within its budget. */
  lemma PlanBudget(items: seq<Scheduling.ScheduleItem>, c: Scheduling.Limits)
    requires c.agingMs > 0 && c.prefillChunk > 0 && c.batchTokens > 0
    ensures Scheduling.TokensOf(Scheduling.Plan(items, c).slices) <= c.batchTokens
    ensures items != [] ==> Scheduling.Plan(items, c).slices != []
  {
    hide Scheduling.Queue, Scheduling.Plan, Scheduling.DecodeServed;
    Scheduling.PlanIsGreedy(items, c);
    var slices, d := Scheduling.Plan(items, c).slices, Scheduling.DecodeServed(items, c);
    DecodeTokens(Scheduling.Queue(items, false, c.agingMs), d);
    TokensAppend(slices[..d], slices[d..]);
    assert slices[..d] + slices[d..] == slices;
  }

  lemma {:induction false} TokensAppend(a: seq<Scheduling.Slice>, b: seq<Scheduling.Slice>)
    ensures Scheduling.TokensOf(a + b) == Scheduling.TokensOf(a) + Scheduling.TokensOf(b)
  {
    if a == [] {
      assert a + b == b;
    } else {
      assert (a + b)[1..] == a[1..] + b;
      TokensAppend(a[1..], b);
    }
  }

  lemma {:induction false} DecodeTokens(decode: seq<Scheduling.ScheduleItem>, n: nat)
    requires n <= |decode|
    ensures Scheduling.TokensOf(Scheduling.DecodeSlices(decode, n)) == n
  {
    if n == 0 {
    } else {
      DecodeTokens(decode, n - 1);
      var r := Scheduling.DecodeSlices(decode, n);
      assert r == Scheduling.DecodeSlices(decode, n - 1) + [r[n - 1]];
      TokensSnoc(Scheduling.DecodeSlices(decode, n - 1), r[n - 1]);
    }
  }

  lemma BookedItemOk(before: Item, it: Item, handles: Handles, c: Config)
    requires c.blockSize > 0 && ItemOk(before, handles, c)
    requires it == before.(processed := it.processed) && before.processed < it.processed <= |it.request.prompt|
    ensures ItemOk(it, handles, c)
  {
    hide CeilDiv, TokensIn;
  }

  /** An item one token further. */
  function Extended(it: Item, token: int): Item {
    it.(lastToken := token, generated := it.generated + 1)
  }

  predicate HasRoom(h: Handle, capacity: nat) {
    |h.log| - h.taken < capacity
  }

  /** Whether and how a request ends with its latest token: refused by the client's buffer, a stop token, or the last
      one allowed. */
  function SampleEnd(m: Model, it: Item, emitted: bool, token: int): Option<(Reason, nat)> {
    if !emitted then Some((Backpressure, 429))
    else if Stops(m, it.request, token) then Some((Stopped, 200))
    else if it.generated >= it.request.maxTokens then Some((Length, 200))
    else None
  }

  /** What a sample makes of its item. */
  function SampledItem(it: Item, h: Handle, token: int, m: Model, capacity: nat): Item {
    var now := Extended(it, token);
    if SampleEnd(m, now, HasRoom(h, capacity), token).Some? then Ended(now) else now
  }

  /** What it makes of the request's log: the token if there is room, then the terminal event if it is over. */
  function SampledHandle(it: Item, h: Handle, token: int, m: Model, capacity: nat): Handle {
    var now := Extended(it, token);
    var sent := if HasRoom(h, capacity) then Logged(h, token, UsageOf(now)) else h;
    match SampleEnd(m, now, HasRoom(h, capacity), token)
    case None => sent
    case Some(e) => sent.(log := sent.log + [Terminal(e.0, e.1, UsageOf(now))])
  }

  /** The same, event by event: a token that finds no room is not sent and ends the request; a token that is sent
      ends it if it is an end-of-generation token that is not ignored, or the last one allowed. */
  lemma SampledMeans(it: Item, h: Handle, token: int, m: Model, capacity: nat)
    ensures var usage := Usage(|it.request.prompt|, it.generated + 1, it.reused);
            var room := |h.log| - h.taken < capacity;
            var stop := m.eog(token) && !it.request.ignoreEos;
            var last := it.generated + 1 >= it.request.maxTokens;
            var after := SampledItem(it, h, token, m, capacity);
      && SampledHandle(it, h, token, m, capacity) == Handle(h.request,
           if !room then h.log + [Terminal(Backpressure, 429, usage)]
           else if stop then h.log + [Event.Token(token, usage)] + [Terminal(Stopped, 200, usage)]
           else if last then h.log + [Event.Token(token, usage)] + [Terminal(Length, 200, usage)]
           else h.log + [Event.Token(token, usage)], h.taken)
      && after.generated == it.generated + 1 && after.lastToken == token && after.request == it.request
      && (after.done <==> it.done || !room || stop || last)
  {
  }

  lemma SampledEffect(before: Handles, middle: Handles, after: Handles, it: Item, token: int, emitted: bool, m: Model,
                      capacity: nat, ended: bool)
    requires it.request.order in before && emitted == HasRoom(before[it.request.order], capacity)
    requires var o, now := it.request.order, Extended(it, token);
      && middle == (if emitted then before[o := Logged(before[o], token, UsageOf(now))] else before)
      && (ended ==> var end := SampleEnd(m, now, emitted, token);
            after == if end.Some? then Closed(middle, o, end.value.0, end.value.1, UsageOf(now)) else middle)
      && (!ended ==> after == middle)
    ensures Grown(before, after)
    ensures ended ==>
              after == before[it.request.order := SampledHandle(it, before[it.request.order], token, m, capacity)]
  {
    var o := it.request.order;
    assert middle.Keys == before.Keys;
    var goal := before[o := SampledHandle(it, before[o], token, m, capacity)];
    assert goal.Keys == before.Keys;
    if ended {
      assert after.Keys == before.Keys;
      forall p | p in before ensures after[p] == goal[p] {
        assert p in middle;
      }
    }
  }

  /** A pending sample of item `i`. */
  ghost predicate AnsweredIn(active: seq<Item>, h: Histories, m: Model, i: nat, token: int, pending: set<int>) {
    && i < |active| && !active[i].done && active[i].sequence in pending
       && active[i].processed == |active[i].request.prompt|
    && active[i].sequence < |h| && token == m.next(h[active[i].sequence]) && 0 <= token < m.vocabulary
  }

  ghost predicate AnswersIn(active: seq<Item>, h: Histories, m: Model, samples: seq<Sample>, j: nat, owners: map<int,
                            nat>)
    requires j <= |samples|
  {
    forall k :: j <= k < |samples| ==>
      && samples[k].sequence in owners && owners[samples[k].sequence] < |active|
      && active[owners[samples[k].sequence]].sequence == samples[k].sequence
      && AnsweredIn(active, h, m, owners[samples[k].sequence], samples[k].token, Sampled(samples[j..]))
  }

  /** An item that has used its sample: it is one token further, or over, or its request has expired. */
  ghost predicate Advanced(before: Item, now: Item, lapsed: set<nat>) {
    && now.request == before.request && now.sequence == before.sequence
    && (now.done || (now.processed == before.processed
                     && (now.generated == before.generated + 1 || (now == before && now.request.order in lapsed))))
  }

  ghost predicate UsedIn(before: seq<Item>, active: seq<Item>, samples: seq<Sample>, j: nat, owners: map<int, nat>,
                         lapsed: set<nat>)
    requires j <= |samples|
  {
    && |active| == |before|
    && (forall i :: 0 <= i < |active| ==> active[i] == before[i] || Advanced(before[i], active[i], lapsed))
    && forall k :: 0 <= k < j ==>
         && samples[k].sequence in owners && owners[samples[k].sequence] < |active|
         && Advanced(before[owners[samples[k].sequence]], active[owners[samples[k].sequence]], lapsed)
  }

  /** Items whose samples are still to come are as before. */
  ghost predicate Unsampled(before: seq<Item>, now: seq<Item>, samples: seq<Sample>, j: nat, owners: map<int, nat>) {
    forall k :: j <= k < |samples| && samples[k].sequence in owners && owners[samples[k].sequence] < |now|
                && |now| == |before| ==>
      now[owners[samples[k].sequence]] == before[owners[samples[k].sequence]]
  }

  lemma UsedLater(before: seq<Item>, active: seq<Item>, samples: seq<Sample>, j: nat, owners: map<int, nat>,
                  lapsed0: set<nat>, lapsed: set<nat>)
    requires j <= |samples| && UsedIn(before, active, samples, j, owners, lapsed0) && lapsed0 <= lapsed
    ensures UsedIn(before, active, samples, j, owners, lapsed)
  {
  }

  lemma UsedStep(before: seq<Item>, active0: seq<Item>, active: seq<Item>, h0: Histories, h: Histories, m: Model,
                 samples: seq<Sample>,
                 j: nat, owners: map<int, nat>, lapsed0: set<nat>, lapsed: set<nat>)
    requires j < |samples| && forall i, k :: 0 <= i < k < |samples| ==> samples[i].sequence != samples[k].sequence
    requires AnswersIn(active0, h0, m, samples, j, owners) && UsedIn(before, active0, samples, j, owners, lapsed0)
             && lapsed0 <= lapsed
    requires Unsampled(before, active0, samples, j, owners) && |active| == |active0| && |h| == |h0|
    requires var n := owners[samples[j].sequence];
      && (forall i :: 0 <= i < |active| && i != n ==> active[i] == active0[i])
      && (forall s :: 0 <= s < |h| && s != active0[n].sequence ==> h[s] == h0[s])
      && Advanced(active0[n], active[n], lapsed)
    ensures AnswersIn(active, h, m, samples, j + 1, owners) && UsedIn(before, active, samples, j + 1, owners, lapsed)
    ensures Unsampled(before, active, samples, j + 1, owners)
  {
    var n := owners[samples[j].sequence];
    SampledTail(samples, j);
    forall k | j + 1 <= k < |samples|
      ensures owners[samples[k].sequence] != n && samples[k].sequence in Sampled(samples[j + 1..])
    {
      SampledMember(samples, j + 1, k);
    }
  }

  lemma AnswersApart(samples: seq<Sample>, asked: set<int>, vocabulary: nat)
    requires Answers(samples, asked, vocabulary)
    ensures forall i, k :: 0 <= i < k < |samples| ==> samples[i].sequence != samples[k].sequence
  {
  }

  lemma Excuse(active: seq<Item>, handles: Handles, h: Histories, m: Model, excused: set<nat>, excused': set<nat>,
               pending: set<int>)
    requires ActiveInStep(active, handles, h, m, excused, pending) && excused <= excused'
    ensures ActiveInStep(active, handles, h, m, excused', pending)
  {
    SameLogs(active, handles, handles, h, h, m, excused, excused', pending);
  }

  /** Nobody has more left to do after a batch, and whoever was scheduled has less. */
  lemma WorkDone(active0: seq<Item>, slices: seq<Scheduling.Slice>, asked: set<int>, samples: seq<Sample>,
                 owners: map<int, nat>,
                 active: seq<Item>, lapsed: set<nat>, m: Model)
    requires SlicesOk(active0, slices) && slices != [] && AsksFor(active0, slices, asked)
             && Answers(samples, asked, m.vocabulary)
    requires forall i :: 0 <= i < |active0| ==>
               !active0[i].done && active0[i].processed <= |active0[i].request.prompt|
               && active0[i].generated < active0[i].request.maxTokens
    requires forall k :: 0 <= k < |slices| ==>
               SliceOk(active0, slices[k]) && Served(active0, slices[k]).sequence in owners
               && owners[Served(active0, slices[k]).sequence] == slices[k].key
    requires UsedIn(Booked(active0, slices), active, samples, |samples|, owners, lapsed)
    ensures ActiveWork(active, lapsed) < ActiveWork(active0, {})
  {
    hide ActiveWork, Booked, Answers, SlicesOk, AsksFor, Sampled;
    forall i | 0 <= i < |active| ensures ItemWork(active[i], lapsed) <= ItemWork(active0[i], {}) {
      BookedShape(active0, slices, i);
    }
    ServedWork(active0, slices, asked, samples, owners, active, lapsed, m);
    WorkPointwise(active0, active, {}, lapsed);
  }

  lemma ServedWork(active0: seq<Item>, slices: seq<Scheduling.Slice>, asked: set<int>, samples: seq<Sample>,
                   owners: map<int, nat>,
                   active: seq<Item>, lapsed: set<nat>, m: Model)
    requires SlicesOk(active0, slices) && slices != [] && AsksFor(active0, slices, asked)
             && Answers(samples, asked, m.vocabulary)
    requires forall i :: 0 <= i < |active0| ==>
               !active0[i].done && active0[i].processed <= |active0[i].request.prompt|
               && active0[i].generated < active0[i].request.maxTokens
    requires forall k :: 0 <= k < |slices| ==>
               SliceOk(active0, slices[k]) && Served(active0, slices[k]).sequence in owners
               && owners[Served(active0, slices[k]).sequence] == slices[k].key
    requires UsedIn(Booked(active0, slices), active, samples, |samples|, owners, lapsed)
    ensures |active| == |active0| && slices[0].key < |active|
            && ItemWork(active[slices[0].key], lapsed) < ItemWork(active0[slices[0].key], {})
  {
    hide Booked, Sampled;
    var s := slices[0];
    var i := s.key;
    assert SliceOk(active0, s);
    BookedAt(active0, slices, i);
    if !s.prefill {
      AnswersAll(samples, asked, m.vocabulary);
      assert Completes(active0, s);
      SampledIndex(samples, Served(active0, s).sequence);
      var k :| 0 <= k < |samples| && samples[k].sequence == Served(active0, s).sequence;
      assert Advanced(Booked(active0, slices)[i], active[i], lapsed);
    }
  }

  lemma SampledIndex(samples: seq<Sample>, s: int)
    requires s in Sampled(samples)
    ensures exists k :: 0 <= k < |samples| && samples[k].sequence == s
  {
  }

  /** The slice whose item is asked for a sample; with it, the item's prompt is fed completely. */
  lemma CompletingSlice(active0: seq<Item>, slices: seq<Scheduling.Slice>, asked: set<int>, s: int) returns (t: nat)
    requires SlicesOk(active0, slices) && AsksFor(active0, slices, asked) && s in asked
    ensures t < |slices| && SliceOk(active0, slices[t]) && Served(active0, slices[t]).sequence == s
            && slices[t].key < |active0|
    ensures var it := Booked(active0, slices)[slices[t].key];
      it.sequence == s && it.processed == |it.request.prompt|
  {
    var k: int :| 0 <= k < |slices| && Completes(active0, slices[k]) && Served(active0, slices[k]).sequence == s;
    t := k;
    BookedShape(active0, slices, slices[t].key);
    BookedAt(active0, slices, slices[t].key);
  }

  lemma PendingAgree(it: Item, handles: Handles, h: Histories, h': Histories, m: Model, pending: set<int>)
    requires InStep(it, handles, h, m, {}, pending) && InStep(it, handles, h', m, {}, pending) && it.sequence in pending
    ensures it.sequence < |h| && it.sequence < |h'| && h[it.sequence] == h'[it.sequence]
  {
  }

  lemma {:induction false} NoneLive(active: seq<Item>)
    requires forall i :: 0 <= i < |active| ==> active[i].done
    ensures Live(active) == []
  {
    if active == [] {
    } else {
      NoneLive(active[..|active| - 1]);
    }
  }

  lemma NoneLiveOrders(active: seq<Item>)
    requires active == []
    ensures LiveOrders(active) == {}
  {
  }

  lemma Shift(r: Request, rest: seq<Request>, queue: seq<Request>)
    requires queue == [r] + rest
    ensures queue == [] + [r] + rest && [] + rest == rest
    ensures forall x :: x in rest ==> x in queue
    ensures forall x :: x in queue && x != r ==> x in rest
  {
  }

  /** A list of all numbers of a range, each once, is as long as the range. */
  lemma ListedRange(ids: seq<nat>, base: nat, count: nat)
    requires Distinct(ids) && forall s: nat :: s in ids <==> base <= s < base + count
    ensures |ids| == count
  {
    SetOfDistinct(ids);
    assert SetOf(ids) + Below(base) == Below(base + count);
    assert SetOf(ids) !! Below(base);
  }

  lemma WholeQueue(waiting: seq<Request>, incoming: seq<Request>)
    requires incoming == []
    ensures waiting + incoming == waiting[0..] && waiting[|waiting|..] == []
  {
  }

  lemma QueueTail(waiting: seq<Request>, i: nat)
    requires i < |waiting|
    ensures waiting[i..] != [] && waiting[i..][0] == waiting[i] && waiting[i..][1..] == waiting[i + 1..]
  {
  }

  lemma HeadKnown(queue: seq<Request>, handles: Handles, registry: map<string, nat>, nextOrder: nat, accepted: nat,
                  ended: Counters,
                  active: seq<Item>, m: Model, c: Config)
    requires c.blockSize > 0 && queue != []
             && Accounted(handles, registry, nextOrder, accepted, ended, queue, active, m, c)
    ensures queue == [queue[0]] + queue[1..] && queue[0].order in handles
    ensures handles[queue[0].order].taken <= |handles[queue[0].order].log|
  {
    hide LogsOk, Registered, ItemsOk, Tracked;
    assert QueuedOk(queue[0], handles);
    LogBounds(handles, m, c, queue[0].order);
  }

  lemma NewName(seen: set<string>, n: nat)
    requires forall s :: s in seen ==> exists k: nat {:trigger Decimal(k)} :: k < n && s == "cmpl-" + Decimal(k)
    ensures "cmpl-" + Decimal(n) !in seen
  {
    var id := "cmpl-" + Decimal(n);
    if id in seen {
      var k: nat :| k < n && id == "cmpl-" + Decimal(k);
      assert id[5..] == Decimal(k) && id[5..] == Decimal(n);
      DecimalInjective(k, n);
    }
  }

  /** A client taking events changes no item. */
  lemma TakenItems(handles: Handles, active: seq<Item>, o: nat, value: Handle, c: Config)
    requires c.blockSize > 0 && ItemsOk(active, handles, c) && o in handles
             && value == handles[o].(taken := value.taken)
    ensures ItemsOk(active, handles[o := value], c) && SameSent(active, handles, handles[o := value])
  {
    hide CeilDiv, TokensIn;
    forall i | 0 <= i < |active| && !active[i].done ensures ItemOk(active[i], handles[o := value], c) {
      assert ItemOk(active[i], handles, c);
    }
  }

  lemma NoneLeft(samples: seq<Sample>)
    ensures Sampled(samples[|samples|..]) == {}
  {
  }

  lemma BlocksHold(n: nat, total: nat, d: nat)
    requires d > 0 && n <= total
    ensures n / d <= CeilDiv(total, d)
  {
    DivMonotone(n, total + d - 1, d);
  }

  lemma FewerEntries(entries: map<int, Entry>, s: int)
    requires s in entries
    ensures |entries - {s}| < |entries|
  {
    assert (entries - {s}).Keys == entries.Keys - {s};
  }

  lemma SameSizeEntries(entries: map<int, Entry>, entries': map<int, Entry>)
    requires SameEntries(entries, entries')
    ensures |entries'| == |entries|
  {
    forall s ensures s in entries.Keys <==> s in entries'.Keys {
      assert s in entries' <==> s in entries;
    }
    assert entries.Keys == entries'.Keys;
  }

  function Ranked(r: Request, age: int): Scheduling.ScheduleItem {
    Scheduling.ScheduleItem(0, 0, r.priority, age, r.order)
  }

  /** In order of aged priority, then of submission. */
  ghost predicate QueueOrder(queue: seq<Request>, ages: seq<int>, agingMs: nat)
    requires agingMs > 0
  {
    && |ages| == |queue|
    && forall i, j :: 0 <= i < j < |queue| ==>
         var p := queue[i].priority + if ages[i] >= agingMs then ages[i] / agingMs else 0;
         var q := queue[j].priority + if ages[j] >= agingMs then ages[j] / agingMs else 0;
         p > q || (p == q && queue[i].order <= queue[j].order)
  }

  lemma RankedOrder(queue: seq<Request>, ages: seq<int>, agingMs: nat)
    requires agingMs > 0 && |ages| == |queue|
    requires forall i, j :: 0 <= i < j < |queue| ==>
               !Scheduling.Before(Ranked(queue[j], ages[j]), Ranked(queue[i], ages[i]), agingMs)
    ensures QueueOrder(queue, ages, agingMs)
  {
    hide Scheduling.Before;
    forall i, j | 0 <= i < j < |queue|
      ensures var p := queue[i].priority + if ages[i] >= agingMs then ages[i] / agingMs else 0;
              var q := queue[j].priority + if ages[j] >= agingMs then ages[j] / agingMs else 0;
              p > q || (p == q && queue[i].order <= queue[j].order)
    {
      Scheduling.BeforeMeans(Ranked(queue[j], ages[j]), Ranked(queue[i], ages[i]), agingMs);
    }
  }

  function Picked(items: seq<Scheduling.ScheduleItem>, w: seq<Request>): (r: seq<Request>)
    requires forall i :: 0 <= i < |items| ==> items[i].key < |w|
    ensures |r| == |items| && forall i :: 0 <= i < |items| ==> r[i] == w[items[i].key]
  {
    seq(|items|, i requires 0 <= i < |items| => w[items[i].key])
  }

  /** Sorting the items sorts the requests they stand for. */
  lemma SortedPicks(items: seq<Scheduling.ScheduleItem>, sorted: seq<Scheduling.ScheduleItem>, w: seq<Request>)
    requires |items| == |w| && multiset(sorted) == multiset(items)
    requires forall i :: 0 <= i < |items| ==>
               items[i].key == i && items[i].priority == w[i].priority && items[i].order == w[i].order
    ensures forall i :: 0 <= i < |sorted| ==>
              sorted[i].key < |w| && sorted[i].priority == w[sorted[i].key].priority
              && sorted[i].order == w[sorted[i].key].order
    ensures multiset(Picked(sorted, w)) == multiset(w)
  {
    forall i | 0 <= i < |sorted|
      ensures sorted[i].key < |w| && sorted[i].priority == w[sorted[i].key].priority
              && sorted[i].order == w[sorted[i].key].order
    {
      assert sorted[i] in multiset(sorted);
      assert sorted[i] in items;
    }
    PickedPermuted(items, sorted, w);
    assert Picked(items, w) == w;
  }

  lemma {:induction false} PickedPermuted(a: seq<Scheduling.ScheduleItem>, b: seq<Scheduling.ScheduleItem>,
                                          w: seq<Request>)
    requires multiset(a) == multiset(b)
    requires (forall i :: 0 <= i < |a| ==> a[i].key < |w|) && forall i :: 0 <= i < |b| ==> b[i].key < |w|
    ensures multiset(Picked(a, w)) == multiset(Picked(b, w))
    decreases |a|
  {
    assert |multiset(a)| == |a| && |multiset(b)| == |b|;
    if a == [] {
    } else {
      var n := |a| - 1;
      assert a[n] in multiset(a);
      var i :| 0 <= i < |b| && b[i] == a[n];
      Removed(a, n);
      Removed(b, i);
      assert a[..n] + a[n + 1..] == a[..n];
      PickedPermuted(a[..n], b[..i] + b[i + 1..], w);
      PickedWithout(b, i, w);
      PickedWithout(a, n, w);
    }
  }

  lemma PickedWithout(b: seq<Scheduling.ScheduleItem>, i: nat, w: seq<Request>)
    requires i < |b| && forall k :: 0 <= k < |b| ==> b[k].key < |w|
    ensures multiset(Picked(b, w)) == multiset(Picked(b[..i] + b[i + 1..], w)) + multiset{w[b[i].key]}
  {
    var p := Picked(b, w);
    Removed(p, i);
    assert p[i] in multiset(p);
    assert Picked(b[..i] + b[i + 1..], w) == p[..i] + p[i + 1..];
  }

  lemma InitLast(active: seq<Item>)
    requires active != []
    ensures active == active[..|active| - 1] + [active[|active| - 1]]
  {
  }

  lemma DequeueShape(w: seq<Request>, i: nat, c: seq<Request>)
    requires i < |w|
    ensures w + c == w[..i] + [w[i]] + (w[i + 1..] + c)
    ensures w[..i] + w[i + 1..] + c == w[..i] + (w[i + 1..] + c)
  {
    assert w == w[..i] + [w[i]] + w[i + 1..];
  }

  lemma LastIsLive(active: seq<Item>)
    requires active != [] && !active[|active| - 1].done
    ensures active[|active| - 1].request.order in LiveOrders(active)
  {
  }

  lemma Without(a: seq<Request>, r: Request, b: seq<Request>)
    ensures forall x :: x in a + b ==> x in a + [r] + b
    ensures forall x :: x in a + [r] + b && x != r ==> x in a + b
  {
  }

  lemma NoOrders(queue: seq<Request>)
    requires queue == []
    ensures Orders(queue) == {}
  {
  }

  lemma NothingSeen(waiting: seq<Request>, incoming: seq<Request>)
    ensures [] + waiting[0..] + incoming == waiting + incoming && [] + waiting[0..] == waiting
  {
  }

  lemma AllSeen(survivors: seq<Request>, waiting: seq<Request>, incoming: seq<Request>)
    ensures survivors + waiting[|waiting|..] + incoming == survivors + incoming
            && survivors + waiting[|waiting|..] == survivors
  {
  }

  lemma Regroup(a: seq<Request>, q: seq<Request>, i: nat, c: seq<Request>)
    requires i < |q|
    ensures a + q[i..] + c == a + [q[i]] + (q[i + 1..] + c)
    ensures a + [q[i]] + q[i + 1..] + c == a + q[i..] + c
    ensures a + (q[i + 1..] + c) == a + q[i + 1..] + c
    ensures a + [q[i]] + q[i + 1..] == a + q[i..]
    ensures QueueWork(a + q[i + 1..]) <= QueueWork(a + q[i..])
  {
    hide QueueWork;
    assert q[i..] == [q[i]] + q[i + 1..];
    QueueAppend(a, q[i..]);
    QueueAppend([q[i]], q[i + 1..]);
    QueueAppend(a, q[i + 1..]);
  }

  lemma ClosedSame(active: seq<Item>, handles: Handles, o: nat, reason: Reason, status: nat, usage: Usage)
    requires o in handles && o !in LiveOrders(active)
    ensures SameSent(active, handles, Closed(handles, o, reason, status, usage))
  {
    hide Sent, LiveOrders;
    OthersUnchanged(active, handles, o,
                    handles[o].(log := handles[o].log + [Requests.Terminal(reason, status, usage)]));
  }
}

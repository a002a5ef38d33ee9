/** The serving engine's worker (src/engine.cpp): admission, scheduling, execution, sampling, prefix caching, endings
    and shutdown, with a runner that may fail at any call. */
module Engines {
  import opened Arithmetic
  import opened Outcomes
  import opened RefCounts
  import opened Requests
  import opened Batches
  import opened BlockPools
  import opened PrefixIndexes
  import opened Runners
  import opened EngineState
  import opened EngineCredits
  import opened EngineBatches
  import opened EngineSync
  import opened EngineLaws
  import opened EngineWork
  import opened EngineFeeds
  import opened EngineSamples
  import opened EngineSteps
  import Credits
  import EngineAdmission
  import Scheduling
  import opened Decimals

  datatype Input = Input(id: string, prompt: seq<int>, maxTokens: nat, priority: int, timeoutMs: int, ignoreEos: bool,
                         space: string)

  /** Why a submission is refused, with the status reported to the client. */
  datatype Refusal =
    | InvalidRequest
    | ContextLengthExceeded
    | InvalidToken
    | Unavailable
    | QueueFull
    | DuplicateId

  function StatusOf(r: Refusal): nat {
    match r
    case InvalidRequest | ContextLengthExceeded | InvalidToken => 422
    case Unavailable => 503
    case QueueFull => 429
    case DuplicateId => 409
  }

  datatype Submission = Accepted(request: Request) | Rejected(refusal: Refusal, status: nat)

  function BlockCount(c: Config): (n: nat)
    requires Validated(c)
    ensures 0 < n <= MAX_BLOCKS && n * c.blockSize == c.contextTokens
  {
    BlocksCover(c.contextTokens, c.blockSize);
    c.contextTokens / c.blockSize
  }

  lemma BlocksCover(n: nat, d: nat)
    requires d > 0 && n > 0 && n % d == 0
    ensures 0 < n / d <= n && n / d * d == n
  {
    var q := n / d;
    assert n == q * d + n % d;
    MulStep(0, q, d);
    MulStep(1, d, q);
  }

  /** Slots from `base` on, stacked so that the lowest is taken first. */
  method DownFrom(base: nat, count: nat) returns (stack: seq<nat>)
    ensures Distinct(stack) && forall s: nat :: s in stack <==> base <= s < base + count
    ensures |stack| == count && forall j :: 0 <= j < count ==> stack[j] == base + count - 1 - j
  {
    stack := [];
    var i := count;
    while i > 0
      invariant 0 <= i <= count && |stack| == count - i
      invariant forall j :: 0 <= j < |stack| ==> stack[j] == base + count - 1 - j
    {
      stack := stack + [base + i - 1];
      i := i - 1;
    }
    forall s: nat ensures s in stack <==> base <= s < base + count {
      if base <= s < base + count {
        assert stack[base + count - 1 - s] == s;
      }
    }
  }

  lemma StartBalanced(refs: seq<nat>, table: seq<seq<nat>>, free: seq<nat>, freeCache: seq<nat>, c: Config)
    requires |refs| * c.blockSize == c.contextTokens && (forall b :: 0 <= b < |refs| ==> refs[b] == 0)
    requires table == seq(Slots(c), _ => [])
    requires Distinct(free) && forall s: nat :: s in free <==> s < c.maxActive
    requires Distinct(freeCache) && forall s: nat :: s in freeCache <==> c.maxActive <= s < Slots(c)
    ensures Balanced(refs, table, [], map[], 0, free, freeCache, c)
  {
    assert BusySlots([]) == {};
    forall b | 0 <= b < |refs| ensures refs[b] == |Holding(table, b)| {
      assert Holding(table, b) == {};
    }
  }

  lemma StartAccounted(m: Model, c: Config)
    requires c.blockSize > 0
    ensures Accounted(map[], map[], 0, 0, Counters(0, 0, 0, 0), [] + [], [], m, c) && QueueExact([] + [], map[], [])
    ensures forall h :: ActiveInStep([], map[], h, m, {} + {}, {})
  {
    hide Accounted;
    NothingTaken(m, c);
    var nobody: seq<Request> := [];
    assert nobody + nobody == [];
  }

  lemma NothingTaken(m: Model, c: Config)
    requires c.blockSize > 0
    ensures Accounted(map[], map[], 0, 0, Counters(0, 0, 0, 0), [], [], m, c)
  {
    hide Tallied, Registered, Tracked, LogsOk, ItemsOk, QueueOk, OrdersBounded;
    TallyNone();
    NobodyKnown(m, c);
    NobodyServed(c);
  }

  lemma NobodyKnown(m: Model, c: Config)
    requires c.blockSize > 0
    ensures LogsOk(map[], m, c) && Registered(map[], map[]) && OrdersBounded(map[], 0)
  {
    hide HandleOk, Finished;
  }

  lemma NobodyServed(c: Config)
    requires c.blockSize > 0
    ensures QueueOk([], map[]) && Tracked(map[], [], []) && ItemsOk([], map[], c)
  {
    hide ItemOk, QueuedOk, Finished, Apart;
  }

  lemma StartFollowing(refs: seq<nat>, free: seq<nat>, freeCache: seq<nat>, h: Histories, m: Model, c: Config)
    requires c.blockSize > 0 && h == seq(Slots(c), _ => [])
    ensures Following([], h, seq(Slots(c), _ => []), refs, map[], free, freeCache, m, c)
  {
  }

  class Engine {
    const config: Config
    const model: Model
    const pool: BlockPool
    const prefixes: PrefixIndex
    const runner: Runner
    var active: seq<Item>
    var waiting: seq<Request>
    var incoming: seq<Request>
    var handles: Handles
    var registry: map<string, nat>
    var freeSequences: seq<nat>
    var freeCacheSequences: seq<nat>
    var nextOrder: nat
    var accepted: nat
    var counters: Counters
    var cancelled: set<nat>
    /** Requests whose deadline has passed; time only adds to it. */
    var overdue: set<nat>
    var stopping: bool
    var failed: bool
    var rejected: nat
    /** Blocks held by each slot, and the steps the runner has been taken through. */
    ghost var table: seq<seq<nat>>
    ghost var trace: seq<Credits.Step>

    // ---- invariants -------------------------------------------------------------------

    ghost predicate Standing() {
      && Validated(config) && runner.model == model && runner.slots == Slots(config)
         && prefixes.blockSize == config.blockSize
    }

    /** Holds at every step boundary, also after a fault. */
    ghost predicate Lifecycle()
      reads `active, `waiting, `incoming, `handles, `registry, `freeSequences, `freeCacheSequences, `nextOrder,
            `accepted,
            `counters, `table, pool, prefixes
    {
      && Standing() && pool.Valid() && prefixes.Valid()
      && Accounted(handles, registry, nextOrder, accepted, counters, waiting + incoming, active, model, config)
      && Balanced(pool.refs, table, active, prefixes.entries, prefixes.tokenCount, freeSequences, freeCacheSequences,
                  config)
    }

    /** Holds as long as the runner is healthy: its histories are those of a legal run of credit steps. */
    ghost predicate OnTrack()
      reads `freeSequences, `freeCacheSequences, `table, `trace, pool, prefixes, runner
    {
      && runner.healthy
      && Following(trace, runner.histories, table, pool.refs, prefixes.entries, freeSequences, freeCacheSequences,
                   model, config)
    }

    ghost predicate InStepWith(excused: set<nat>, pending: set<int>)
      reads `active, `handles, runner
    {
      ActiveInStep(active, handles, runner.histories, model, excused, pending)
    }

    /** Every queued request is unfinished, queued once, and not active. */
    ghost predicate Queued()
      reads `active, `waiting, `incoming, `handles
    {
      QueueExact(waiting + incoming, handles, active)
    }

    constructor (config: Config, runner: Runner)
      requires Validated(config)
      requires runner.slots == Slots(config) && runner.healthy && runner.histories == seq(runner.slots, _ => [])
      ensures Working()
      ensures this.config == config && this.runner == runner && model == runner.model && fresh(pool) && fresh(prefixes)
      ensures handles == map[] && active == [] && waiting == [] && incoming == [] && !stopping && !failed
      ensures |freeSequences| == config.maxActive && |freeCacheSequences| == config.prefixCacheEntries
      ensures forall j :: 0 <= j < config.maxActive ==> freeSequences[j] == config.maxActive - 1 - j
      ensures forall j :: 0 <= j < config.prefixCacheEntries ==>
                freeCacheSequences[j] == config.maxActive + config.prefixCacheEntries - 1 - j
    {
      hide Accounted, Balanced, Following, QueueExact, ActiveInStep, IsTrie, EntriesOk, TotalTokens, FreeExact,
           RefCounts.Distinct;
      var blocks := new BlockPool(BlockCount(config));
      var index := new PrefixIndex(config.blockSize);
      var requestSlots := DownFrom(0, config.maxActive);
      var cacheSlots := DownFrom(config.maxActive, config.prefixCacheEntries);
      this.config := config;
      this.runner := runner;
      model := runner.model;
      pool := blocks;
      prefixes := index;
      active, waiting, incoming := [], [], [];
      handles, registry := map[], map[];
      freeSequences, freeCacheSequences := requestSlots, cacheSlots;
      nextOrder, accepted, counters := 0, 0, Counters(0, 0, 0, 0);
      cancelled, overdue, stopping, failed, rejected := {}, {}, false, false, 0;
      table := seq(Slots(config), _ => []);
      trace := [];
      new;
      StartAccounted(model, config);
      StartBalanced(pool.refs, table, freeSequences, freeCacheSequences, config);
      StartFollowing(pool.refs, freeSequences, freeCacheSequences, runner.histories, model, config);
    }

    // ---- endings --------------------------------------------------------------------------

    /** The terminal event of a request; only the first one counts. */
    method Terminal(r: Request, reason: Reason, status: nat, usage: Usage)
      requires r.order in handles && handles[r.order].taken <= |handles[r.order].log|
      modifies `handles, `registry, `counters
      ensures if Finished(old(handles)[r.order].log)
              then handles == old(handles) && registry == old(registry) && counters == old(counters)
              else handles == Closed(old(handles), r.order, reason, status, usage) && registry == old(registry) - {r.id}
                   && counters == Counted(old(counters), reason)
      ensures !Finished(old(handles)[r.order].log) ==>
                && r.order in handles
                && handles[r.order].log == old(handles)[r.order].log + [Event.Terminal(reason, status, usage)]
                && counters.completed == old(counters.completed) + (if reason in {Stopped, Length} then 1 else 0)
                && counters.cancelled == old(counters.cancelled) + (if reason == Cancelled then 1 else 0)
                && counters.timedOut == old(counters.timedOut) + (if reason == Timeout then 1 else 0)
                && counters.failed == old(counters.failed) + (if reason in {Backpressure, BackendFailure} then 1 else 0)
    {
      if Finished(handles[r.order].log) {
        return;
      }
      counters := Counted(counters, reason);
      registry := registry - {r.id};
      var h := Emitted(handles[r.order], Requests.Terminal(reason, status, usage), config.eventBufferSize).0;
      handles := handles[r.order := h];
    }

    method RequireReusable() returns (status: Status)
      ensures status == if runner.healthy then Ok else Failed(BackendError)
    {
      status := if runner.healthy then Ok else Failed(BackendError);
    }

    /** What an ended request leaves behind. */
    twostate predicate EndedItem(i: nat, reason: Reason, status: nat)
      requires i < |old(active)|
      reads this
    {
      var it := old(active)[i];
      && active == old(active)[i := Ended(it)]
      && it.request.order in old(handles)
         && handles == Closed(old(handles), it.request.order, reason, status, UsageOf(it))
      && freeSequences == old(freeSequences) + [it.sequence]
      && counters == Counted(old(counters), reason)
    }

    /** Ends an active request: slot cleared, credits released, terminal event sent. A runner that cannot be reused
        leaves the request as it was. */
    method Finish(i: nat, reason: Reason, status: nat, checkBackend: bool) returns (r: Status)
      requires Lifecycle() && i < |active|
      requires !active[i].done ==>
                 TerminalOk(model, active[i].request, Sent(active[i], handles), reason, status, UsageOf(active[i]))
      modifies `active, `handles, `registry, `counters, `freeSequences, `table, `trace, pool, runner
      ensures Lifecycle()
      ensures r == Ok || (checkBackend && r == Failed(BackendError))
      ensures r.Failed? || old(active[i].done) ==> active == old(active) && handles == old(handles)
      ensures r.Ok? && !old(active[i].done) ==> EndedItem(i, reason, status)
      ensures r.Ok? && !old(active[i].done) ==>
                var it := old(active)[i];
                var o := it.request.order;
                && o in old(handles) && o in handles
                && handles[o].log == old(handles)[o].log
                                     + [Event.Terminal(reason, status,
                                                       Usage(|it.request.prompt|, it.generated, it.reused))]
      ensures r.Ok? && checkBackend && old(OnTrack()) ==>
                && OnTrack()
                && (if old(active[i].done) then runner.histories == old(runner.histories)
                    else var s := old(active[i].sequence);
                         s < |old(runner.histories)| && runner.histories == old(runner.histories)[s := []])
    {
      hide Lifecycle, OnTrack, Following, BlockPools.LiveTable, Ended, RefCounts.Released, TerminalOk, Sent,
           Standing, Accounted, Balanced, Stops, TokensIn;
      if active[i].done {
        return Ok;
      }
      var s := active[i].sequence;
      FinishLaws(i, active[i], active[i].request.order, reason, status);
      ghost var tracked := OnTrack();
      if tracked {
        FinishTrace(s);
      }
      r := ClearSlot(s, checkBackend);
      if r.Failed? {
        return;
      }
      ghost var refs := pool.refs;
      End(i, reason, status);
      if tracked && checkBackend {
        BackOnTrack(refs);
      }
    }

    method ClearSlot(s: nat, checkBackend: bool) returns (r: Status)
      modifies runner
      ensures r == Ok || (checkBackend && r == Failed(BackendError))
      ensures r.Ok? && checkBackend ==>
                && runner.healthy && old(runner.healthy)
                && (s < |old(runner.histories)| ==> runner.histories == old(runner.histories)[s := []])
    {
      runner.ClearSequence(s);
      if checkBackend {
        r := RequireReusable();
      } else {
        r := Ok;
      }
    }

    lemma BackOnTrack(refs: seq<nat>)
      requires runner.healthy && |refs| == |pool.refs|
      requires Following(trace, runner.histories, table, refs, prefixes.entries, freeSequences, freeCacheSequences,
                         model, config)
      ensures OnTrack()
    {
      hide Following;
      FollowingSize(trace, runner.histories, table, refs, pool.refs, prefixes.entries, freeSequences,
                    freeCacheSequences, model, config);
    }

    method End(i: nat, reason: Reason, status: nat)
      requires Lifecycle() && i < |active| && !active[i].done
      requires TerminalOk(model, active[i].request, Sent(active[i], handles), reason, status, UsageOf(active[i]))
      modifies `active, `handles, `registry, `counters, `freeSequences, `table, `trace, pool
      ensures Lifecycle()
      ensures EndedItem(i, reason, status)
      ensures var it := old(active[i]);
        && it.sequence < |old(table)| && LiveTable(old(pool.refs), it.blocks)
        && |pool.refs| == |old(pool.refs)| && table == old(table)[it.sequence := []]
        && trace == old(trace) + [Credits.Release(it.sequence)]
    {
      hide Lifecycle, Balanced, Accounted, Ended, Closed, Standing, Counted, Total, UsageOf, RefCounts.Released,
           BlockPools.LiveTable, TerminalOk, Sent, Finished;
      var item := active[i];
      Parts();
      FinishLaws(i, active[i], active[i].request.order, reason, status);
      Vacate(i, item);
      Terminal(item.request, reason, status, UsageOf(item));
      Assemble();
    }

    lemma Parts()
      requires Lifecycle()
      ensures config.blockSize > 0 && Standing() && prefixes.Valid() && pool.Valid()
      ensures Accounted(handles, registry, nextOrder, accepted, counters, waiting + incoming, active, model,
                        config)
      ensures Balanced(pool.refs, table, active, prefixes.entries, prefixes.tokenCount, freeSequences,
                       freeCacheSequences, config)
    {
    }

    lemma Assemble()
      requires Standing() && prefixes.Valid() && pool.Valid()
      requires Accounted(handles, registry, nextOrder, accepted, counters, waiting + incoming, active, model,
                         config)
      requires Balanced(pool.refs, table, active, prefixes.entries, prefixes.tokenCount, freeSequences,
                        freeCacheSequences, config)
      ensures Lifecycle()
    {
    }

    /** The slot and the credits of an ended item become free. */
    method Vacate(i: nat, item: Item)
      requires i < |active| && active[i] == item && pool.Valid() && LiveTable(pool.refs, item.blocks)
               && item.sequence < |table|
      modifies `active, `freeSequences, `table, `trace, pool
      ensures pool.Valid() && pool.refs == Released(old(pool.refs), old(pool.free), item.blocks).0
      ensures freeSequences == old(freeSequences) + [item.sequence] && active == old(active)[i := Ended(item)]
      ensures table == old(table)[item.sequence := []] && trace == old(trace) + [Credits.Release(item.sequence)]
    {
      hide *;
      var released := pool.Release(item.blocks);
      assert released == Ok;
      freeSequences := freeSequences + [item.sequence];
      active := active[i := Ended(item)];
      table := table[item.sequence := []];
      trace := trace + [Credits.Release(item.sequence)];
    }

    lemma FinishLaws(i: nat, it: Item, o: nat, reason: Reason, status: nat)
      requires Lifecycle() && i < |active| && !active[i].done && it == active[i] && o == it.request.order
      requires TerminalOk(model, active[i].request, Sent(active[i], handles), reason, status, UsageOf(active[i]))
      ensures o in handles && !Finished(handles[o].log) && handles[o].request == it.request
              && handles[o].taken <= |handles[o].log|
      ensures it.sequence < |table| == Slots(config) && it.sequence !in prefixes.entries
              && LiveTable(pool.refs, it.blocks)
      ensures Accounted(Closed(handles, o, reason, status, UsageOf(it)), registry - {it.request.id}, nextOrder,
                        accepted,
                        Counted(counters, reason), waiting + incoming, active[i := Ended(it)], model, config)
      ensures Balanced(Released(pool.refs, pool.free, it.blocks).0, table[it.sequence := []], active[i := Ended(it)],
                       prefixes.entries, prefixes.tokenCount, freeSequences + [it.sequence], freeCacheSequences, config)
    {
      assert ItemOk(it, handles, config);
      assert HandleOk(it.request.order, handles[it.request.order], model, config);
      hide Balanced, Accounted, TerminalOk;
      EndAccounted(handles, registry, nextOrder, accepted, counters, waiting + incoming, active, model, config,
                   i,
                   reason, status, UsageOf(it));
      EndBalanced(pool.refs, pool.free, table, active, prefixes.entries, prefixes.tokenCount, freeSequences,
                  freeCacheSequences, config, i);
    }

    lemma FinishTrace(s: nat)
      requires OnTrack() && s < |table| == Slots(config) && s !in prefixes.entries
      ensures s < |runner.histories|
      ensures Following(trace + [Credits.Release(s)], runner.histories[s := []], table[s := []], pool.refs,
                        prefixes.entries,
                        freeSequences + [s], freeCacheSequences, model, config)
    {
      hide Traced;
      TraceRelease(trace, runner.histories, table, Cap(pool.refs, model, config), Slots(config), s);
      FinishSlotInStep(prefixes.entries, freeSequences, freeCacheSequences, runner.histories, config, s);
    }

    // ---- time and cancellation -----------------------------------------------------------

    /** Clients may cancel and time may pass at any moment. */
    method Tick()
      modifies `cancelled, `overdue
      ensures old(cancelled) <= cancelled && old(overdue) <= overdue
    {
      var flagged: set<nat>, late: set<nat> := *, *;
      cancelled := cancelled + flagged * handles.Keys;
      overdue := overdue + late * handles.Keys;
    }

    method Expired(o: nat) returns (expired: bool)
      modifies `cancelled, `overdue
      ensures old(cancelled) <= cancelled && old(overdue) <= overdue
      ensures expired <==> o in Lapsed()
    {
      Tick();
      expired := o in cancelled || o in overdue;
    }

    function Lapsed(): set<nat>
      reads `cancelled, `overdue
    {
      cancelled + overdue
    }

    /** Reason and status of an expired request; a cancellation is reported as such even after the deadline. */
    function Expiry(o: nat): (Reason, nat)
      reads `cancelled
    {
      if o in cancelled then (Cancelled, 409) else (Timeout, 408)
    }

    /** Requests waiting for admission end when they are cancelled or overdue; the others keep their places. */
    method ExpireWaiting()
      requires Lifecycle() && Queued()
      modifies `waiting, `handles, `registry, `counters, `cancelled, `overdue
      ensures Lifecycle() && Queued()
      ensures old(Lapsed()) <= Lapsed()
      ensures old(cancelled) <= cancelled && old(overdue) <= overdue
      ensures SameSent(active, old(handles), handles)
              && OnlyExpired(old(handles), handles, old(cancelled), cancelled, overdue)
      ensures forall i :: 0 <= i < |waiting| ==> waiting[i].order !in old(Lapsed())
      ensures QueueWork(waiting) <= old(QueueWork(waiting))
    {
      hide Accounted, QueueExact, Balanced, Closed, Finished, TokensIn, Counted, Total, Sent, Standing, QueueWork,
           OnlyExpired;
      var survivors: seq<Request> := [];
      var i := 0;
      Parts();
      NothingSeen(waiting, incoming);
      ghost var lapsed, handles0, cancelled0 := Lapsed(), handles, cancelled;
      NoneExpired(handles, cancelled, cancelled, overdue);
      while i < |waiting|
        invariant 0 <= i <= |waiting| && waiting == old(waiting)
        invariant Accounted(handles, registry, nextOrder, accepted, counters,
                            survivors + waiting[i..] + incoming, active, model, config)
        invariant QueueExact(survivors + waiting[i..] + incoming, handles, active)
        invariant SameSent(active, old(handles), handles) && lapsed <= Lapsed() && cancelled0 <= cancelled
                  && old(overdue) <= overdue
        invariant OnlyExpired(handles0, handles, cancelled0, cancelled, overdue)
        invariant forall j :: 0 <= j < |survivors| ==> survivors[j].order !in lapsed
        invariant QueueWork(survivors + waiting[i..]) <= old(QueueWork(waiting))
      {
        Regroup(survivors, waiting, i, incoming);
        ghost var handles1, cancelled1, overdue1 := handles, cancelled, overdue;
        var expired := Expired(waiting[i].order);
        NoneExpired(handles1, cancelled1, cancelled, overdue);
        ExpiredTwice(handles0, handles1, handles1, cancelled0, cancelled1, overdue1, cancelled, overdue);
        if expired {
          ExpireQueued(survivors, waiting[i], waiting[i + 1..] + incoming, handles0, cancelled0);
        } else {
          survivors := survivors + [waiting[i]];
        }
        i := i + 1;
      }
      AllSeen(survivors, waiting, incoming);
      waiting := survivors;
    }

    method ExpireQueued(ghost before: seq<Request>, r: Request, ghost after: seq<Request>, ghost handles0: Handles,
                        ghost cancelled0: set<nat>)
      requires Standing() && OnlyExpired(handles0, handles, cancelled0, cancelled, overdue)
      requires r.order in Lapsed() && cancelled0 <= cancelled
      requires Accounted(handles, registry, nextOrder, accepted, counters, before + [r] + after, active, model,
                         config)
      requires QueueExact(before + [r] + after, handles, active)
      modifies `handles, `registry, `counters
      ensures Accounted(handles, registry, nextOrder, accepted, counters, before + after, active, model, config)
      ensures QueueExact(before + after, handles, active)
      ensures SameSent(active, old(handles), handles) && OnlyExpired(handles0, handles, cancelled0, cancelled, overdue)
      ensures r.order in old(handles) && r.order in handles
              && handles[r.order].log
                 == old(handles)[r.order].log
                    + [if r.order in cancelled then Event.Terminal(Cancelled, 409, Usage(|r.prompt|, 0, 0))
                       else Event.Terminal(Timeout, 408, Usage(|r.prompt|, 0, 0))]
    {
      hide Accounted, QueueExact, Closed, Finished, TokensIn, Sent, LiveOrders, OnlyExpired;
      var (reason, status) := Expiry(r.order);
      var usage := Usage(|r.prompt|, 0, 0);
      ExpireExact(handles, before, r, after, active, reason, status, usage);
      ExpireAccounted(handles, registry, nextOrder, accepted, counters, before, r, after, active, model, config,
                      reason, status);
      ClosedSame(active, handles, r.order, reason, status, usage);
      OneMoreExpired(handles0, handles, cancelled0, cancelled, overdue, r.order, reason, status, usage);
      Terminal(r, reason, status, usage);
    }

    /** Errors may end a request at any time: its count of tokens is off by at most a refused one. */
    lemma ErrorOk(i: nat, reason: Reason, status: nat)
      requires Lifecycle() && i < |active| && !active[i].done && ErrorKind(reason, status)
      ensures TerminalOk(model, active[i].request, Sent(active[i], handles), reason, status, UsageOf(active[i]))
    {
      assert ItemOk(active[i], handles, config);
    }

    /** What ExpireActive knows of the items before `i`, and of those still to come. */
    ghost predicate Sweeping(i: nat, base: set<nat>)
      requires i <= |active|
      reads this, runner
    {
      && Swept(active, handles, runner.histories, model, Lapsed(), i)
      && base <= Lapsed()
      && forall j :: 0 <= j < i && !active[j].done ==> active[j].request.order !in base
    }

    lemma SweepOn(i: nat, base: set<nat>, lapsed: set<nat>)
      requires i < |active| && base <= lapsed <= Lapsed() && Swept(active, handles, runner.histories, model, lapsed, i)
      requires forall j :: 0 <= j < i && !active[j].done ==> active[j].request.order !in base
      requires active[i].done || active[i].request.order !in Lapsed()
      ensures Sweeping(i + 1, base)
    {
      hide Swept;
      SweepKept(active, handles, runner.histories, model, lapsed, Lapsed(), i);
    }

    lemma SweepPast(i: nat, base: set<nat>, lapsed: set<nat>, active0: seq<Item>, handles0: Handles, h: Histories,
                    reason: Reason, status: nat)
      requires i < |active0| && !active0[i].done && base <= lapsed <= Lapsed()
               && Swept(active0, handles0, h, model, lapsed, i)
      requires forall j :: 0 <= j < i && !active0[j].done ==> active0[j].request.order !in base
      requires forall j, k :: 0 <= j < k < |active0| ==> Apart(active0, j, k)
      requires active0[i].sequence < |h| && active0[i].request.order in handles0
      requires active == active0[i := Ended(active0[i])]
      requires handles == Closed(handles0, active0[i].request.order, reason, status, UsageOf(active0[i]))
      requires runner.histories == h[active0[i].sequence := []]
      ensures Sweeping(i + 1, base)
    {
      var o := active0[i].request.order;
      SweepEnded(active0, i, handles0,
                 handles0[o].(log := handles0[o].log + [Requests.Terminal(reason, status, UsageOf(active0[i]))]),
                 h, model, lapsed, Lapsed());
      hide Swept, Apart;
    }

    lemma ItemsApart()
      requires Lifecycle()
      ensures forall j, k :: 0 <= j < k < |active| ==> Apart(active, j, k)
      ensures forall j :: 0 <= j < |active| && !active[j].done ==> active[j].request.order in handles
    {
      forall j | 0 <= j < |active| && !active[j].done ensures active[j].request.order in handles {
        assert ItemOk(active[j], handles, config);
      }
    }

    /** Active requests end when they are cancelled or overdue; what is left is in step with the runner. */
    method ExpireActive() returns (r: Status)
      requires Lifecycle() && OnTrack() && Queued() && InStepWith(Lapsed(), {})
      modifies `active, `handles, `registry, `counters, `freeSequences, `table, `trace, `cancelled, `overdue, pool,
               runner
      ensures Lifecycle() && old(Lapsed()) <= Lapsed()
      ensures r == Ok || r == Failed(BackendError)
      ensures r.Ok? ==> OnTrack() && Queued() && InStepWith({}, {})
      ensures r.Ok? ==> ActiveWork(active, {}) <= old(ActiveWork(active, Lapsed()))
      ensures r.Ok? ==> forall i :: 0 <= i < |active| && !active[i].done ==> active[i].request.order !in old(Lapsed())
      ensures old(cancelled) <= cancelled && old(overdue) <= overdue
      ensures OnlyExpired(old(handles), handles, old(cancelled), cancelled, overdue)
    {
      hide Lifecycle, OnTrack, ActiveInStep, Swept, QueueExact, ActiveWork, Ended, Closed, Sent, Apart, TerminalOk,
           OnlyExpired;
      SweepStarts();
      NoneExpired(handles, cancelled, cancelled, overdue);
      var i := 0;
      r := Ok;
      ghost var base, handles0, cancelled0 := Lapsed(), handles, cancelled;
      while i < |active|
        invariant 0 <= i <= |active| && r == Ok
        invariant Lifecycle() && OnTrack() && Queued() && Sweeping(i, base)
        invariant ActiveWork(active, base) <= old(ActiveWork(active, Lapsed()))
        invariant cancelled0 <= cancelled && old(overdue) <= overdue
                  && OnlyExpired(handles0, handles, cancelled0, cancelled, overdue)
      {
        ghost var handles1, cancelled1, overdue1 := handles, cancelled, overdue;
        r := ExpireOne(i, base);
        ExpiredTwice(handles0, handles1, handles, cancelled0, cancelled1, overdue1, cancelled, overdue);
        if r.Failed? {
          return;
        }
        i := i + 1;
      }
      SweepEnds(base);
    }

    lemma SweepStarts()
      requires InStepWith(Lapsed(), {})
      ensures Sweeping(0, Lapsed())
    {
      assert active[0..] == active;
    }

    lemma SweepEnds(base: set<nat>)
      requires Sweeping(|active|, base)
      ensures InStepWith({}, {}) && ActiveWork(active, {}) <= ActiveWork(active, base)
    {
      assert active[..|active|] == active;
      NoneLapsed(active, base);
    }

    method ExpireOne(i: nat, ghost base: set<nat>) returns (r: Status)
      requires Lifecycle() && OnTrack() && Queued() && i < |active| && Sweeping(i, base)
      modifies `active, `handles, `registry, `counters, `freeSequences, `table, `trace, `cancelled, `overdue, pool,
               runner
      ensures Lifecycle() && |active| == |old(active)| && old(Lapsed()) <= Lapsed()
      ensures r == Ok || r == Failed(BackendError)
      ensures r.Ok? ==>
                OnTrack() && Queued() && Sweeping(i + 1, base)
                && ActiveWork(active, base) <= old(ActiveWork(active, base))
      ensures old(cancelled) <= cancelled && old(overdue) <= overdue
      ensures OnlyExpired(old(handles), handles, old(cancelled), cancelled, overdue)
    {
      hide Lifecycle, OnTrack, Swept, QueueExact, ActiveWork, Closed, Sent, Apart, TerminalOk, OnlyExpired, Open;
      ItemsApart();
      ghost var lapsed, active0, handles0, h, cancelled0 := Lapsed(), active, handles, runner.histories, cancelled;
      var expired := Expired(active[i].request.order);
      NoneExpired(handles, cancelled0, cancelled, overdue);
      r := Ok;
      if expired {
        var (reason, status) := Expiry(active[i].request.order);
        if !active[i].done {
          ErrorOk(i, reason, status);
          ItemOpen(i);
          OneMoreExpired(handles, handles, cancelled0, cancelled, overdue, active[i].request.order, reason, status,
                         UsageOf(active[i]));
          EndExact(waiting + incoming, handles, active, i, reason, status, UsageOf(active[i]));
        }
        EndWork(active, i, base);
        r := Finish(i, reason, status, true);
        if r.Ok? {
          if !active0[i].done {
            SweepPast(i, base, lapsed, active0, handles0, h, reason, status);
          } else {
            SweepOn(i, base, lapsed);
          }
        }
      } else {
        SweepOn(i, base, lapsed);
      }
    }

    /** Finished items leave the active list. */
    method EraseFinished()
      requires Lifecycle()
      modifies `active
      ensures Lifecycle() && active == Live(old(active))
    {
      hide Accounted, Balanced, Standing;
      EraseLaws();
      var live: seq<Item> := [];
      assert active[..0] == [];
      for i := 0 to |active|
        invariant live == Live(active[..i])
      {
        assert active[..i + 1][..i] == active[..i];
        if !active[i].done {
          live := live + [active[i]];
        }
      }
      assert active[..|active|] == active;
      active := live;
    }

    lemma EraseLaws()
      requires Lifecycle()
      ensures Accounted(handles, registry, nextOrder, accepted, counters, waiting + incoming, Live(active),
                        model, config)
      ensures Balanced(pool.refs, table, Live(active), prefixes.entries, prefixes.tokenCount, freeSequences,
                       freeCacheSequences, config)
    {
      LiveSets(active);
      LiveKeepsItems(active, handles, config);
      hide Accounted, Balanced;
      LiveBalanced(pool.refs, table, active, prefixes.entries, prefixes.tokenCount, freeSequences, freeCacheSequences,
                   config);
      ItemsAccounted(handles, registry, nextOrder, accepted, counters, waiting + incoming, active, Live(active),
                     model, config);
    }

    ghost predicate AllLive()
      reads `active
    {
      forall i :: 0 <= i < |active| ==> !active[i].done
    }

    /** Between passes: sound records, and a runner in step with every request that is not cancelled or overdue. */
    ghost predicate Working()
      reads this, pool, prefixes, runner
    {
      Lifecycle() && OnTrack() && Queued() && AllLive() && InStepWith(Lapsed(), {})
    }

    /** Within a pass, after the expiry sweep: every active request is in step. */
    ghost predicate Settled()
      reads this, pool, prefixes, runner
    {
      Lifecycle() && OnTrack() && Queued() && AllLive() && InStepWith({}, {})
    }

    ghost function Work(lapsed: set<nat>): nat
      reads `active, `waiting, `incoming
    {
      QueueWork(waiting) + QueueWork(incoming) + ActiveWork(active, lapsed)
    }

    method ExpireRequests() returns (r: Status)
      requires Working()
      modifies `active, `waiting, `handles, `registry, `counters, `freeSequences, `table, `trace, `cancelled, `overdue,
               pool, runner
      ensures Lifecycle() && old(Lapsed()) <= Lapsed()
      ensures r == Ok || r == Failed(BackendError)
      ensures r.Ok? ==> Settled() && Work({}) <= old(Work(Lapsed()))
      ensures r.Ok? ==> forall o :: o in old(Lapsed()) && Open(handles, o) ==> o in Orders(incoming)
      ensures OnlyExpired(old(handles), handles, old(cancelled), cancelled, overdue)
    {
      hide Lifecycle, OnTrack, QueueExact, ActiveInStep, SameSent, ActiveWork, QueueWork, OnlyExpired, Open, Orders;
      ghost var lapsed, handles0, cancelled0 := Lapsed(), handles, cancelled;
      ExpireWaiting();
      StillInStep(handles0, lapsed);
      ghost var handles1, cancelled1, overdue1 := handles, cancelled, overdue;
      r := ExpireActive();
      ExpiredTwice(handles0, handles1, handles, cancelled0, cancelled1, overdue1, cancelled, overdue);
      if r.Ok? {
        LiveKept();
        NoneLapsedLeft(lapsed);
        EraseFinished();
      }
    }

    /** Who is neither queued nor active has ended. */
    lemma NoneLapsedLeft(lapsed: set<nat>)
      requires Lifecycle()
      requires forall i :: 0 <= i < |waiting| ==> waiting[i].order !in lapsed
      requires forall i :: 0 <= i < |active| && !active[i].done ==> active[i].request.order !in lapsed
      ensures forall o :: o in lapsed && Open(handles, o) ==> o in Orders(incoming)
    {
      hide LogsOk, Tallied, Registered, QueueOk, ItemsOk, Balanced, IsTrie, EntriesOk, TotalTokens, FreeExact;
      OrdersAppend(waiting, incoming);
    }

    lemma StillInStep(handles0: Handles, lapsed: set<nat>)
      requires ActiveInStep(active, handles0, runner.histories, model, lapsed, {})
               && SameSent(active, handles0, handles)
      requires lapsed <= Lapsed()
      ensures InStepWith(Lapsed(), {}) && ActiveWork(active, Lapsed()) <= ActiveWork(active, lapsed)
    {
      SameLogs(active, handles0, handles, runner.histories, runner.histories, model, lapsed, Lapsed(), {});
      WorkPointwise(active, active, lapsed, Lapsed());
    }

    /** Dropping finished items keeps the rest as it is. */
    lemma LiveKept()
      ensures forall i :: 0 <= i < |Live(active)| ==> !Live(active)[i].done
      ensures QueueExact(waiting + incoming, handles, active) ==> QueueExact(waiting + incoming, handles, Live(active))
      ensures forall excused, pending :: InStepWith(excused, pending) ==>
                ActiveInStep(Live(active), handles, runner.histories, model, excused, pending)
      ensures forall lapsed :: ActiveWork(Live(active), lapsed) == ActiveWork(active, lapsed)
    {
      LiveSets(active);
      forall excused, pending | InStepWith(excused, pending)
        ensures ActiveInStep(Live(active), handles, runner.histories, model, excused, pending)
      {
        LiveInStep(active, handles, runner.histories, model, excused, pending);
      }
      forall lapsed ensures ActiveWork(Live(active), lapsed) == ActiveWork(active, lapsed) {
        LiveWork(active, lapsed);
      }
    }

    // ---- the prefix cache -------------------------------------------------------------------

    lemma EvictLaws(s: nat, e: Entry, tokenCount': nat)
      requires Lifecycle() && s in prefixes.entries && e == prefixes.entries[s] && tokenCount' <= prefixes.tokenCount
      ensures s < |table| == Slots(config) && LiveTable(pool.refs, e.blocks)
      ensures Balanced(Released(pool.refs, pool.free, e.blocks).0, table[s := []], active, prefixes.entries - {s},
                       tokenCount', freeSequences, freeCacheSequences + [s], config)
    {
      hide Balanced;
      EvictBalanced(pool.refs, pool.free, table, active, prefixes.entries, prefixes.tokenCount, tokenCount',
                    freeSequences,
                    freeCacheSequences, config, s);
    }

    lemma EvictTrace(s: nat)
      requires OnTrack() && s < |table| == Slots(config)
      ensures s < |runner.histories|
      ensures Following(trace + [Credits.Release(s)], runner.histories[s := []], table[s := []], pool.refs,
                        prefixes.entries - {s},
                        freeSequences, freeCacheSequences + [s], model, config)
    {
      hide Traced;
      TraceRelease(trace, runner.histories, table, Cap(pool.refs, model, config), Slots(config), s);
      EvictInStep(prefixes.entries, freeSequences, freeCacheSequences, runner.histories, config, s);
    }

    /** Takes an entry out of the cache: its slot is cleared, its credits released; only then is the runner checked. */
    method Evict(s: nat, checkBackend: bool) returns (r: Status)
      requires Lifecycle() && s in prefixes.entries
      modifies `freeCacheSequences, `table, `trace, pool, prefixes, runner
      ensures Lifecycle()
      ensures prefixes.entries == old(prefixes.entries) - {s} && freeCacheSequences == old(freeCacheSequences) + [s]
      ensures prefixes.tokenCount + |old(prefixes.entries)[s].tokens| == old(prefixes.tokenCount)
      ensures |pool.free| <= |old(pool.free)| + |old(prefixes.entries)[s].blocks|
      ensures r == Ok || (checkBackend && r == Failed(BackendError))
      ensures r.Ok? && checkBackend && old(OnTrack()) ==>
                OnTrack() && s < |old(runner.histories)| && runner.histories == old(runner.histories)[s := []]
    {
      hide Lifecycle, OnTrack, Accounted, Balanced, Following, Standing, BlockPools.LiveTable, RefCounts.Released,
           TotalTokens, IsTrie, EntriesOk, FreeExact;
      Parts();
      ghost var e, tracked, refs := prefixes.entries[s], OnTrack(), pool.refs;
      EvictLaws(s, e, if prefixes.tokenCount < |e.tokens| then 0 else prefixes.tokenCount - |e.tokens|);
      if tracked {
        EvictTrace(s);
      }
      var erased := prefixes.Erase(s);
      var entry := erased.value;
      runner.ClearSequence(s);
      Vacant(s, entry.blocks);
      Assemble();
      r := Ok;
      if checkBackend {
        r := RequireReusable();
        if tracked && r.Ok? {
          BackOnTrack(refs);
        }
      }
    }

    method Vacant(s: nat, blocks: seq<nat>)
      requires pool.Valid() && LiveTable(pool.refs, blocks) && s < |table|
      modifies `freeCacheSequences, `table, `trace, pool
      ensures pool.Valid() && pool.refs == Released(old(pool.refs), old(pool.free), blocks).0
              && |pool.refs| == |old(pool.refs)| && |pool.free| <= |old(pool.free)| + |blocks|
      ensures freeCacheSequences == old(freeCacheSequences) + [s]
      ensures table == old(table)[s := []] && trace == old(trace) + [Credits.Release(s)]
    {
      hide *;
      var released := pool.Release(blocks);
      assert released == Ok;
      freeCacheSequences := freeCacheSequences + [s];
      table := table[s := []];
      trace := trace + [Credits.Release(s)];
    }

    /** A reusable prefix of a prompt: an entry of the namespace that holds it, within the limit. */
    ghost predicate Usable(found: Option<Match>, r: Request, limit: nat)
      requires config.blockSize > 0
      reads prefixes
    {
      found.Some? ==>
        && found.value.sequence in prefixes.entries && prefixes.entries[found.value.sequence].space == r.space
        && 0 < found.value.tokens <= limit && found.value.tokens <= |r.prompt|
           && found.value.tokens % config.blockSize == 0
        && r.prompt[..found.value.tokens] <= prefixes.entries[found.value.sequence].tokens
    }

    /** Looks a prompt up in the cache, which marks the entry found as used and changes nothing else. */
    method FindPrefix(r: Request, limit: nat) returns (found: Option<Match>)
      requires Lifecycle() && limit <= |r.prompt|
      modifies prefixes
      ensures Lifecycle() && SameEntries(old(prefixes.entries), prefixes.entries)
      ensures NoneOlder(old(prefixes.entries), prefixes.entries)
      ensures LongestMatch(old(prefixes.entries), r.space, r.prompt, limit, config.blockSize, found)
      ensures LongestMatch(prefixes.entries, r.space, r.prompt, limit, config.blockSize, found)
              && Usable(found, r, limit)
      ensures old(OnTrack()) ==> OnTrack()
    {
      hide Accounted, Balanced, Following, Validated, EntriesOk, IsTrie, TotalTokens;
      ghost var entries := prefixes.entries;
      found := prefixes.FindMatch(r.space, r.prompt, limit);
      SameMatch(entries, prefixes.entries, r.space, r.prompt, limit, config.blockSize, found);
      StampKeeps(pool.refs, table, active, entries, prefixes.entries, prefixes.tokenCount, freeSequences,
                 freeCacheSequences, config);
      if old(OnTrack()) {
        StampFollows(trace, runner.histories, table, pool.refs, entries, prefixes.entries, freeSequences,
                     freeCacheSequences, model, config);
      }
    }

    // ---- admission ------------------------------------------------------------------------------

    /** A request ready for admission. */
    ghost predicate Admissible(r: Request)
      reads `handles, `active
    {
      Open(handles, r.order) && handles[r.order] == Handle(r, [], handles[r.order].taken)
      && r.order !in LiveOrders(active)
    }

    ghost function ReusedOf(found: Option<Match>): seq<nat>
      requires config.blockSize > 0
      reads prefixes
    {
      if found.Some? && found.value.sequence in prefixes.entries
         && found.value.tokens / config.blockSize <= |prefixes.entries[found.value.sequence].blocks|
      then prefixes.entries[found.value.sequence].blocks[..found.value.tokens / config.blockSize] else []
    }

    /** Takes a slot, the reused and the fresh blocks, and lists the new item, unless the blocks do not suffice. */
    method Book(r: Request, held: seq<nat>, reused: nat, need: nat) returns (ok: bool, ghost granted: seq<nat>)
      requires pool.Valid() && freeSequences != [] && freeSequences[|freeSequences| - 1] < |table|
      requires LiveTable(pool.refs, held) && forall b :: 0 <= b < |pool.refs| ==> pool.refs[b] < MAX_REFS
      modifies `active, `freeSequences, `table, pool
      ensures pool.Valid() && (ok <==> need <= |old(pool.free)|)
      ensures |pool.free| == |old(pool.free)| - (if ok then need else 0)
      ensures !ok ==> active == old(active) && freeSequences == old(freeSequences) && table == old(table)
                      && pool.refs == old(pool.refs)
      ensures ok ==>
                var free := old(freeSequences);
                var slot := free[|free| - 1];
                && |granted| == need && Distinct(granted) && Within(granted, |old(pool.refs)|)
                && (forall i :: 0 <= i < |granted| ==> old(pool.refs)[granted[i]] == 0)
                && LiveTable(Granted(old(pool.refs), granted), held)
                && pool.refs == Retained(Granted(old(pool.refs), granted), held) && |pool.refs| == |old(pool.refs)|
                && freeSequences == free[..|free| - 1]
                && active == old(active) + [NewItem(r, slot, held + granted, reused)]
                && table == old(table)[slot := held + granted]
    {
      ghost var refs := pool.refs;
      var blocks := pool.Allocate(need);
      if blocks.None? {
        return false, [];
      }
      granted := blocks.value;
      GrantedLive(refs, granted, held);
      hide Granted, Retained;
      var slot := freeSequences[|freeSequences| - 1];
      freeSequences := freeSequences[..|freeSequences| - 1];
      var retained := pool.Retain(held);
      assert retained == Ok;
      active := active + [NewItem(r, slot, held + blocks.value, reused)];
      table := table[slot := held + blocks.value];
      ok := true;
    }

    ghost function SourceOf(found: Option<Match>): Option<nat> {
      if found.Some? && found.value.sequence >= 0 then Some(found.value.sequence) else None
    }

    function TokensOf(found: Option<Match>): nat {
      if found.Some? then found.value.tokens else 0
    }

    function SharedBlocks(found: Option<Match>): nat
      requires config.blockSize > 0
    {
      TokensOf(found) / config.blockSize
    }

    lemma ReuseLaws(found: Option<Match>, r: Request, limit: nat)
      requires Lifecycle() && Usable(found, r, limit)
      ensures Reuses(prefixes.entries, SourceOf(found), TokensOf(found), config.blockSize)
      ensures ReusedOf(found) == ReusedBlocks(prefixes.entries, SourceOf(found), TokensOf(found), config.blockSize)
      ensures TokensOf(found) <= |r.prompt|
              && ReusedTokens(prefixes.entries, SourceOf(found), TokensOf(found), config.blockSize)
                   == r.prompt[..TokensOf(found)]
      ensures LiveTable(pool.refs, ReusedOf(found)) && |ReusedOf(found)| == SharedBlocks(found)
      ensures forall b :: 0 <= b < |pool.refs| ==> pool.refs[b] < MAX_REFS
      ensures found.Some? ==> found.value.sequence >= 0
      ensures TokensOf(found) <= limit
    {
      hide Accounted, Balanced, IsTrie, TotalTokens, FreeExact;
      RefsBounded(pool.refs, table, active, prefixes.entries, prefixes.tokenCount, freeSequences, freeCacheSequences,
                  config);
      CeilDivExact(0, config.blockSize);
      if found.Some? {
        var s := found.value.sequence;
        assert EntryOk(prefixes.entries[s], config.blockSize);
        EntryReuse(pool.refs, table, active, prefixes.entries, prefixes.tokenCount, freeSequences, freeCacheSequences,
                   config, s, found.value.tokens);
      }
    }

    /** Runner side of an admission: an empty slot, then the reused prefix. */
    method Attach(slot: nat, found: Option<Match>) returns (r: Status)
      modifies runner
      ensures r == Ok || r == Failed(BackendError)
      ensures r.Ok? && slot < |old(runner.histories)|
              && (found.Some? ==>
                    0 <= found.value.sequence < |old(runner.histories)| && found.value.sequence != slot) ==>
                && runner.healthy
                && (found.Some? ==> found.value.tokens <= |old(runner.histories)[found.value.sequence]|)
                && runner.histories == old(runner.histories)[slot :=
                     if found.Some? then old(runner.histories)[found.value.sequence][..found.value.tokens] else []]
    {
      r := ClearSlot(slot, true);
      if r.Ok? && found.Some? && found.value.sequence >= 0 {
        var ok := runner.CopySequence(found.value.sequence, slot, found.value.tokens);
        if !ok {
          r := Failed(BackendError);
        }
      }
    }

    lemma BookLaws(refs0: seq<nat>, table0: seq<seq<nat>>, active0: seq<Item>, free0: seq<nat>, r: Request, it: Item,
                   held: seq<nat>, granted: seq<nat>)
      requires Standing()
               && Accounted(handles, registry, nextOrder, accepted, counters, waiting + incoming, active0, model,
                            config)
      requires Balanced(refs0, table0, active0, prefixes.entries, prefixes.tokenCount, free0, freeCacheSequences,
                        config)
      requires free0 != [] && it == NewItem(r, free0[|free0| - 1], held + granted, it.reused) && it.reused <= |r.prompt|
      requires Open(handles, r.order) && handles[r.order].request == r && handles[r.order].log == []
               && r.order !in LiveOrders(active0)
      requires LiveTable(refs0, held)
      requires Distinct(granted) && Within(granted, |refs0|) && forall i :: 0 <= i < |granted| ==>
                                                                  refs0[granted[i]] == 0
      requires |held + granted| == CeilDiv(|r.prompt| + r.maxTokens, config.blockSize)
      ensures LiveTable(Granted(refs0, granted), held) && it.sequence < |table0|
      ensures Accounted(handles, registry, nextOrder, accepted, counters, waiting + incoming, active0 + [it],
                        model, config)
      ensures Balanced(Retained(Granted(refs0, granted), held), table0[it.sequence := it.blocks], active0 + [it],
                       prefixes.entries,
                       prefixes.tokenCount, free0[..|free0| - 1], freeCacheSequences, config)
    {
      hide Accounted, Balanced, BlockPools.LiveTable, LiveOrders, Granted, Retained;
      AdmitBalanced(refs0, table0, active0, prefixes.entries, prefixes.tokenCount, free0, freeCacheSequences, config,
                    it, held, granted);
      assert ItemOk(it, handles, config);
      AdmitAccounted(handles, registry, nextOrder, accepted, counters, waiting + incoming, active0, model,
                     config, it);
    }

    /** One more active item, for this request, with nothing generated and some of its prompt still to feed. */
    twostate predicate Admitted(r: Request)
      reads this
    {
      var n := |old(active)|;
      && |active| == n + 1 && active[..n] == old(active)
      && active[n].request == r && !active[n].done && active[n].generated == 0 && active[n].processed < |r.prompt|
    }

    lemma RequestKnown(o: nat)
      requires Lifecycle() && o in handles
      ensures RequestOk(handles[o].request, model, config) && handles[o].request.order == o
              && handles[o].taken <= |handles[o].log|
      ensures handles[o].request.maxTokens > 0 && handles[o].request.prompt != []
    {
      hide LogOk, Balanced, Registered, Tracked, ItemsOk, QueueOk, IsTrie, EntriesOk, TotalTokens, FreeExact;
      assert HandleOk(o, handles[o], model, config);
    }

    lemma SlotKnown()
      requires Lifecycle() && freeSequences != []
      ensures freeSequences[|freeSequences| - 1] < |table|
    {
      hide Accounted, CreditsExact, SlotsExact, CacheSlotsExact, Apart, IsTrie, EntriesOk, TotalTokens, FreeExact;
      assert freeSequences[|freeSequences| - 1] in freeSequences;
    }

    /** An admission booked but not yet made known to the runner: the state before it, and the new item. */
    ghost predicate Booked(refs0: seq<nat>, table0: seq<seq<nat>>, active0: seq<Item>, free0: seq<nat>, it: Item,
                           found: Option<Match>, granted: seq<nat>)
      requires config.blockSize > 0
      reads this, pool, prefixes
    {
      && Balanced(refs0, table0, active0, prefixes.entries, prefixes.tokenCount, free0, freeCacheSequences, config)
      && free0 != [] && it.sequence == free0[|free0| - 1] && it.blocks == ReusedOf(found) + granted
      && Distinct(granted) && Within(granted, |refs0|) && (forall i :: 0 <= i < |granted| ==> refs0[granted[i]] == 0)
      && it.sequence < |table0| && table == table0[it.sequence := it.blocks] && active == active0 + [it]
      && freeSequences == free0[..|free0| - 1] && |pool.refs| == |refs0|
    }

    method HeldBlocks(found: Option<Match>, r: Request, limit: nat) returns (held: seq<nat>)
      requires Lifecycle() && Usable(found, r, limit)
      ensures held == ReusedOf(found)
    {
      ReuseLaws(found, r, limit);
      hide Accounted, Balanced, IsTrie, TotalTokens, FreeExact;
      if found.None? {
        return [];
      }
      held := prefixes.entries[found.value.sequence].blocks[..found.value.tokens / config.blockSize];
    }

    /** The bookkeeping of an admission, which already keeps the records sound. */
    method BookItem(r: Request, found: Option<Match>, need: nat) returns (ok: bool, ghost it: Item,
            ghost granted: seq<nat>)
      requires Lifecycle() && freeSequences != []
      requires Admissible(r) && r.prompt != [] && Usable(found, r, |r.prompt| - 1)
      requires SharedBlocks(found) + need == CeilDiv(|r.prompt| + r.maxTokens, config.blockSize)
      modifies `active, `freeSequences, `table, pool
      ensures Lifecycle() && (ok <==> need <= |old(pool.free)|)
              && |pool.free| == |old(pool.free)| - (if ok then need else 0)
      ensures !ok ==> active == old(active) && freeSequences == old(freeSequences) && table == old(table)
                      && pool.refs == old(pool.refs)
      ensures ok ==>
                && Booked(old(pool.refs), old(table), old(active), old(freeSequences), it, found, granted)
                && it.request == r && !it.done && it.generated == 0 && it.processed == TokensOf(found) < |r.prompt|
                && it.reused == TokensOf(found)
                && active == old(active) + [it] && Sent(it, handles) == [] && r.maxTokens > 0
    {
      hide Lifecycle, Accounted, Balanced, BlockPools.LiveTable, Granted, RefCounts.Retained, LiveOrders, Standing,
        RefCounts.Distinct, RefCounts.Within, Usable, ReusedOf, SharedBlocks, CeilDiv;
      ReuseLaws(found, r, |r.prompt| - 1);
      ghost var refs0, table0, active0, free0 := pool.refs, table, active, freeSequences;
      SlotKnown();
      Parts();
      RequestKnown(r.order);
      var held := HeldBlocks(found, r, |r.prompt| - 1);
      ok, granted := Book(r, held, TokensOf(found), need);
      it := NewItem(r, free0[|free0| - 1], held + granted, TokensOf(found));
      if ok {
        BookLaws(refs0, table0, active0, free0, r, it, held, granted);
      }
      Assemble();
    }

    /** Admits a request if the fresh blocks it needs are free: bookkeeping first, then the runner. */
    method Occupy(r: Request, found: Option<Match>, need: nat) returns (admitted: bool, status: Status)
      requires Lifecycle() && OnTrack() && AllLive() && InStepWith({}, {}) && freeSequences != []
      requires Admissible(r) && r.prompt != [] && Usable(found, r, |r.prompt| - 1)
      requires SharedBlocks(found) + need == CeilDiv(|r.prompt| + r.maxTokens, config.blockSize)
      modifies `active, `freeSequences, `table, `trace, pool, runner
      ensures Lifecycle() && (status == Ok || status == Failed(BackendError))
      ensures status.Ok? ==> OnTrack() && AllLive() && InStepWith({}, {}) && (admitted <==> need <= |old(pool.free)|)
      ensures status.Ok? && admitted ==>
                Admitted(r) && active[|active| - 1].processed == active[|active| - 1].reused == TokensOf(found)
      ensures !admitted ==> status.Ok? && active == old(active) && freeSequences == old(freeSequences)
      ensures |pool.free| == |old(pool.free)| - (if admitted then need else 0)
    {
      hide Lifecycle, OnTrack, Booked, Following, ActiveInStep, Usable, CeilDiv, SharedBlocks, TokensOf, Standing,
           Admissible, Sent;
      ghost var refs0, table0, active0, free0 := pool.refs, table, active, freeSequences;
      TrackParts();
      ghost var it, granted;
      admitted, it, granted := BookItem(r, found, need);
      if admitted {
        status := Connect(found, refs0, table0, active0, free0, it, granted);
      } else {
        status := Ok;
        BackOnTrack(refs0);
      }
    }

    lemma TrackParts()
      requires OnTrack()
      ensures runner.healthy
      ensures Following(trace, runner.histories, table, pool.refs, prefixes.entries, freeSequences, freeCacheSequences,
                        model, config)
    {
    }

    method Connect(found: Option<Match>, ghost refs0: seq<nat>, ghost table0: seq<seq<nat>>, ghost active0: seq<Item>,
                   ghost free0: seq<nat>, ghost it: Item, ghost granted: seq<nat>) returns (status: Status)
      requires Lifecycle() && runner.healthy && Booked(refs0, table0, active0, free0, it, found, granted)
      requires Following(trace, runner.histories, table0, refs0, prefixes.entries, free0, freeCacheSequences, model,
                         config)
      requires ActiveInStep(active0, handles, runner.histories, model, {}, {}) && it.request.maxTokens > 0
      requires Sent(it, handles) == [] && it.generated == 0 && it.processed < |it.request.prompt|
      requires Usable(found, it.request, |it.request.prompt| - 1) && it.processed == TokensOf(found)
      modifies `trace, runner
      ensures Lifecycle() && (status == Ok || status == Failed(BackendError))
      ensures status.Ok? ==> OnTrack() && InStepWith({}, {})
    {
      hide Lifecycle, OnTrack, Booked, Following, ActiveInStep, Usable, Sent, TokensOf, ReusedOf;
      ghost var h := runner.histories;
      ConnectLaws(found, refs0, table0, active0, free0, it, granted, h);
      var slot := active[|active| - 1].sequence;
      status := Attach(slot, found);
      if status.Ok? {
        trace := trace + [Credits.Adopt(slot, SourceOf(found), TokensOf(found), granted)];
        BackOnTrack(refs0);
      }
    }

    lemma ConnectLaws(found: Option<Match>, refs0: seq<nat>, table0: seq<seq<nat>>, active0: seq<Item>, free0: seq<nat>,
                      it: Item,
                      granted: seq<nat>, h: Histories)
      requires Lifecycle() && Booked(refs0, table0, active0, free0, it, found, granted)
      requires Following(trace, h, table0, refs0, prefixes.entries, free0, freeCacheSequences, model, config)
      requires ActiveInStep(active0, handles, h, model, {}, {}) && it.request.maxTokens > 0
      requires Sent(it, handles) == [] && it.generated == 0 && it.processed < |it.request.prompt|
      requires Usable(found, it.request, |it.request.prompt| - 1) && it.processed == TokensOf(found)
      ensures |pool.refs| == |refs0| && active == active0 + [it] && it.sequence < |h|
      ensures found.Some? ==> 0 <= found.value.sequence < |h| && found.value.sequence != it.sequence
      ensures found.Some? ==> found.value.tokens <= |h[found.value.sequence]| ==>
                h[it.sequence := h[found.value.sequence][..found.value.tokens]]
                  == h[it.sequence := it.request.prompt[..it.processed]]
      ensures found.None? ==> h[it.sequence := []] == h[it.sequence := it.request.prompt[..it.processed]]
      ensures ActiveInStep(active, handles, h[it.sequence := it.request.prompt[..it.processed]], model, {}, {})
      ensures Following(trace + [Credits.Adopt(it.sequence, SourceOf(found), TokensOf(found), granted)],
                        h[it.sequence := it.request.prompt[..it.processed]], table, refs0, prefixes.entries,
                        freeSequences,
                        freeCacheSequences, model, config)
    {
      hide Lifecycle, Balanced, Following, ActiveInStep, BusySlots, RefCounts.Distinct, RefCounts.Within, ReusedTokens,
           ReusedBlocks, Reuses, Usable, Sent, ReusedOf, TokensOf, Standing, Accounted, Traced, Cap, SlotsInStep,
           InStep, TokensIn;
      Parts();
      ReuseLaws(found, it.request, |it.request.prompt| - 1);
      AdmitFollows(trace, h, table0, refs0, active0, prefixes.entries, prefixes.tokenCount, free0, freeCacheSequences,
                   model, config,
                   it.sequence, SourceOf(found), TokensOf(found), granted);
      AttachedHistory(found, it.request, |it.request.prompt| - 1, h, it.sequence);
      StartInStep(active0, it, handles, h, model);
    }

    /** What the runner copies is the part of the prompt it reuses. */
    lemma AttachedHistory(found: Option<Match>, r: Request, limit: nat, h: Histories, slot: nat)
      requires config.blockSize > 0 && Usable(found, r, limit)
      requires slot < |h|
               && (found.Some? ==>
                     0 <= found.value.sequence < |h|
                     && h[found.value.sequence] == prefixes.entries[found.value.sequence].tokens)
      ensures h[slot := if found.Some? then h[found.value.sequence][..found.value.tokens] else []]
                == h[slot := r.prompt[..TokensOf(found)]]
    {
      if found.Some? {
        assert h[found.value.sequence][..found.value.tokens] == r.prompt[..found.value.tokens];
      }
    }

    /** Makes room in the cache; the slots of active requests do not notice. */
    method EvictOldest() returns (r: Status, ghost e: Entry)
      requires Lifecycle() && OnTrack() && |prefixes.entries| > 0
      modifies `freeCacheSequences, `table, `trace, pool, prefixes, runner
      ensures Lifecycle() && (r == Ok || r == Failed(BackendError))
      ensures |prefixes.entries| < |old(prefixes.entries)|
      ensures Oldest(old(prefixes.entries), e.sequence) && e == old(prefixes.entries)[e.sequence]
      ensures prefixes.entries == old(prefixes.entries) - {e.sequence}
      ensures freeCacheSequences == old(freeCacheSequences) + [e.sequence]
      ensures prefixes.tokenCount + |e.tokens| == old(prefixes.tokenCount)
      ensures |pool.free| <= |old(pool.free)| + |e.blocks|
      ensures r.Ok? ==> OnTrack() && SameSlots(old(runner.histories), runner.histories, config.maxActive)
    {
      hide Lifecycle, OnTrack, EntriesOk, IsTrie, TotalTokens, FreeExact, BusySlots, Standing, Accounted, Balanced,
           Following;
      Parts();
      var oldest := prefixes.LeastRecentlyUsed();
      CacheSlotApart(oldest.value);
      FewerEntries(prefixes.entries, oldest.value);
      assert Oldest(prefixes.entries, oldest.value);
      OwnKey(oldest.value);
      e := prefixes.entries[oldest.value];
      r := Evict(oldest.value, true);
    }

    /** The slots of active requests being as they were, so is their relation to the runner. */
    lemma KeptInStep(h: Histories, excused: set<nat>, pending: set<int>)
      requires Lifecycle() && ActiveInStep(active, handles, h, model, excused, pending)
               && SameSlots(h, runner.histories, config.maxActive)
      ensures InStepWith(excused, pending)
    {
      hide Accounted, CreditsExact, SlotsExact, CacheSlotsExact, TableExact, Apart, IsTrie, EntriesOk, TotalTokens,
           FreeExact, Sent;
      SameLogs(active, handles, handles, h, runner.histories, model, excused, excused, pending);
    }

    lemma OwnKey(s: int)
      requires Lifecycle() && s in prefixes.entries
      ensures prefixes.entries[s].sequence == s
    {
      hide Accounted, Balanced, IsTrie, TotalTokens, FreeExact;
    }

    lemma CacheSlotApart(s: int)
      requires Lifecycle() && s in prefixes.entries
      ensures s >= config.maxActive && s !in BusySlots(active)
    {
      hide Accounted, CreditsExact, SlotsExact, Apart, IsTrie, EntriesOk, TotalTokens, FreeExact;
    }

    lemma SharedBounded(found: Option<Match>, r: Request)
      requires config.blockSize > 0 && r.prompt != [] && Usable(found, r, |r.prompt| - 1)
      ensures SharedBlocks(found) <= CeilDiv(|r.prompt| + r.maxTokens, config.blockSize)
    {
      DivMonotone(TokensOf(found), |r.prompt| + r.maxTokens + config.blockSize - 1, config.blockSize);
    }

    /** With nothing active and nothing cached, every request fits. */
    lemma IdleHasRoom(r: Request, o: nat)
      requires Lifecycle() && o in handles && handles[o].request == r && prefixes.entries == map[] && active == []
      ensures CeilDiv(|r.prompt| + r.maxTokens, config.blockSize) <= |pool.free|
    {
      hide Accounted, CreditsExact, SlotsExact, CacheSlotsExact, TableExact, IsTrie, EntriesOk, TotalTokens, FreeExact,
           CeilDiv;
      RequestKnown(o);
      CeilDivMonotone(|r.prompt| + r.maxTokens, |pool.refs| * config.blockSize, config.blockSize);
      CeilDivExact(|pool.refs|, config.blockSize);
      assert BusySlots(active) == {};
      AllSlotsFree(table, active, prefixes.entries, freeSequences, freeCacheSequences, config);
      NobodyHolds(pool.refs, pool.free, table);
    }

    /** Evicts entries, oldest first, as long as that may help to fit a request; what it may reuse, always the longest
        match, is looked up anew. Nothing is evicted for a request that fits with what it can reuse, and the `last`
        entry was evicted because even the longest match then did not leave room. */
    method MakeRoom(r: Request, total: nat)
      returns (found: Option<Match>, status: Status, ghost last: Option<Entry>)
      requires Lifecycle() && OnTrack() && InStepWith({}, {}) && r.prompt != []
      requires config.blockSize > 0 && total == CeilDiv(|r.prompt| + r.maxTokens, config.blockSize)
      modifies `freeCacheSequences, `table, `trace, pool, prefixes, runner
      ensures Lifecycle() && (status == Ok || status == Failed(BackendError))
      ensures status.Ok? ==>
                OnTrack() && InStepWith({}, {}) && Usable(found, r, |r.prompt| - 1) && SharedBlocks(found) <= total
      ensures status.Ok? ==> LongestMatch(prefixes.entries, r.space, r.prompt, |r.prompt| - 1, config.blockSize, found)
      ensures status.Ok? && |prefixes.entries| > 0 ==> total - SharedBlocks(found) <= |pool.free|
      ensures forall m ::
                (Reusable(old(prefixes.entries), r, m) && total - SharedBlocks(m) <= old(|pool.free|)) ==>
                status.Ok? && found == m && SameEntries(old(prefixes.entries), prefixes.entries)
      ensures total <= old(|pool.free|) ==> status.Ok? && SameEntries(old(prefixes.entries), prefixes.entries)
      ensures |old(prefixes.entries)| == 0 ==> |prefixes.entries| == 0 && pool.free == old(pool.free)
      ensures status.Ok? && last.None? ==> SameEntries(old(prefixes.entries), prefixes.entries)
      ensures status.Ok? && last.Some? ==>
                FewerLeft(old(prefixes.entries), prefixes.entries, last.value) && TooFew(last.value, r, total)
    {
      hide Lifecycle, OnTrack, ActiveInStep, Usable, CeilDiv, LongestMatch, SameEntries, FewerLeft, NoneOlder,
           SharedBlocks, TooFew;
      status, last := Ok, None;
      ghost var cached := prefixes.entries;
      found := FindPrefix(r, |r.prompt| - 1);
      ghost var first := found;
      OnlyMatch(cached, r, first);
      SameSizeEntries(cached, prefixes.entries);
      SharedBounded(found, r);
      ghost var h := runner.histories;
      while total - SharedBlocks(found) > |pool.free| && |prefixes.entries| > 0
        invariant status == Ok && Lifecycle() && OnTrack() && SameSlots(h, runner.histories, config.maxActive)
        invariant Usable(found, r, |r.prompt| - 1) && SharedBlocks(found) <= total
        invariant LongestMatch(prefixes.entries, r.space, r.prompt, |r.prompt| - 1, config.blockSize, found)
        invariant total - SharedBlocks(first) <= old(|pool.free|) ==>
                    found == first && pool.free == old(pool.free)
                    && SameEntries(old(prefixes.entries), prefixes.entries)
        invariant total <= old(|pool.free|) ==>
                    total <= |pool.free| && SameEntries(old(prefixes.entries), prefixes.entries)
        invariant |old(prefixes.entries)| == 0 ==> |prefixes.entries| == 0 && pool.free == old(pool.free)
        invariant last.None? ==> SameEntries(old(prefixes.entries), prefixes.entries)
        invariant last.Some? ==> FewerLeft(old(prefixes.entries), prefixes.entries, last.value)
                                 && TooFew(last.value, r, total)
        decreases |prefixes.entries|
      {
        ghost var entries0, free0, found0 := prefixes.entries, |pool.free|, found;
        ghost var e;
        status, e := EvictOldest();
        if status.Failed? {
          return;
        }
        ghost var entries := prefixes.entries;
        found := FindPrefix(r, |r.prompt| - 1);
        SameSizeEntries(entries, prefixes.entries);
        SharedBounded(found, r);
        NextGone(old(prefixes.entries), entries0, last, entries, prefixes.entries, e);
        StillTooFew(entries0, free0, found0, e, r, total);
        last := Some(e);
      }
      KeptInStep(h, {}, {});
    }

    /** With this entry still cached, and its blocks at best free, a request would not fit. */
    ghost predicate TooFew(e: Entry, r: Request, total: nat)
      requires config.blockSize > 0 && r.prompt != []
      reads prefixes, pool
    {
      forall m :: Reusable(prefixes.entries[e.sequence := e], r, m) ==>
        |pool.free| - |e.blocks| < total - (if m.Some? then m.value.tokens else 0) / config.blockSize
    }

    lemma StillTooFew(entries0: map<int, Entry>, free0: nat, found0: Option<Match>, e: Entry, r: Request, total: nat)
      requires config.blockSize > 0 && r.prompt != [] && Reusable(entries0, r, found0)
      requires e.sequence in entries0 && e == entries0[e.sequence]
      requires SameEntries(entries0 - {e.sequence}, prefixes.entries)
      requires free0 < total - SharedBlocks(found0) && |pool.free| <= free0 + |e.blocks|
      ensures TooFew(e, r, total)
    {
      hide LongestMatch;
      ghost var entries := prefixes.entries[e.sequence := e];
      assert SameEntries(entries0, entries);
      SameMatch(entries0, entries, r.space, r.prompt, |r.prompt| - 1, config.blockSize, found0);
      OnlyMatch(entries, r, found0);
    }

    /** What a request may reuse: the longest match that leaves at least its last prompt token to be fed. */
    ghost predicate Reusable(entries: map<int, Entry>, r: Request, found: Option<Match>)
      requires config.blockSize > 0 && r.prompt != []
    {
      LongestMatch(entries, r.space, r.prompt, |r.prompt| - 1, config.blockSize, found)
    }

    lemma OnlyMatch(entries: map<int, Entry>, r: Request, found: Option<Match>)
      requires config.blockSize > 0 && r.prompt != [] && Reusable(entries, r, found)
      ensures forall m :: Reusable(entries, r, m) ==> m == found
    {
      hide LongestMatch;
      forall m | Reusable(entries, r, m) ensures m == found {
        MatchUnique(entries, r.space, r.prompt, |r.prompt| - 1, config.blockSize, m, found);
      }
    }

    /** One admission attempt. It fails only if other requests are active, and only for want of free blocks once nothing
        is cached any more. An admitted request reuses as much of its prompt as the cache offers. */
    method Admit(r: Request) returns (admitted: bool, status: Status, ghost found: Option<Match>)
      requires Lifecycle() && OnTrack() && AllLive() && InStepWith({}, {}) && freeSequences != [] && Admissible(r)
      modifies `active, `freeSequences, `freeCacheSequences, `table, `trace, pool, prefixes, runner
      ensures Lifecycle() && (status == Ok || status == Failed(BackendError))
      ensures status.Ok? ==> OnTrack() && AllLive() && InStepWith({}, {})
      ensures status.Ok? && admitted ==>
                && Admitted(r) && r.prompt != [] && config.blockSize > 0
                && LongestMatch(prefixes.entries, r.space, r.prompt, |r.prompt| - 1, config.blockSize, found)
                && var it := active[|active| - 1];
                   it.processed == it.reused == if found.Some? then found.value.tokens else 0
      ensures status.Ok? && !admitted ==> active == old(active) != [] && freeSequences == old(freeSequences)
      ensures status.Ok? && !admitted ==>
                |prefixes.entries| == 0 && config.blockSize > 0 && EngineAdmission.TooLarge(r, |pool.free|, config)
      ensures |old(prefixes.entries)| == 0 ==> |prefixes.entries| == 0 && |pool.free| <= |old(pool.free)|
    {
      hide Lifecycle, OnTrack, ActiveInStep, Usable, CeilDiv, Standing, RequestOk, SharedBlocks,
           EngineAdmission.TooLarge, SameEntries, LongestMatch, BlockPool.Valid, PrefixIndex.Valid, Accounted, Balanced;
      Parts();
      RequestKnown(r.order);
      var total := CeilDiv(|r.prompt| + r.maxTokens, config.blockSize);
      var reusable;
      ghost var last;
      reusable, status, last := MakeRoom(r, total);
      admitted, found := false, reusable;
      if status.Failed? {
        return;
      }
      NoRoomMeansBusy(r, reusable);
      NothingToReuse(r, reusable);
      admitted, status := Occupy(r, reusable, total - SharedBlocks(reusable));
    }

    /** Without a cache a request needs all its blocks. */
    lemma NothingToReuse(r: Request, found: Option<Match>)
      requires config.blockSize > 0 && r.prompt != [] && Usable(found, r, |r.prompt| - 1)
      ensures |prefixes.entries| == 0
              && CeilDiv(|r.prompt| + r.maxTokens, config.blockSize) - SharedBlocks(found) > |pool.free| ==>
                EngineAdmission.TooLarge(r, |pool.free|, config)
    {
      CeilDivExact(0, config.blockSize);
    }

    lemma NoRoomMeansBusy(r: Request, found: Option<Match>)
      requires Lifecycle() && Open(handles, r.order) && handles[r.order].request == r
               && Usable(found, r, |r.prompt| - 1)
      ensures |prefixes.entries| == 0 && active == [] ==>
                CeilDiv(|r.prompt| + r.maxTokens, config.blockSize) - SharedBlocks(found) <= |pool.free|
    {
      if |prefixes.entries| == 0 && active == [] {
        IdleHasRoom(r, r.order);
      }
    }

    /** Orders the queue by aged priority, then by submission; `ages` are the waiting times the order was taken at. */
    method SortWaiting() returns (ages: seq<int>)
      requires config.agingMs > 0
      modifies `waiting
      ensures |ages| == |waiting| && multiset(waiting) == multiset(old(waiting))
      ensures config.agingMs > 0 && QueueOrder(waiting, ages, config.agingMs)
    {
      var items: seq<Scheduling.ScheduleItem> := [];
      for i := 0 to |waiting|
        invariant |items| == i
        invariant forall j :: 0 <= j < i ==>
                    items[j].key == j && items[j].priority == waiting[j].priority && items[j].order == waiting[j].order
      {
        var age: int := *;
        items := items + [Scheduling.ScheduleItem(i, 0, waiting[i].priority, age, waiting[i].order)];
      }
      var sorted := Scheduling.StableSorted(items, config.agingMs);
      Scheduling.SortKeeps(items, config.agingMs);
      SortedPicks(items, sorted, waiting);
      ages := seq(|sorted|, i requires 0 <= i < |sorted| => sorted[i].waitMs);
      waiting := Picked(sorted, waiting);
      forall i, j | 0 <= i < j < |waiting| ensures !Scheduling.Before(Ranked(waiting[j], ages[j]),
              Ranked(waiting[i], ages[i]), config.agingMs) {
        assert !Scheduling.Before(sorted[j], sorted[i], config.agingMs);
      }
      RankedOrder(waiting, ages, config.agingMs);
    }

    lemma SortLaws(queue: seq<Request>)
      requires Lifecycle() && Queued() && multiset(queue) == multiset(waiting)
      ensures Accounted(handles, registry, nextOrder, accepted, counters, queue + incoming, active, model,
                        config)
      ensures QueueExact(queue + incoming, handles, active) && QueueWork(queue) == QueueWork(waiting)
    {
      hide Accounted, Balanced, QueueExact;
      PermutedExact(waiting, queue, incoming, handles, active);
      PermutedMembers(waiting, queue, incoming);
      QueueAccounted(handles, registry, nextOrder, accepted, counters, waiting + incoming, queue + incoming,
                     active, model, config);
      QueuePermuted(waiting, queue);
    }

    /** A queued request is ready for admission. */
    lemma QueuedAdmissible(i: nat)
      requires Lifecycle() && Queued() && i < |waiting|
      ensures Admissible(waiting[i])
    {
      hide LogsOk, Tallied, Registered, Tracked, ItemsOk, Balanced, LiveOrders;
      var queue := waiting + incoming;
      assert queue[i] == waiting[i];
      assert QueuedOk(queue[i], handles);
    }

    /** Room for the lists: the request admitted at `i` leaves the queue. */
    lemma DequeueLaws(i: nat, active0: seq<Item>, queue: seq<Request>)
      requires Lifecycle() && i < |waiting| && QueueExact(waiting + incoming, handles, active0)
      requires active != [] && active[..|active| - 1] == active0
      requires var it := active[|active| - 1];
               it.request == waiting[i] && !it.done && it.generated == 0
      requires queue == waiting[..i] + waiting[i + 1..]
      ensures Accounted(handles, registry, nextOrder, accepted, counters, queue + incoming, active, model,
                        config)
      ensures QueueExact(queue + incoming, handles, active)
      ensures QueueWork(queue) + ActiveWork(active, {}) < QueueWork(waiting) + ActiveWork(active0, {})
    {
      hide Lifecycle, Accounted, Balanced, QueueExact, QueueWork, ActiveWork, LiveOrders;
      var it := active[|active| - 1];
      var all := waiting + incoming;
      Parts();
      InitLast(active);
      DequeueShape(waiting, i, incoming);
      DequeueExact(waiting[..i], waiting[i], waiting[i + 1..] + incoming, handles, active0, it);
      QueueWithout(waiting, i);
      WorkSnoc(active0, it, {});
      LastIsLive(active);
      Without(waiting[..i], waiting[i], waiting[i + 1..] + incoming);
      QueueAccounted(handles, registry, nextOrder, accepted, counters, all, queue + incoming, active, model,
                     config);
    }

    method Dequeue(i: nat, ghost active0: seq<Item>)
      requires Lifecycle() && i < |waiting| && QueueExact(waiting + incoming, handles, active0)
      requires active != [] && active[..|active| - 1] == active0
      requires var it := active[|active| - 1];
               it.request == waiting[i] && !it.done && it.generated == 0
      modifies `waiting
      ensures Lifecycle() && Queued() && waiting == old(waiting)[..i] + old(waiting)[i + 1..]
      ensures QueueWork(waiting) + ActiveWork(active, {}) < QueueWork(old(waiting)) + ActiveWork(active0, {})
    {
      hide Accounted, Balanced, Standing, QueueExact, QueueWork, ActiveWork;
      DequeueLaws(i, active0, waiting[..i] + waiting[i + 1..]);
      waiting := waiting[..i] + waiting[i + 1..];
    }

    method Reorder() returns (ages: seq<int>)
      requires Settled()
      modifies `waiting
      ensures Settled() && |ages| == |waiting| && Work({}) == old(Work({}))
      ensures multiset(waiting) == multiset(old(waiting))
      ensures config.agingMs > 0 && QueueOrder(waiting, ages, config.agingMs)
    {
      hide Accounted, Balanced, QueueExact, ActiveInStep, Following, QueueWork, ActiveWork, Scheduling.Before;
      ghost var queue := waiting;
      SortPrepare();
      ages := SortWaiting();
    }

    /** Whatever permutation the sort arrives at, the records stay sound. */
    lemma SortPrepare()
      requires Lifecycle() && Queued()
      ensures forall queue: seq<Request> :: multiset(queue) == multiset(waiting) ==>
                && Accounted(handles, registry, nextOrder, accepted, counters, queue + incoming, active, model,
                             config)
                && QueueExact(queue + incoming, handles, active) && QueueWork(queue) == QueueWork(waiting)
    {
      forall queue: seq<Request> | multiset(queue) == multiset(waiting)
        ensures Accounted(handles, registry, nextOrder, accepted, counters, queue + incoming, active, model,
                          config)
        ensures QueueExact(queue + incoming, handles, active) && QueueWork(queue) == QueueWork(waiting)
      {
        SortLaws(queue);
      }
    }

    /** Admission in order of aged priority: who is admitted, and why the others are not. Nothing is left waiting while
        nothing is active. */
    method AdmitWaiting() returns (status: Status, ghost queue: seq<Request>, ghost ages0: seq<int>,
                                   ghost admitted: seq<bool>)
      requires Settled()
      modifies `active, `waiting, `freeSequences, `freeCacheSequences, `table, `trace, pool, prefixes, runner
      ensures Lifecycle() && (status == Ok || status == Failed(BackendError))
      ensures status.Ok? ==> Settled() && Work({}) <= old(Work({})) && (active == [] ==> waiting == [])
      ensures |ages0| == |queue| && multiset(queue) == multiset(old(waiting))
      ensures config.agingMs > 0 && QueueOrder(queue, ages0, config.agingMs)
      ensures status.Ok? ==>
                && config.blockSize > 0
                && EngineAdmission.Admitted(queue, ages0, admitted, waiting, old(active), active, |pool.free|,
                                            |freeSequences|, config)
    {
      hide Lifecycle, OnTrack, Queued, ActiveInStep, QueueWork, ActiveWork, QueueOrder, Standing,
           EngineAdmission.Choosing, EngineAdmission.Admitted, EngineAdmission.TooLarge;
      ConfigKnown();
      var ages := Reorder();
      status := Ok;
      var i := 0;
      SlotsOpen();
      queue, ages0, admitted := waiting, ages, [];
      ghost var before := active;
      EngineAdmission.StartChoice(queue, ages, active, |pool.free|, |prefixes.entries|, config);
      while i < |waiting| && freeSequences != []
        invariant status == Ok && 0 <= i && |ages| == |waiting| && Settled()
        invariant active == [] ==> i == 0 && freeSequences != []
        invariant Work({}) <= old(Work({}))
        invariant |admitted| <= |queue| && i + (|queue| - |admitted|) == |waiting|
        invariant Choosing(queue, ages0, admitted, ages, before)
        decreases |waiting| - i
      {
        var done;
        done, status, admitted := Choose(i, ages, queue, ages0, admitted, before);
        if status.Failed? {
          return;
        }
        if done {
          ages := ages[..i] + ages[i + 1..];
        } else if ages[i] >= config.admissionReserveMs {
          break;
        } else {
          i := i + 1;
        }
      }
      EngineAdmission.ChoiceDone(queue, ages0, admitted, waiting, ages, before, active, |pool.free|, |prefixes.entries|,
                                 |freeSequences|, config, i);
      admitted := admitted + seq(|queue| - |admitted|, _ => false);
    }

    /** How far admission has come in a queue. */
    ghost predicate Choosing(queue: seq<Request>, ages0: seq<int>, admitted: seq<bool>, ages: seq<int>,
                             before: seq<Item>)
      reads `active, `waiting, pool, prefixes
    {
      config.blockSize > 0
      && EngineAdmission.Choosing(queue, ages0, admitted, waiting, ages, before, active, |pool.free|,
                                  |prefixes.entries|, config)
    }

    lemma ConfigKnown()
      requires Settled()
      ensures config.blockSize > 0 && config.agingMs > 0
    {
    }

    /** Looks at one waiting request. */
    method Choose(i: nat, ages: seq<int>, ghost queue: seq<Request>, ghost ages0: seq<int>, ghost flags: seq<bool>,
                  ghost before: seq<Item>)
      returns (admitted: bool, status: Status, ghost flags': seq<bool>)
      requires Settled() && i < |waiting| == |ages| && freeSequences != []
      requires Choosing(queue, ages0, flags, ages, before) && i + (|queue| - |flags|) == |waiting|
      modifies `active, `waiting, `freeSequences, `freeCacheSequences, `table, `trace, pool, prefixes, runner
      ensures Lifecycle() && (status == Ok || status == Failed(BackendError))
      ensures status.Ok? ==> Settled() && Work({}) <= old(Work({})) && active != []
      ensures status.Ok? && admitted ==>
                && |waiting| == |old(waiting)| - 1 && flags' == flags + [true]
                && Choosing(queue, ages0, flags', ages[..i] + ages[i + 1..], before)
      ensures status.Ok? && !admitted ==>
                && waiting == old(waiting) && freeSequences == old(freeSequences) && config.blockSize > 0
                && EngineAdmission.TooLarge(waiting[i], |pool.free|, config)
      ensures status.Ok? && !admitted && ages[i] < config.admissionReserveMs ==>
                flags' == flags + [false] && Choosing(queue, ages0, flags', ages, before)
      ensures status.Ok? && !admitted && ages[i] >= config.admissionReserveMs ==>
                flags' == flags && Choosing(queue, ages0, flags', ages, before)
    {
      hide Settled, Lifecycle, Work, EngineAdmission.Choosing, EngineAdmission.TooLarge;
      ghost var waiting0, active0, free0, cached0 := waiting, active, |pool.free|, |prefixes.entries|;
      flags' := flags;
      admitted, status := AdmitAt(i);
      if status.Ok? {
        if admitted {
          flags' := flags + [true];
          EngineAdmission.ChooseOne(queue, ages0, flags, waiting0, ages, before, active0, free0, cached0, config, i,
                                    active, |pool.free|, |prefixes.entries|);
        } else if ages[i] < config.admissionReserveMs {
          flags' := flags + [false];
          EngineAdmission.PassOver(queue, ages0, flags, waiting, ages, before, active, free0, cached0, config, i,
                                   |pool.free|);
        } else {
          EngineAdmission.StillChoosing(queue, ages0, flags, waiting, ages, before, active, free0, cached0, config,
                                        |pool.free|);
        }
      }
    }

    lemma SlotsOpen()
      requires Lifecycle()
      ensures active == [] ==> freeSequences != []
    {
      hide Accounted, CreditsExact, CacheSlotsExact, TableExact, IsTrie, EntriesOk, TotalTokens, FreeExact;
      if active == [] {
        assert BusySlots(active) == {};
        assert 0 in freeSequences;
      }
    }

    method AdmitAt(i: nat) returns (admitted: bool, status: Status)
      requires Settled() && i < |waiting| && freeSequences != []
      modifies `active, `waiting, `freeSequences, `freeCacheSequences, `table, `trace, pool, prefixes, runner
      ensures Lifecycle() && (status == Ok || status == Failed(BackendError))
      ensures status.Ok? ==> Settled() && Work({}) <= old(Work({})) && active != []
      ensures status.Ok? && admitted ==>
                && waiting == old(waiting)[..i] + old(waiting)[i + 1..]
                && |active| == |old(active)| + 1 && active[..|old(active)|] == old(active)
                   && active[|old(active)|].request == old(waiting)[i]
      ensures status.Ok? && !admitted ==>
                && waiting == old(waiting) && active == old(active) && freeSequences == old(freeSequences)
                && |prefixes.entries| == 0 && config.blockSize > 0
                   && EngineAdmission.TooLarge(waiting[i], |pool.free|, config)
      ensures |old(prefixes.entries)| == 0 ==> |prefixes.entries| == 0 && |pool.free| <= |old(pool.free)|
    {
      hide Lifecycle, OnTrack, QueueExact, ActiveInStep, QueueWork, ActiveWork, Admissible, Standing;
      QueuedAdmissible(i);
      ghost var active0 := active;
      ghost var found;
      admitted, status, found := Admit(waiting[i]);
      if status.Ok? && admitted {
        Dequeue(i, active0);
      }
    }

    // ---- caching a prompt -----------------------------------------------------------------------------

    /** The part of a prompt that is worth caching: whole blocks, as far as the cache may hold tokens. */
    function CacheLength(r: Request): nat
      requires config.blockSize > 0
    {
      Floor(Scheduling.Min(|r.prompt|, config.prefixCacheTokens), config.blockSize)
    }

    function CacheBlocks(r: Request): nat
      requires config.blockSize > 0
    {
      CacheLength(r) / config.blockSize
    }

    lemma CacheLengthBounds(r: Request)
      requires config.blockSize > 0
      ensures CacheLength(r) <= |r.prompt| && CacheLength(r) <= config.prefixCacheTokens
              && CacheLength(r) % config.blockSize == 0
      ensures CacheBlocks(r) <= CeilDiv(|r.prompt| + r.maxTokens, config.blockSize)
    {
      FloorBounds(Scheduling.Min(|r.prompt|, config.prefixCacheTokens), config.blockSize);
      BlocksHold(CacheLength(r), |r.prompt| + r.maxTokens, config.blockSize);
    }

    lemma ItemKnown(i: nat)
      requires Lifecycle() && i < |active| && !active[i].done
      ensures ItemOk(active[i], handles, config) && config.blockSize > 0
    {
      hide LogsOk, Tallied, Registered, Tracked, QueueOk, Balanced, IsTrie, EntriesOk, TotalTokens, FreeExact;
    }

    lemma ItemCredits(i: nat, n: nat)
      requires Lifecycle() && i < |active| && !active[i].done && n <= |active[i].blocks|
      ensures LiveTable(pool.refs, active[i].blocks[..n]) && active[i].sequence < config.maxActive
    {
      hide Accounted, CreditsExact, SlotsExact, CacheSlotsExact, Apart, IsTrie, EntriesOk, TotalTokens, FreeExact,
           BlockPools.LiveTable;
      HeldIsLive(pool.refs, table, active[i].sequence, n);
    }

    /** Evicts, oldest first, until there is a slot and room for so many tokens, and not one entry more. */
    method MakeCacheRoom(length: nat) returns (r: Status, ghost last: Option<Entry>)
      requires Lifecycle() && OnTrack() && config.prefixCacheEntries > 0 && length <= config.prefixCacheTokens
      modifies `freeCacheSequences, `table, `trace, pool, prefixes, runner
      ensures Lifecycle() && (r == Ok || r == Failed(BackendError))
      ensures r.Ok? ==> OnTrack() && SameSlots(old(runner.histories), runner.histories, config.maxActive)
      ensures r.Ok? ==> freeCacheSequences != [] && prefixes.tokenCount + length <= config.prefixCacheTokens
      ensures old(freeCacheSequences != [] && prefixes.tokenCount + length <= config.prefixCacheTokens) ==>
                r.Ok? && prefixes.entries == old(prefixes.entries)
      ensures r.Ok? && last.None? ==> prefixes.entries == old(prefixes.entries)
      ensures r.Ok? && last.Some? ==>
                && OldestGone(old(prefixes.entries), prefixes.entries, last.value)
                && (freeCacheSequences == [last.value.sequence]
                    || prefixes.tokenCount + |last.value.tokens| + length > config.prefixCacheTokens)
    {
      hide Lifecycle, OnTrack;
      r, last := Ok, None;
      while |prefixes.entries| > 0
            && (freeCacheSequences == [] || prefixes.tokenCount + length > config.prefixCacheTokens)
        invariant r == Ok && Lifecycle() && OnTrack()
                  && SameSlots(old(runner.histories), runner.histories, config.maxActive)
        invariant old(freeCacheSequences != [] && prefixes.tokenCount + length <= config.prefixCacheTokens) ==>
                    prefixes.entries == old(prefixes.entries) && freeCacheSequences == old(freeCacheSequences)
                    && prefixes.tokenCount == old(prefixes.tokenCount)
        invariant last.None? ==> prefixes.entries == old(prefixes.entries)
        invariant last.Some? ==>
                    && OldestGone(old(prefixes.entries), prefixes.entries, last.value)
                    && (freeCacheSequences == [last.value.sequence]
                        || prefixes.tokenCount + |last.value.tokens| + length > config.prefixCacheTokens)
        decreases |prefixes.entries|
      {
        ghost var entries := prefixes.entries;
        ghost var e;
        r, e := EvictOldest();
        if r.Failed? {
          return;
        }
        NextOldest(old(prefixes.entries), entries, last, prefixes.entries, e);
        last := Some(e);
      }
      EmptyCacheHasRoom();
    }

    lemma EmptyCacheHasRoom()
      requires Lifecycle() && config.prefixCacheEntries > 0
      ensures |prefixes.entries| == 0 ==> freeCacheSequences != [] && prefixes.tokenCount == 0
    {
      hide Accounted, CreditsExact, SlotsExact, TableExact, Apart, IsTrie, EntriesOk, FreeExact;
      if |prefixes.entries| == 0 {
        assert config.maxActive in freeCacheSequences;
      }
    }

    /** The entry for a cached prompt. */
    function EntryFor(it: Item, slot: nat): Entry
      requires config.blockSize > 0 && CacheLength(it.request) <= |it.request.prompt|
               && CacheBlocks(it.request) <= |it.blocks|
    {
      Entry(slot, it.request.space, it.request.prompt[..CacheLength(it.request)], it.blocks[..CacheBlocks(it.request)],
            0)
    }

    /** Bookkeeping of a new cache entry: slot, credits, index. */
    method BookEntry(entry: Entry)
      requires pool.Valid() && prefixes.Valid() && prefixes.blockSize == config.blockSize && freeCacheSequences != []
      requires EntryOk(entry, prefixes.blockSize) && entry.sequence !in prefixes.entries
               && 0 <= entry.sequence < |table|
      requires LiveTable(pool.refs, entry.blocks) && forall b :: 0 <= b < |pool.refs| ==> pool.refs[b] < MAX_REFS
      modifies `freeCacheSequences, `table, pool, prefixes
      ensures pool.Valid() && prefixes.Valid() && |pool.refs| == |old(pool.refs)|
              && pool.refs == Retained(old(pool.refs), entry.blocks)
      ensures prefixes.entries == old(prefixes.entries)[entry.sequence := entry.(lastUsed := prefixes.clock)]
      ensures prefixes.tokenCount == old(prefixes.tokenCount) + |entry.tokens|
      ensures freeCacheSequences == old(freeCacheSequences)[..|old(freeCacheSequences)| - 1]
      ensures table == old(table)[entry.sequence := entry.blocks]
    {
      hide FreeExact, RefCounts.Retained, EntriesOk, IsTrie, TotalTokens;
      freeCacheSequences := freeCacheSequences[..|freeCacheSequences| - 1];
      var retained := pool.Retain(entry.blocks);
      assert retained == Ok;
      var inserted := prefixes.Insert(entry);
      assert inserted == Ok;
      table := table[entry.sequence := entry.blocks];
    }

    /** What may be cached of an item, and that its credits are there to be shared. */
    lemma CacheLaws(i: nat)
      requires Lifecycle() && i < |active| && !active[i].done && freeCacheSequences != []
      ensures config.blockSize > 0
      ensures CacheLength(active[i].request) <= |active[i].request.prompt|
              && CacheBlocks(active[i].request) <= |active[i].blocks|
      ensures LiveTable(pool.refs, active[i].blocks[..CacheBlocks(active[i].request)])
              && active[i].sequence < config.maxActive
      ensures forall b :: 0 <= b < |pool.refs| ==> pool.refs[b] < MAX_REFS
    {
      hide Lifecycle, Balanced, CacheLength, CacheBlocks, CeilDiv, Open, BlockPools.LiveTable, Standing, Accounted,
           Floor, Within, Distinct;
      Parts();
      ItemKnown(i);
      CacheLengthBounds(active[i].request);
      ItemCredits(i, CacheBlocks(active[i].request));
      RefsBounded(pool.refs, table, active, prefixes.entries, prefixes.tokenCount, freeSequences, freeCacheSequences,
                  config);
    }

    /** The cache holds as much of a prompt as it may: every whole number of blocks within the limit. */
    ghost predicate Cached(r: Request)
      requires config.blockSize > 0
      reads prefixes
    {
      forall k: nat {:trigger r.prompt[..k]} ::
        0 < k <= |r.prompt| && k <= config.prefixCacheTokens && k % config.blockSize == 0 ==>
          Through(prefixes.entries, r.space, r.prompt[..k]) != {}
    }

    lemma CachedBy(r: Request, s: int)
      requires config.blockSize > 0 && CacheLength(r) <= |r.prompt|
      requires s in prefixes.entries && prefixes.entries[s].space == r.space
               && r.prompt[..CacheLength(r)] <= prefixes.entries[s].tokens
      ensures Cached(r)
    {
      forall k: nat | 0 < k <= |r.prompt| && k <= config.prefixCacheTokens && k % config.blockSize == 0
        ensures s in Through(prefixes.entries, r.space, r.prompt[..k])
      {
        FloorLargest(k, Scheduling.Min(|r.prompt|, config.prefixCacheTokens), config.blockSize);
        assert r.prompt[..k] == r.prompt[..CacheLength(r)][..k];
      }
    }

    /** A prompt of less than a block is cached as it is. */
    lemma NothingToCache(r: Request)
      requires config.blockSize > 0 && CacheLength(r) == 0
      ensures Cached(r)
    {
      FloorZero(Scheduling.Min(|r.prompt|, config.prefixCacheTokens), config.blockSize);
    }

    /** The entry made from item `i`. */
    ghost predicate EntryOf(i: nat, e: Entry)
      requires config.blockSize > 0
      reads `active, `freeCacheSequences
    {
      && i < |active| && !active[i].done && freeCacheSequences != []
      && CacheLength(active[i].request) <= |active[i].request.prompt|
         && CacheBlocks(active[i].request) <= |active[i].blocks|
      && e == EntryFor(active[i], freeCacheSequences[|freeCacheSequences| - 1]).(lastUsed := e.lastUsed)
         && e.tokens != []
    }

    lemma EntryShape(i: nat, e: Entry)
      requires config.blockSize > 0 && EntryOf(i, e)
      ensures EntryOk(e, config.blockSize) && e.tokens <= active[i].request.prompt
              && e.sequence == freeCacheSequences[|freeCacheSequences| - 1]
      ensures |e.blocks| <= |active[i].blocks| && e.blocks == active[i].blocks[..|e.blocks|]
              && |e.tokens| == CacheLength(active[i].request)
    {
      hide CacheLength;
      CacheLengthBounds(active[i].request);
    }

    lemma CacheEntryLaws(i: nat, e: Entry, tokenCount': nat)
      requires Lifecycle() && config.blockSize > 0 && EntryOf(i, e)
      requires LiveTable(pool.refs, e.blocks) && tokenCount' <= config.prefixCacheTokens
      ensures 0 <= e.sequence < |table| && e.sequence !in prefixes.entries
      ensures Balanced(Retained(pool.refs, e.blocks), table[e.sequence := e.blocks], active,
                       prefixes.entries[e.sequence := e], tokenCount',
                       freeSequences, freeCacheSequences[..|freeCacheSequences| - 1], config)
    {
      hide Lifecycle, Balanced, EntryFor, BlockPools.LiveTable, RefCounts.Retained, Standing, Accounted, CacheLength,
           CacheBlocks, Within, Distinct, CreditsExact, SlotsExact, CacheSlotsExact, TableExact, Apart;
      Parts();
      EntryShape(i, e);
      CacheBalanced(pool.refs, table, active, prefixes.entries, prefixes.tokenCount, tokenCount', freeSequences,
                    freeCacheSequences, config, e);
    }

    lemma CacheEntryTrack(i: nat, e: Entry)
      requires Lifecycle() && OnTrack() && config.blockSize > 0 && EntryOf(i, e)
      requires active[i].sequence < |runner.histories|
               && runner.histories[active[i].sequence] == active[i].request.prompt
      ensures 0 <= e.sequence < |runner.histories| && e.sequence >= config.maxActive && active[i].sequence != e.sequence
      ensures Following(trace + [Credits.Adopt(e.sequence, Some(active[i].sequence), |e.tokens|, [])],
                        runner.histories[e.sequence := e.tokens],
                        table[e.sequence := e.blocks], pool.refs, prefixes.entries[e.sequence := e], freeSequences,
                        freeCacheSequences[..|freeCacheSequences| - 1], model, config)
    {
      hide Lifecycle, OnTrack, Balanced, EntryFor, Following, CacheLength, CacheBlocks, Standing, Accounted, Traced,
           Cap, SlotsInStep;
      Parts();
      TrackParts();
      EntryShape(i, e);
      CacheFollows(trace, runner.histories, table, pool.refs, active, prefixes.entries, prefixes.tokenCount,
                   freeSequences,
                   freeCacheSequences, model, config, i, e);
    }

    /** Stores an entry for item `i`: bookkeeping first, then the runner's copy. */
    method StoreEntry(i: nat) returns (r: Status)
      requires Lifecycle() && OnTrack() && i < |active| && !active[i].done && freeCacheSequences != []
               && config.blockSize > 0
      requires 0 < CacheLength(active[i].request)
               && prefixes.tokenCount + CacheLength(active[i].request) <= config.prefixCacheTokens
      requires active[i].sequence < |runner.histories|
               && runner.histories[active[i].sequence] == active[i].request.prompt
      modifies `freeCacheSequences, `table, `trace, pool, prefixes, runner
      ensures Lifecycle() && (r == Ok || r == Failed(BackendError))
      ensures r.Ok? ==>
                OnTrack() && SameSlots(old(runner.histories), runner.histories, config.maxActive)
                && Cached(active[i].request)
    {
      hide Lifecycle, OnTrack, Balanced, Accounted, Following, Cached, CacheLength, CacheBlocks, BlockPools.LiveTable,
           RefCounts.Retained, Standing, EntryOk, EntryOf, TotalTokens, IsTrie, EntriesOk, FreeExact;
      CacheLaws(i);
      Parts();
      var item := active[i];
      var slot := freeCacheSequences[|freeCacheSequences| - 1];
      var entry := EntryFor(item, slot);
      StoreLaws(i, entry);
      ghost var refs, h := pool.refs, runner.histories;
      BookEntry(entry);
      Assemble();
      r := Attach(slot, Some(Match(item.sequence, |entry.tokens|)));
      if r.Ok? {
        trace := trace + [Credits.Adopt(slot, Some(item.sequence), |entry.tokens|, [])];
        BackOnTrack(refs);
        CachedBy(item.request, slot);
      }
    }

    lemma StoreLaws(i: nat, entry: Entry)
      requires Lifecycle() && OnTrack() && i < |active| && !active[i].done && freeCacheSequences != []
               && config.blockSize > 0
      requires 0 < CacheLength(active[i].request)
               && prefixes.tokenCount + CacheLength(active[i].request) <= config.prefixCacheTokens
      requires active[i].sequence < |runner.histories|
               && runner.histories[active[i].sequence] == active[i].request.prompt
      requires CacheLength(active[i].request) <= |active[i].request.prompt|
               && CacheBlocks(active[i].request) <= |active[i].blocks|
      requires entry == EntryFor(active[i], freeCacheSequences[|freeCacheSequences| - 1])
      ensures EntryOk(entry, config.blockSize) && 0 <= entry.sequence < |table| && entry.sequence !in prefixes.entries
      ensures LiveTable(pool.refs, entry.blocks) && |entry.tokens| == CacheLength(active[i].request)
      ensures entry.sequence >= config.maxActive && active[i].sequence != entry.sequence
              && entry.sequence < |runner.histories|
      ensures runner.histories[active[i].sequence][..|entry.tokens|] == entry.tokens
      ensures forall stamp: nat :: var e := entry.(lastUsed := stamp);
        && Balanced(Retained(pool.refs, e.blocks), table[e.sequence := e.blocks], active,
                    prefixes.entries[e.sequence := e],
                    prefixes.tokenCount + |e.tokens|, freeSequences, freeCacheSequences[..|freeCacheSequences| - 1],
                    config)
        && Following(trace + [Credits.Adopt(e.sequence, Some(active[i].sequence), |e.tokens|, [])],
                     runner.histories[e.sequence := e.tokens],
                     table[e.sequence := e.blocks], pool.refs, prefixes.entries[e.sequence := e], freeSequences,
                     freeCacheSequences[..|freeCacheSequences| - 1], model, config)
    {
      hide Lifecycle, OnTrack, Balanced, Following, CacheLength, CacheBlocks, RefCounts.Retained;
      CacheLaws(i);
      EntryShape(i, entry);
      CacheEntryLaws(i, entry, prefixes.tokenCount + |entry.tokens|);
      CacheEntryTrack(i, entry);
      forall stamp: nat
        ensures var e := entry.(lastUsed := stamp);
          && Balanced(Retained(pool.refs, e.blocks), table[e.sequence := e.blocks], active,
                      prefixes.entries[e.sequence := e],
                      prefixes.tokenCount + |e.tokens|, freeSequences, freeCacheSequences[..|freeCacheSequences| - 1],
                      config)
          && Following(trace + [Credits.Adopt(e.sequence, Some(active[i].sequence), |e.tokens|, [])],
                       runner.histories[e.sequence := e.tokens],
                       table[e.sequence := e.blocks], pool.refs, prefixes.entries[e.sequence := e], freeSequences,
                       freeCacheSequences[..|freeCacheSequences| - 1], model, config)
      {
        var e := entry.(lastUsed := stamp);
        CacheEntryLaws(i, e, prefixes.tokenCount + |e.tokens|);
        CacheEntryTrack(i, e);
      }
    }

    /** Keeps a snapshot of a prompt for later requests, unless the cache holds that much of it already. */
    method CachePrompt(i: nat) returns (r: Status)
      requires Lifecycle() && OnTrack() && i < |active| && !active[i].done
      requires active[i].sequence < |runner.histories| && active[i].sequence < config.maxActive
      requires runner.histories[active[i].sequence] == active[i].request.prompt
      modifies `freeCacheSequences, `table, `trace, pool, prefixes, runner
      ensures Lifecycle() && (r == Ok || r == Failed(BackendError))
      ensures r.Ok? ==> OnTrack() && SameSlots(old(runner.histories), runner.histories, config.maxActive)
      ensures r.Ok? && config.prefixCacheEntries > 0 ==>
                var q := active[i].request;
                config.blockSize > 0 && forall k: nat {:trigger q.prompt[..k]} ::
                  0 < k <= |q.prompt| && k <= config.prefixCacheTokens && k % config.blockSize == 0 ==>
                    Through(prefixes.entries, q.space, q.prompt[..k]) != {}
    {
      hide Lifecycle, OnTrack, CacheLength, CacheBlocks, Standing, LongestMatch, SameEntries, Accounted,
           Balanced, Following, Floor, Through;
      Parts();
      r := Ok;
      if config.prefixCacheEntries == 0 {
        return;
      }
      CacheLengthBounds(active[i].request);
      var length := CacheLength(active[i].request);
      if length == 0 {
        NothingToCache(active[i].request);
        return;
      }
      var existing := FindPrefix(active[i].request, length);
      if existing.Some? && existing.value.tokens == length {
        CachedBy(active[i].request, existing.value.sequence);
        return;
      }
      ghost var last;
      r, last := MakeCacheRoom(length);
      if r.Ok? {
        r := StoreEntry(i);
      }
    }

    // ---- one batch ---------------------------------------------------------------------------------------

    function Limits(): Scheduling.Limits {
      Scheduling.Limits(config.batchTokens, config.prefillChunk, config.agingMs, config.policy)
    }

    ghost predicate Listed(items: seq<Scheduling.ScheduleItem>)
      reads `active
    {
      && |items| == |active|
      && forall i :: 0 <= i < |items| ==>
           && items[i].key == i && items[i].prefillRemaining == Minus(|active[i].request.prompt|, active[i].processed)
           && items[i].priority == active[i].request.priority && items[i].order == active[i].request.order
    }

    /** Under the mixed policy nobody who decodes is left out, and if prompts are still to be fed, one of them is. */
    ghost predicate AllServed(slices: seq<Scheduling.Slice>)
      reads `active
    {
      ServedByPlan(active, slices)
    }

    /** There is a token in the budget for every active request. */
    lemma ActiveBounded()
      requires Lifecycle() && AllLive()
      ensures |active| <= config.maxActive <= config.batchTokens
    {
      ItemsApart();
      SlotsBounded();
      hide Lifecycle, BusySlots;
      BusyCount(active);
      SubsetSize(BusySlots(active), Below(config.maxActive));
      assert Standing();
    }

    lemma SlotsBounded()
      requires Lifecycle()
      ensures Standing() && forall s :: s in BusySlots(active) ==> s < config.maxActive
    {
      forall i | 0 <= i < |active| && !active[i].done ensures active[i].sequence < config.maxActive {
        ItemKnown(i);
      }
    }

    lemma MixedLaws(items: seq<Scheduling.ScheduleItem>)
      requires Settled() && Listed(items) && Limits().agingMs > 0 && config.policy == Scheduling.Mixed
      ensures AllServed(Scheduling.Plan(items, Limits()).slices)
    {
      hide Lifecycle, OnTrack, Queued, ActiveInStep, Scheduling.Plan;
      ActiveBounded();
      SlotsBounded();
      ServesAll(active, items, Limits());
    }

    /** Who is served, and how much: within the budget, at most one slice each, and somebody if anybody is active. */
    method PlanBatch() returns (slices: seq<Scheduling.Slice>)
      requires Settled()
      ensures config.policy == Scheduling.Mixed ==> AllServed(slices)
      ensures SlicesOk(active, slices) && Scheduling.TokensOf(slices) <= config.batchTokens
      ensures active != [] ==> slices != []
      ensures forall s :: s in slices && s.prefill ==> s.tokens <= config.prefillChunk
      ensures config.policy == Scheduling.PrefillFirst
              && (exists i :: 0 <= i < |active| && active[i].processed < |active[i].request.prompt|) ==>
                forall s :: s in slices ==> s.prefill
      ensures config.agingMs > 0 && exists items: seq<Scheduling.ScheduleItem> ::
                && |items| == |active|
                && (forall i :: 0 <= i < |items| ==>
                      && items[i].key == i
                         && active[i].processed + items[i].prefillRemaining == |active[i].request.prompt|
                      && items[i].priority == active[i].request.priority && items[i].order == active[i].request.order)
                && slices == Scheduling.Plan(items,
                                             Scheduling.Limits(config.batchTokens, config.prefillChunk, config.agingMs,
                                                                      config.policy)).slices
      ensures Limits().agingMs > 0 && exists items :: Listed(items) && slices == Scheduling.Plan(items, Limits()).slices
    {
      hide Settled, Scheduling.Plan, SlicesOk, Scheduling.TokensOf, AllServed;
      var items := ListItems();
      LimitsKnown();
      var plan := Scheduling.Schedule(items, Limits());
      slices := plan.slices;
      PlanLaws(items);
      ChunkLaws(items);
      if config.policy == Scheduling.Mixed {
        MixedLaws(items);
      }
    }

    lemma ChunkLaws(items: seq<Scheduling.ScheduleItem>)
      requires Settled() && Listed(items) && Limits().agingMs > 0
      ensures var slices := Scheduling.Plan(items, Limits()).slices;
        && (forall s :: s in slices && s.prefill ==> s.tokens <= config.prefillChunk)
        && (config.policy == Scheduling.PrefillFirst
            && (exists i :: 0 <= i < |active| && active[i].processed < |active[i].request.prompt|) ==>
              forall s :: s in slices ==> s.prefill)
      ensures forall i :: 0 <= i < |active| ==>
                active[i].processed + items[i].prefillRemaining == |active[i].request.prompt|
    {
      hide Lifecycle, OnTrack, Queued, ActiveInStep, Scheduling.Plan, SlicesOk;
      SlotsBounded();
      FedWithin();
      PlanInChunks(items, Limits());
      if config.policy == Scheduling.PrefillFirst {
        Scheduling.PromptsFirst(items, Limits());
        if i :| 0 <= i < |active| && active[i].processed < |active[i].request.prompt| {
          assert items[i].prefillRemaining > 0;
        }
      }
    }

    lemma FedWithin()
      requires Settled()
      ensures forall i :: 0 <= i < |active| ==> active[i].processed <= |active[i].request.prompt|
    {
      forall i | 0 <= i < |active| ensures active[i].processed <= |active[i].request.prompt| {
        DecodeReady(i);
      }
    }

    lemma LimitsKnown()
      requires Settled()
      ensures Limits().agingMs > 0
    {
      hide OnTrack, Queued, ActiveInStep, Accounted, Balanced;
    }

    method ListItems() returns (items: seq<Scheduling.ScheduleItem>)
      ensures Listed(items)
    {
      items := [];
      for i := 0 to |active|
        invariant |items| == i
        invariant forall j :: 0 <= j < i ==>
                    && items[j].key == j
                    && items[j].prefillRemaining == Minus(|active[j].request.prompt|, active[j].processed)
                    && items[j].priority == active[j].request.priority && items[j].order == active[j].request.order
      {
        var age: int := *;
        items := items + [Scheduling.ScheduleItem(i, Minus(|active[i].request.prompt|, active[i].processed),
                                                  active[i].request.priority, age, active[i].request.order)];
      }
    }

    lemma PlanLaws(items: seq<Scheduling.ScheduleItem>)
      requires Settled() && Listed(items) && Limits().agingMs > 0
      ensures var slices := Scheduling.Plan(items, Limits()).slices;
        && SlicesOk(active, slices) && Scheduling.TokensOf(slices) <= config.batchTokens
        && (active != [] ==> slices != [])
    {
      hide Lifecycle, OnTrack, Queued, Scheduling.Plan, Scheduling.GreedyPrefill, Scheduling.TokensOf, Scheduling.Queue,
           Scheduling.DecodeSlices,
        Scheduling.DecodeServed, ActiveInStep;
      Parts();
      var plan := Scheduling.Plan(items, Limits());
      Scheduling.PlanFitsItems(items, Limits());
      PlanBudget(items, Limits());
      forall i | 0 <= i < |plan.slices| ensures SliceOk(active, plan.slices[i]) {
        assert Scheduling.SliceFits(items, plan.slices[i]);
        DecodeReady(plan.slices[i].key);
      }
    }

    /** A request whose prompt is fed has a token to go on with. */
    lemma DecodeReady(i: nat)
      requires Settled() && i < |active|
      ensures active[i].processed <= |active[i].request.prompt|
      ensures active[i].processed == |active[i].request.prompt| ==> active[i].generated > 0
    {
      hide Lifecycle, OnTrack, Queued;
      assert InStep(active[i], handles, runner.histories, model, {}, {});
    }

    method BuildBatch(slices: seq<Scheduling.Slice>) returns (tokens: seq<InputToken>)
      requires SlicesOk(active, slices)
      ensures tokens == BatchOf(active, slices)
    {
      tokens := [];
      assert slices[..0] == [];
      for i := 0 to |slices|
        invariant tokens == BatchOf(active, slices[..i])
      {
        assert SliceOk(active, slices[i]);
        assert slices[..i + 1][..i] == slices[..i];
        tokens := tokens + SliceTokens(active[slices[i].key], slices[i]);
      }
      assert slices[..|slices|] == slices;
    }

    lemma ItemsAreKnown()
      requires Lifecycle()
      ensures config.blockSize > 0 && ItemsKnown(active, model, config)
    {
      hide LogOk, Registered, Tracked, QueueOk, Balanced, IsTrie, EntriesOk, TotalTokens, FreeExact, CeilDiv, RequestOk;
      forall i | 0 <= i < |active| && !active[i].done
        ensures RequestOk(active[i].request, model, config)
                && |active[i].blocks|
                     == CeilDiv(|active[i].request.prompt| + active[i].request.maxTokens, config.blockSize)
      {
        assert ItemOk(active[i], handles, config);
        assert HandleOk(active[i].request.order, handles[active[i].request.order], model, config);
      }
    }

    /** After a batch has been fed: booked items in step, samples pending where asked for, answers honest. */
    ghost predicate AfterFeed(slices: seq<Scheduling.Slice>, tokens: seq<InputToken>, samples: seq<Sample>)
      reads this, runner
    {
      && ActiveInStep(EngineSync.Booked(active, slices), handles, runner.histories, model, {}, Asked(tokens))
      && Honest(model, runner.histories, tokens, samples)
      && |Asked(tokens)| == Questions(tokens)
    }

    method RunBatch(slices: seq<Scheduling.Slice>, tokens: seq<InputToken>) returns (samples: seq<Sample>,
            status: Status)
      requires Settled() && SlicesOk(active, slices) && tokens == BatchOf(active, slices)
      requires slices != [] && Scheduling.TokensOf(slices) <= config.batchTokens
      modifies `trace, runner
      ensures Lifecycle() && (status == Ok || status == Failed(BackendError))
      ensures status.Ok? ==> OnTrack() && AfterFeed(slices, tokens, samples) && AsksFor(active, slices, Asked(tokens))
    {
      hide Lifecycle, OnTrack, Settled, Following, ActiveInStep, SlicesOk, BatchOf, HistoriesAfter, Honest, Asked,
           Questions,
        AsksFor, EngineSync.Booked, Scheduling.TokensOf;
      RunLaws(slices, tokens);
      var result := runner.Execute(tokens);
      samples := [];
      if result.Failure? {
        return samples, Failed(BackendError);
      }
      samples := result.value;
      status := RequireReusable();
      if status.Ok? {
        trace := trace + [Credits.Feed(tokens)];
        BackOnTrack(pool.refs);
      }
    }

    lemma RunLaws(slices: seq<Scheduling.Slice>, tokens: seq<InputToken>)
      requires Settled() && SlicesOk(active, slices) && tokens == BatchOf(active, slices)
      requires slices != [] && Scheduling.TokensOf(slices) <= config.batchTokens
      ensures Lifecycle() && runner.model == model
      ensures var after := HistoriesAfter(runner.histories, tokens);
        && Following(trace + [Credits.Feed(tokens)], after, table, pool.refs, prefixes.entries, freeSequences,
                     freeCacheSequences, model, config)
        && ActiveInStep(EngineSync.Booked(active, slices), handles, after, model, {}, Asked(tokens))
      ensures AsksFor(active, slices, Asked(tokens)) && |Asked(tokens)| == Questions(tokens)
    {
      hide Lifecycle, OnTrack, Balanced, Following, ActiveInStep, QueueExact, ItemsKnown, SlicesOk, BatchOf,
           HistoriesAfter, Asked, Questions,
        AsksFor, EngineSync.Booked, Scheduling.TokensOf;
      ItemsAreKnown();
      TrackParts();
      Parts();
      FeedFollows(active, slices, handles, trace, runner.histories, pool.refs, table, prefixes.entries,
                  prefixes.tokenCount,
                  freeSequences, freeCacheSequences, model, config);
    }

    // ---- booking the slices and caching finished prompts --------------------------------------------------

    lemma BookSliceLaws(i: nat, it: Item)
      requires Lifecycle() && i < |active| && !active[i].done
      requires it == active[i].(processed := it.processed) && active[i].processed < it.processed <= |it.request.prompt|
      ensures Accounted(handles, registry, nextOrder, accepted, counters, waiting + incoming, active[i := it],
                        model, config)
      ensures Balanced(pool.refs, table, active[i := it], prefixes.entries, prefixes.tokenCount, freeSequences,
                       freeCacheSequences, config)
      ensures LiveOrders(active) == LiveOrders(active[i := it])
    {
      hide Lifecycle, Accounted, Balanced, LiveOrders, SameShape, ItemOk, ItemsOk;
      Parts();
      ItemKnown(i);
      BookedItemOk(active[i], it, handles, config);
      AccountedParts(handles, registry, nextOrder, accepted, counters, waiting + incoming, active, model,
                     config);
      ReplaceItems(handles, active, i, it, config);
      ReplaceShape(active, i, it);
      ShapeBalanced(pool.refs, table, active, active[i := it], prefixes.entries, prefixes.tokenCount, freeSequences,
                    freeCacheSequences, config);
      ItemsAccounted(handles, registry, nextOrder, accepted, counters, waiting + incoming, active,
                     active[i := it], model, config);
    }

    method BookSlice(i: nat, tokens: nat)
      requires Lifecycle() && Queued() && AllLive() && i < |active|
               && 0 < tokens <= |active[i].request.prompt| - active[i].processed
      modifies `active
      ensures Lifecycle() && Queued() && AllLive()
      ensures active == old(active)[i := old(active)[i].(processed := old(active)[i].processed + tokens)]
    {
      hide Accounted, Balanced, Standing, LiveOrders;
      BookSliceLaws(i, active[i].(processed := active[i].processed + tokens));
      active := active[i := active[i].(processed := active[i].processed + tokens)];
    }

    /** Items that will be in step once all slices are booked. */
    ghost predicate Bookable(goal: seq<Item>, asked: set<int>)
      reads `handles, runner
    {
      ActiveInStep(goal, handles, runner.histories, model, {}, asked)
    }

    lemma PromptFed(goal: seq<Item>, asked: set<int>, i: nat)
      requires Lifecycle() && Bookable(goal, asked) && i < |active| && i < |goal| && goal[i] == active[i]
               && !active[i].done
      requires active[i].processed == |active[i].request.prompt| && active[i].generated == 0
      ensures active[i].sequence < |runner.histories| && active[i].sequence < config.maxActive
      ensures runner.histories[active[i].sequence] == active[i].request.prompt
    {
      ItemKnown(i);
      hide Lifecycle, CeilDiv, Open;
      assert InStep(goal[i], handles, runner.histories, model, {}, asked);
    }

    lemma StillBookable(goal: seq<Item>, asked: set<int>, h: Histories)
      requires ActiveInStep(goal, handles, h, model, {}, asked) && SameSlots(h, runner.histories, config.maxActive)
      requires forall i :: 0 <= i < |goal| ==> goal[i].sequence < config.maxActive
      ensures Bookable(goal, asked)
    {
      hide Sent;
      SameLogs(goal, handles, handles, h, runner.histories, model, {}, {}, asked);
    }

    /** One slice: its tokens are counted as fed; a prompt that is now complete gets cached, unless its request
        expired. */
    method ApplySlice(slices: seq<Scheduling.Slice>, k: nat, ghost active0: seq<Item>,
                      ghost asked: set<int>) returns (r: Status)
      requires Lifecycle() && OnTrack() && Queued() && AllLive() && k < |slices| && SlicesOk(active0, slices)
      requires active == EngineSync.Booked(active0, slices[..k]) && Bookable(EngineSync.Booked(active0, slices), asked)
      requires forall i :: 0 <= i < |active0| ==>
                 active0[i].sequence < config.maxActive
                 && (active0[i].generated > 0 ==> active0[i].processed == |active0[i].request.prompt|)
      modifies `active, `freeCacheSequences, `table, `trace, `cancelled, `overdue, pool, prefixes, runner
      ensures Lifecycle() && old(Lapsed()) <= Lapsed() && (r == Ok || r == Failed(BackendError))
      ensures r.Ok? ==> OnTrack() && Queued() && AllLive()
      ensures r.Ok? ==>
                active == EngineSync.Booked(active0, slices[..k + 1])
                && Bookable(EngineSync.Booked(active0, slices), asked)
      ensures r.Ok? && slices[k].prefill && slices[k].key < |active|
              && active[slices[k].key].request.order !in Lapsed() ==>
                var it := active[slices[k].key];
                it.processed == |it.request.prompt| && config.prefixCacheEntries > 0 ==>
                  config.blockSize > 0 && Cached(it.request)
    {
      hide Lifecycle, OnTrack, QueueExact, ActiveInStep, EngineSync.Booked, SlicesOk;
      BookedOne(active0, slices, k);
      ghost var goal := EngineSync.Booked(active0, slices);
      GoalSlots(active0, slices);
      var slice := slices[k];
      r := Ok;
      if slice.prefill {
        BookSlice(slice.key, slice.tokens);
        if active[slice.key].processed == |active[slice.key].request.prompt| {
          var expired := Expired(active[slice.key].request.order);
          if !expired {
            PromptFed(goal, asked, slice.key);
            ghost var h := runner.histories;
            r := CachePrompt(slice.key);
            if r.Ok? {
              StillBookable(goal, asked, h);
            }
          }
        }
      }
    }

    lemma GoalSlots(active0: seq<Item>, slices: seq<Scheduling.Slice>)
      requires SlicesOk(active0, slices) && forall i :: 0 <= i < |active0| ==> active0[i].sequence < config.maxActive
      ensures forall i :: 0 <= i < |EngineSync.Booked(active0, slices)| ==>
                EngineSync.Booked(active0, slices)[i].sequence < config.maxActive
    {
      forall i | 0 <= i < |EngineSync.Booked(active0, slices)| ensures EngineSync.Booked(active0,
              slices)[i].sequence < config.maxActive {
        BookedShape(active0, slices, i);
      }
    }

    method ApplySlices(slices: seq<Scheduling.Slice>, ghost asked: set<int>) returns (r: Status)
      requires Lifecycle() && OnTrack() && Queued() && AllLive() && SlicesOk(active, slices)
      requires Bookable(EngineSync.Booked(active, slices), asked)
      modifies `active, `freeCacheSequences, `table, `trace, `cancelled, `overdue, pool, prefixes, runner
      ensures Lifecycle() && old(Lapsed()) <= Lapsed() && (r == Ok || r == Failed(BackendError))
      ensures r.Ok? ==>
                OnTrack() && Queued() && AllLive() && active == EngineSync.Booked(old(active), slices)
                && InStepWith({}, asked)
    {
      hide Lifecycle, OnTrack, Queued, ActiveInStep, EngineSync.Booked, SlicesOk;
      r := Ok;
      ghost var active0 := active;
      BookedNone(active, slices);
      ItemsPlaced();
      for k := 0 to |slices|
        invariant r == Ok && Lifecycle() && OnTrack() && Queued() && AllLive() && old(Lapsed()) <= Lapsed()
        invariant active == EngineSync.Booked(active0, slices[..k])
                  && Bookable(EngineSync.Booked(active0, slices), asked)
      {
        r := ApplySlice(slices, k, active0, asked);
        if r.Failed? {
          return;
        }
      }
      assert slices[..|slices|] == slices;
    }

    lemma ItemsPlaced()
      requires Lifecycle() && AllLive()
      ensures forall i :: 0 <= i < |active| ==>
                active[i].sequence < config.maxActive
                && (active[i].generated > 0 ==> active[i].processed == |active[i].request.prompt|)
    {
      forall i | 0 <= i < |active|
        ensures active[i].sequence < config.maxActive
                && (active[i].generated > 0 ==> active[i].processed == |active[i].request.prompt|)
      {
        ItemKnown(i);
      }
    }

    // ---- using the samples ------------------------------------------------------------------------------------

    /** Item `i` is about to send this token. */
    ghost predicate Sendable(i: nat, token: int)
      reads `active, `handles
    {
      && i < |active| && !active[i].done && active[i].processed == |active[i].request.prompt|
      && Running(active[i], handles, model) && token == model.next(active[i].request.prompt + Sent(active[i], handles))
    }

    lemma EmitLaws(i: nat, token: int)
      requires Lifecycle() && Queued() && Sendable(i, token)
      ensures var o, now := active[i].request.order, Extended(active[i], token);
        && o in handles && handles[o].taken <= |handles[o].log| && !Finished(handles[o].log)
        && var value := Logged(handles[o], token, UsageOf(now));
        && Accounted(handles[o := value], registry, nextOrder, accepted, counters, waiting + incoming,
                     active[i := now], model, config)
        && Accounted(handles, registry, nextOrder, accepted, counters, waiting + incoming, active[i := now],
                     model, config)
        && QueueExact(waiting + incoming, handles[o := value], active[i := now])
        && QueueExact(waiting + incoming, handles, active[i := now])
      ensures Balanced(pool.refs, table, active[i := Extended(active[i], token)], prefixes.entries, prefixes.tokenCount,
                       freeSequences, freeCacheSequences, config)
    {
      hide Lifecycle, Accounted, Balanced, LiveOrders, SameShape, ItemOk, ItemsOk, HandleOk, Running, Sent, Finished,
           QueueExact, TerminalOk, Orders;
      ItemOpen(i);
      var it := active[i];
      var o, now := it.request.order, Extended(it, token);
      var value := Logged(handles[o], token, UsageOf(now));
      var queue := waiting + incoming;
      Parts();
      ItemKnown(i);
      RequestKnown(o);
      AccountedParts(handles, registry, nextOrder, accepted, counters, queue, active, model, config);
      TokenLogged(handles, it, model, config, token, UsageOf(now));
      LiveNotQueued(queue, handles, active, i);
      ReplaceShape(active, i, now);
      ShapeBalanced(pool.refs, table, active, active[i := now], prefixes.entries, prefixes.tokenCount, freeSequences,
                    freeCacheSequences, config);
      ReplaceItems(handles, active, i, now, config);
      EmitItems(handles, active, i, now, value, config);
      ItemsAccounted(handles, registry, nextOrder, accepted, counters, queue, active, active[i := now], model,
                     config);
      LogAccounted(handles, registry, nextOrder, accepted, counters, queue, active, active[i := now], model,
                   config, o, value);
      LogExact(queue, handles, active, active[i := now], o, value);
      LogExact(queue, handles, active, active[i := now], o, handles[o]);
      assert handles[o := handles[o]] == handles;
    }

    lemma ItemOpen(i: nat)
      requires Lifecycle() && i < |active| && !active[i].done
      ensures Open(handles, active[i].request.order) && handles[active[i].request.order].request == active[i].request
    {
      hide Lifecycle, CeilDiv;
      ItemKnown(i);
    }

    /** Counts a token and offers it to the client; a full buffer refuses it. The runner may fail to tell what the token
        is, which leaves it counted and not sent. */
    method EmitSample(i: nat, token: int) returns (emitted: bool, status: Status)
      requires Lifecycle() && Queued() && Sendable(i, token)
      modifies `active, `handles
      ensures Lifecycle() && Queued() && (status == Ok || status == Failed(BackendError))
      ensures active == old(active)[i := Extended(old(active)[i], token)]
      ensures status.Failed? ==> !emitted && handles == old(handles)
      ensures var o := old(active)[i].request.order;
        status.Ok? ==>
        && o in old(handles)
        && (emitted <==> HasRoom(old(handles)[o], config.eventBufferSize))
        && handles == if emitted then old(handles)[o := Logged(old(handles)[o], token, UsageOf(active[i]))]
                      else old(handles)
    {
      hide Accounted, Balanced, Standing, QueueExact, Running, Sent, Finished;
      EmitLaws(i, token);
      var now := Extended(active[i], token);
      var o := now.request.order;
      active := active[i := now];
      var fault: bool := *;
      if fault {
        return false, Failed(BackendError);
      }
      status := Ok;
      var h;
      h, emitted := OfferToken(o, Token(token, UsageOf(now)));
      if emitted {
        handles := handles[o := h];
      }
    }

    method OfferToken(o: nat, e: Event) returns (h: Handle, ok: bool)
      requires o in handles && handles[o].taken <= |handles[o].log| && !Finished(handles[o].log) && e.Token?
      ensures ok ==> h == Logged(handles[o], e.token, e.usage)
      ensures ok <==> HasRoom(handles[o], config.eventBufferSize)
    {
      var r := Emitted(handles[o], e, config.eventBufferSize);
      h, ok := r.0, r.1;
    }

    ghost predicate Answered(i: nat, token: int, pending: set<int>)
      reads `active, runner
    {
      AnsweredIn(active, runner.histories, model, i, token, pending)
    }

    /** Until the request expires, the pending sample is the next greedy token after what was sent. */
    lemma AnswerSendable(i: nat, token: int, excused: set<nat>, pending: set<int>)
      requires Lifecycle() && InStepWith(excused, pending) && Answered(i, token, pending)
               && active[i].request.order !in excused
      ensures Sendable(i, token) && Matches(active[i], handles, runner.histories, model, true)
    {
      hide Lifecycle, Sent;
      assert InStep(active[i], handles, runner.histories, model, excused, pending);
    }

    /** What a sent token makes of the items. */
    lemma EmittedInStep(active0: seq<Item>, handles0: Handles, i: nat, token: int, emitted: bool, lapsed: set<nat>,
                        pending: set<int>)
      requires Standing() && i < |active0| && !active0[i].done && active0[i].request.order in handles0
      requires OthersInStep(active0, i, handles0, runner.histories, model, lapsed, pending)
      requires forall j, k :: 0 <= j < k < |active0| ==> Apart(active0, j, k)
      requires Running(active0[i], handles0, model) && Matches(active0[i], handles0, runner.histories, model, true)
      requires token == model.next(runner.histories[active0[i].sequence]) && 0 <= token < model.vocabulary
      requires active == active0[i := Extended(active0[i], token)] && active0[i].sequence !in pending
      requires var o := active0[i].request.order;
        handles == if emitted then handles0[o := Logged(handles0[o], token, UsageOf(active[i]))] else handles0
      requires emitted ==> Sent(active[i], handles) == Sent(active0[i], handles0) + [token]
      ensures OthersInStep(active, i, handles, runner.histories, model, lapsed, pending)
      ensures
        (emitted && !Stops(model, active[i].request, token) && active[i].generated < active[i].request.maxTokens) ==>
          InStepWith(lapsed, pending)
    {
      hide Sent, Held, Apart;
      var o := active0[i].request.order;
      var value := if emitted then Logged(handles0[o], token, UsageOf(active[i])) else handles0[o];
      assert handles == handles0[o := value];
      OthersStay(active0, i, active[i], handles0, value, runner.histories, model, lapsed, pending);
      if emitted {
        SampleInStep(active0[i], handles0, value.log, runner.histories, model, token, active[i], handles);
      }
    }

    /** What the sampling of item `i` leaves: all its neighbours as they were, and the runner's other slots, too. */
    twostate predicate OnlyItem(i: nat)
      requires i < |old(active)|
      reads this, runner
    {
      && |active| == |old(active)| && (forall j :: 0 <= j < |active| && j != i ==> active[j] == old(active)[j])
      && |runner.histories| == |old(runner.histories)|
      && forall s :: 0 <= s < |runner.histories| && s != old(active)[i].sequence ==>
           runner.histories[s] == old(runner.histories)[s]
    }

    /** Ends item `i`; all others are in step and stay so. */
    method FinishOne(i: nat, reason: Reason, status: nat, ghost lapsed: set<nat>,
                     ghost pending: set<int>) returns (r: Status)
      requires Lifecycle() && OnTrack() && Queued() && i < |active| && !active[i].done
      requires TerminalOk(model, active[i].request, Sent(active[i], handles), reason, status, UsageOf(active[i]))
      requires OthersInStep(active, i, handles, runner.histories, model, lapsed, pending)
      modifies `active, `handles, `registry, `counters, `freeSequences, `table, `trace, pool, runner
      ensures Lifecycle() && (r == Ok || r == Failed(BackendError))
      ensures r.Ok? ==> OnTrack() && Queued() && InStepWith(lapsed, pending) && OnlyItem(i)
      ensures r.Ok? ==> active[i] == Ended(old(active)[i]) && old(active)[i].request.order in old(handles)
                        && handles == Closed(old(handles), old(active)[i].request.order, reason, status,
                                             UsageOf(old(active)[i]))
      ensures r.Failed? ==> handles == old(handles)
    {
      hide Lifecycle, OnTrack, ActiveInStep, OthersInStep, QueueExact, TerminalOk, Sent, Closed, Apart;
      ItemsApart();
      ghost var active0, handles0, h := active, handles, runner.histories;
      EndExact(waiting + incoming, handles, active, i, reason, status, UsageOf(active[i]));
      r := Finish(i, reason, status, true);
      if r.Ok? {
        EndedOthers(active0, i, handles0, reason, status, h, lapsed, pending);
      }
    }

    lemma EndedOthers(active0: seq<Item>, i: nat, handles0: Handles, reason: Reason, status: nat, h: Histories,
                      lapsed: set<nat>, pending: set<int>)
      requires OthersInStep(active0, i, handles0, h, model, lapsed, pending) && i < |active0| && !active0[i].done
      requires active0[i].sequence < |h| && active0[i].request.order in handles0
      requires forall j, k :: 0 <= j < k < |active0| ==> Apart(active0, j, k)
      requires active == active0[i := Ended(active0[i])] && runner.histories == h[active0[i].sequence := []]
      requires handles == Closed(handles0, active0[i].request.order, reason, status, UsageOf(active0[i]))
      ensures InStepWith(lapsed, pending)
    {
      hide OthersInStep, ActiveInStep;
      var o := active0[i].request.order;
      EndOthers(active0, i, handles0,
                handles0[o].(log := handles0[o].log + [Requests.Terminal(reason, status, UsageOf(active0[i]))]), h,
                model, lapsed, pending);
    }

    /** After a token: a refused one, a stop token or the last one allowed ends the request. */
    method Conclude(i: nat, token: int, emitted: bool, ghost lapsed: set<nat>,
                    ghost pending: set<int>) returns (r: Status)
      requires Lifecycle() && OnTrack() && Queued() && i < |active| && !active[i].done
      requires OthersInStep(active, i, handles, runner.histories, model, lapsed, pending)
      requires emitted ==> Concluding(i, token)
      requires
        (emitted && !Stops(model, active[i].request, token) && active[i].generated < active[i].request.maxTokens) ==>
          InStepWith(lapsed, pending)
      modifies `active, `handles, `registry, `counters, `freeSequences, `table, `trace, pool, runner
      ensures Lifecycle() && (r == Ok || r == Failed(BackendError))
      ensures r.Ok? ==> OnTrack() && Queued() && InStepWith(lapsed, pending) && OnlyItem(i)
      ensures r.Ok? ==>
                var it := old(active)[i];
                var end := SampleEnd(model, it, emitted, token);
                && active[i] == (if end.Some? then Ended(it) else it)
                   && (end.Some? ==> it.request.order in old(handles))
                && handles == if end.Some?
                              then Closed(old(handles), it.request.order, end.value.0, end.value.1, UsageOf(it))
                              else old(handles)
      ensures r.Failed? ==> handles == old(handles)
    {
      hide Lifecycle, OnTrack, ActiveInStep, OthersInStep, QueueExact, TerminalOk, Sent, Stops;
      var stop := Stops(model, active[i].request, token);
      r := Ok;
      if !emitted {
        ErrorOk(i, Backpressure, 429);
        r := FinishOne(i, Backpressure, 429, lapsed, pending);
      } else if stop || active[i].generated >= active[i].request.maxTokens {
        r := FinishOne(i, if stop then Stopped else Length, 200, lapsed, pending);
      }
    }

    /** A token that was sent may be the last one. */
    ghost predicate Concluding(i: nat, token: int)
      reads `active, `handles
    {
      && i < |active|
      && (Stops(model, active[i].request, token) ==>
            TerminalOk(model, active[i].request, Sent(active[i], handles), Stopped, 200, UsageOf(active[i])))
      && (!Stops(model, active[i].request, token) && active[i].generated >= active[i].request.maxTokens ==>
            TerminalOk(model, active[i].request, Sent(active[i], handles), Length, 200, UsageOf(active[i])))
    }

    lemma TokenConcludes(active0: seq<Item>, handles0: Handles, i: nat, token: int)
      requires Standing() && LogsOk(handles0, model, config) && i < |active0| && !active0[i].done
               && ItemOk(active0[i], handles0, config)
      requires active0[i].processed == |active0[i].request.prompt| && Running(active0[i], handles0, model)
      requires token == model.next(active0[i].request.prompt + Sent(active0[i], handles0))
      requires active == active0[i := Extended(active0[i], token)]
      requires handles
                 == handles0[active0[i].request.order :=
                     Logged(handles0[active0[i].request.order], token, UsageOf(active[i]))]
      ensures Sent(active[i], handles) == Sent(active0[i], handles0) + [token] && Concluding(i, token)
    {
      hide LogsOk, Tallied, ItemOk, Running, Sent, TerminalOk, Stops, Logged, HandleOk;
      TokenLogged(handles0, active0[i], model, config, token, UsageOf(active[i]));
    }

    /** Uses one sample; the samples of expired requests are dropped. */
    method ApplySample(i: nat, token: int, ghost pending: set<int>) returns (r: Status)
      requires Lifecycle() && OnTrack() && Queued() && InStepWith(Lapsed(), pending) && Answered(i, token, pending)
      modifies `active, `handles, `registry, `counters, `freeSequences, `table, `trace, `cancelled, `overdue, pool,
               runner
      ensures Lifecycle() && old(Lapsed()) <= Lapsed() && (r == Ok || r == Failed(BackendError))
      ensures r.Ok? ==>
                OnTrack() && Queued() && InStepWith(Lapsed(), pending - {old(active)[i].sequence}) && OnlyItem(i)
      ensures r.Ok? ==> Advanced(old(active)[i], active[i], Lapsed())
      ensures r.Ok? ==> old(active)[i].request.order in old(handles)
      ensures r.Ok? ==>
                var it := old(active)[i];
                var h := old(handles)[it.request.order];
                || (it.request.order in Lapsed() && active[i] == it && handles == old(handles))
                || (active[i] == SampledItem(it, h, token, model, config.eventBufferSize)
                    && handles == old(handles)[it.request.order :=
                        SampledHandle(it, h, token, model, config.eventBufferSize)])
      ensures r.Ok? && old(active)[i].request.order in old(Lapsed()) ==>
                active[i] == old(active)[i] && handles == old(handles)
      ensures Grown(old(handles), handles)
    {
      hide Lifecycle, OnTrack, ActiveInStep, OthersInStep, QueueExact, Running, Matches, Sent, TerminalOk, Concluding,
           Stops, Apart;
      assert active[i].processed == |active[i].request.prompt|;
      ItemsApart();
      ghost var lapsed := Lapsed();
      var expired := Expired(active[i].request.order);
      r := Ok;
      ghost var rest := pending - {active[i].sequence};
      TakeSample(active, i, handles, runner.histories, model, lapsed, Lapsed(), pending);
      if expired {
        return;
      }
      AnswerSendable(i, token, lapsed, pending);
      ghost var it, handles0 := active[i], handles;
      var emitted;
      emitted, r := SendToken(i, token, rest);
      if r.Failed? {
        GrownNone(handles);
        return;
      }
      ghost var handles1 := handles;
      r := Conclude(i, token, emitted, Lapsed(), rest);
      SampledEffect(handles0, handles1, handles, it, token, emitted, model, config.eventBufferSize, r.Ok?);
    }

    method SendToken(i: nat, token: int, ghost rest: set<int>) returns (emitted: bool, status: Status)
      requires Lifecycle() && Queued() && Sendable(i, token)
               && Matches(active[i], handles, runner.histories, model, true)
      requires token == model.next(runner.histories[active[i].sequence]) && 0 <= token < model.vocabulary
      requires OthersInStep(active, i, handles, runner.histories, model, Lapsed(), rest) && active[i].sequence !in rest
      modifies `active, `handles
      ensures Lifecycle() && Queued() && active == old(active)[i := Extended(old(active)[i], token)]
      ensures status == Ok || (status == Failed(BackendError) && !emitted && handles == old(handles))
      ensures OthersInStep(active, i, handles, runner.histories, model, Lapsed(), rest)
      ensures emitted ==> Concluding(i, token)
      ensures
        (emitted && !Stops(model, active[i].request, token) && active[i].generated < active[i].request.maxTokens) ==>
          InStepWith(Lapsed(), rest)
      ensures var o := old(active)[i].request.order;
        status.Ok? ==>
        && o in old(handles) && (emitted <==> HasRoom(old(handles)[o], config.eventBufferSize))
        && handles == if emitted then old(handles)[o := Logged(old(handles)[o], token, UsageOf(active[i]))]
                      else old(handles)
    {
      hide Lifecycle, ActiveInStep, OthersInStep, QueueExact, Running, Matches, Sent, Concluding, Stops, Logged, LogsOk,
           ItemOk, Standing, Apart;
      Parts();
      ItemsApart();
      ItemKnown(i);
      LogsKnown();
      ghost var active0, handles0 := active, handles;
      emitted, status := EmitSample(i, token);
      if emitted {
        TokenConcludes(active0, handles0, i, token);
      }
      EmittedInStep(active0, handles0, i, token, emitted, Lapsed(), rest);
    }

    lemma LogsKnown()
      requires Lifecycle()
      ensures LogsOk(handles, model, config)
    {
      hide LogsOk, Tallied, Registered, Tracked, ItemsOk, QueueOk, Balanced, IsTrie, EntriesOk, TotalTokens, FreeExact;
    }

    /** Which item occupies each scheduled slot. */
    method SlotOwners(slices: seq<Scheduling.Slice>) returns (owners: map<int, nat>)
      requires SlicesOk(active, slices) && forall i, j :: 0 <= i < j < |active| ==> Apart(active, i, j)
      ensures forall k :: 0 <= k < |slices| ==>
                SliceOk(active, slices[k]) && Served(active, slices[k]).sequence in owners
                && owners[Served(active, slices[k]).sequence] == slices[k].key
    {
      owners := map[];
      for n := 0 to |slices|
        invariant forall k :: 0 <= k < n ==>
                    SliceOk(active, slices[k]) && Served(active, slices[k]).sequence in owners
                    && owners[Served(active, slices[k]).sequence] == slices[k].key
      {
        assert SliceOk(active, slices[n]);
        forall k | 0 <= k < n ensures Served(active, slices[k]).sequence != Served(active, slices[n]).sequence {
          DistinctSlots(active, slices, k, n);
        }
        owners := owners[active[slices[n].key].sequence := slices[n].key];
      }
    }

    /** Every sample from `j` on answers its item. */
    ghost predicate AnswersFrom(samples: seq<Sample>, j: nat, owners: map<int, nat>)
      requires j <= |samples|
      reads `active, runner
    {
      AnswersIn(active, runner.histories, model, samples, j, owners)
    }

    /** Items are as before, or have used a sample; those of the first `j` samples have. */
    ghost predicate Used(before: seq<Item>, samples: seq<Sample>, j: nat, owners: map<int, nat>)
      requires j <= |samples|
      reads `active, `cancelled, `overdue
    {
      UsedIn(before, active, samples, j, owners, Lapsed())
    }

    /** Uses the samples one after the other; between two of them clients may act. */
    method ApplySamples(samples: seq<Sample>, owners: map<int, nat>, open: bool) returns (r: Status)
      requires Lifecycle() && OnTrack() && Queued() && InStepWith(Lapsed(), Sampled(samples))
               && AnswersFrom(samples, 0, owners)
      requires forall i, k :: 0 <= i < k < |samples| ==> samples[i].sequence != samples[k].sequence
      modifies `active, `incoming, `handles, `registry, `counters, `freeSequences, `table, `trace, `nextOrder,
               `accepted, `rejected,
               `cancelled, `overdue, `stopping, pool, runner
      ensures Lifecycle() && old(Lapsed()) <= Lapsed() && (r == Ok || r == Failed(BackendError))
      ensures r.Ok? ==>
                OnTrack() && Queued() && InStepWith(Lapsed(), {}) && Used(old(active), samples, |samples|, owners)
      ensures Grown(old(handles), handles) && (open || incoming == old(incoming))
    {
      hide Lifecycle, OnTrack, Queued, ActiveInStep, Sampled, Grown, AnswersIn, UsedIn, Unsampled, SameSent,
           ClientsOnly;
      r := Ok;
      ghost var before, handles0 := active, handles;
      GrownNone(handles);
      assert samples[0..] == samples;
      NoneUsed(samples, owners);
      for j := 0 to |samples|
        invariant r == Ok && Lifecycle() && OnTrack() && Queued() && old(Lapsed()) <= Lapsed()
        invariant InStepWith(Lapsed(), Sampled(samples[j..])) && AnswersFrom(samples, j, owners)
        invariant Used(before, samples, j, owners) && Unsampled(before, active, samples, j, owners)
                  && Grown(handles0, handles)
        invariant open || incoming == old(incoming)
      {
        ghost var handles1 := handles;
        r := ApplyNext(samples, j, owners, before);
        GrownTwice(handles0, handles1, handles);
        if r.Failed? {
          return;
        }
        ghost var handles2, lapsed := handles, Lapsed();
        Interfere(open);
        ClientsKeepStep(handles2, lapsed, Lapsed(), Sampled(samples[j + 1..]));
        UsedLater(before, active, samples, j + 1, owners, lapsed, Lapsed());
        ClientsGrow(handles2, handles);
        GrownTwice(handles0, handles2, handles);
      }
      NoneLeft(samples);
    }

    lemma NoneUsed(samples: seq<Sample>, owners: map<int, nat>)
      ensures Used(active, samples, 0, owners) && Unsampled(active, active, samples, 0, owners)
    {
    }

    method ApplyNext(samples: seq<Sample>, j: nat, owners: map<int, nat>, ghost before: seq<Item>) returns (r: Status)
      requires Lifecycle() && OnTrack() && Queued() && j < |samples|
      requires InStepWith(Lapsed(), Sampled(samples[j..])) && AnswersFrom(samples, j, owners)
      requires Used(before, samples, j, owners) && Unsampled(before, active, samples, j, owners)
      requires forall i, k :: 0 <= i < k < |samples| ==> samples[i].sequence != samples[k].sequence
      modifies `active, `handles, `registry, `counters, `freeSequences, `table, `trace, `cancelled, `overdue, pool,
               runner
      ensures Lifecycle() && old(Lapsed()) <= Lapsed() && (r == Ok || r == Failed(BackendError))
      ensures r.Ok? ==>
                OnTrack() && Queued() && InStepWith(Lapsed(), Sampled(samples[j + 1..]))
                && AnswersFrom(samples, j + 1, owners)
      ensures r.Ok? ==> Used(before, samples, j + 1, owners) && Unsampled(before, active, samples, j + 1, owners)
      ensures Grown(old(handles), handles)
    {
      hide Lifecycle, OnTrack, Queued, ActiveInStep, Sampled, Advanced, Grown, SampledItem, SampledHandle;
      SampledTail(samples, j);
      ghost var active0, h, lapsed := active, runner.histories, Lapsed();
      r := ApplySample(owners[samples[j].sequence], samples[j].token, Sampled(samples[j..]));
      if r.Ok? {
        UsedStep(before, active0, active, h, runner.histories, model, samples, j, owners, lapsed, Lapsed());
      }
    }

    // ---- one iteration ----------------------------------------------------------------------------------------

    /** Once the slices are booked, each checked sample answers its item. */
    lemma AnswersReady(active0: seq<Item>, slices: seq<Scheduling.Slice>, tokens: seq<InputToken>, samples: seq<Sample>,
                       h: Histories,
                       owners: map<int, nat>)
      requires SlicesOk(active0, slices) && tokens == BatchOf(active0, slices)
               && AsksFor(active0, slices, Asked(tokens))
      requires forall i, j :: 0 <= i < j < |active0| ==> Apart(active0, i, j)
      requires ActiveInStep(EngineSync.Booked(active0, slices), handles, h, model, {}, Asked(tokens))
               && Honest(model, h, tokens, samples)
      requires Answers(samples, Asked(tokens), model.vocabulary)
      requires active == EngineSync.Booked(active0, slices) && AllLive() && InStepWith({}, Asked(tokens))
      requires forall k :: 0 <= k < |slices| ==>
                 SliceOk(active0, slices[k]) && Served(active0, slices[k]).sequence in owners
                 && owners[Served(active0, slices[k]).sequence] == slices[k].key
      ensures InStepWith(Lapsed(), Sampled(samples)) && AnswersFrom(samples, 0, owners)
    {
      hide ActiveInStep, BatchOf, Asked, EngineSync.Booked, Sampled, AnsweredIn, SlicesOk, Sent, Apart;
      AnswersAll(samples, Asked(tokens), model.vocabulary);
      Excuse(active, handles, runner.histories, model, {}, Lapsed(), Sampled(samples));
      assert samples[0..] == samples;
      forall k | 0 <= k < |samples|
        ensures
          && samples[k].sequence in owners && owners[samples[k].sequence] < |active|
          && active[owners[samples[k].sequence]].sequence == samples[k].sequence
          && AnsweredIn(active, runner.histories, model, owners[samples[k].sequence], samples[k].token,
                        Sampled(samples[0..]))
      {
        AnswerReady(active0, slices, tokens, samples[k], h, owners);
      }
    }

    lemma AnswerReady(active0: seq<Item>, slices: seq<Scheduling.Slice>, tokens: seq<InputToken>, s: Sample,
                      h: Histories, owners: map<int, nat>)
      requires SlicesOk(active0, slices) && tokens == BatchOf(active0, slices)
               && AsksFor(active0, slices, Asked(tokens))
      requires forall i, j :: 0 <= i < j < |active0| ==> Apart(active0, i, j)
      requires ActiveInStep(EngineSync.Booked(active0, slices), handles, h, model, {}, Asked(tokens))
      requires Plausible(model, h, tokens, s) ==> s.token == model.next(h[s.sequence])
      requires s.sequence in Asked(tokens) && 0 <= s.token < model.vocabulary
      requires active == EngineSync.Booked(active0, slices) && AllLive() && InStepWith({}, Asked(tokens))
      requires forall k :: 0 <= k < |slices| ==>
                 SliceOk(active0, slices[k]) && Served(active0, slices[k]).sequence in owners
                 && owners[Served(active0, slices[k]).sequence] == slices[k].key
      ensures s.sequence in owners && owners[s.sequence] < |active| && active[owners[s.sequence]].sequence == s.sequence
      ensures AnsweredIn(active, runner.histories, model, owners[s.sequence], s.token, Asked(tokens))
    {
      hide BatchOf, Asked, EngineSync.Booked, Sent, Apart, SlicesOk, SliceOk, InStep, AsksFor, Expects;
      var t := CompletingSlice(active0, slices, Asked(tokens), s.sequence);
      var i := slices[t].key;
      PendingAgree(active[i], handles, h, runner.histories, model, Asked(tokens));
      AskedWithin(tokens, s.sequence);
    }

    /** Owners of the scheduled slots. */
    ghost predicate OwnersOf(slices: seq<Scheduling.Slice>, owners: map<int, nat>)
      reads `active
    {
      forall k :: 0 <= k < |slices| ==>
        SliceOk(active, slices[k]) && Served(active, slices[k]).sequence in owners
        && owners[Served(active, slices[k]).sequence] == slices[k].key
    }

    /** A batch has been fed and its samples have passed the check. */
    ghost predicate Executed(slices: seq<Scheduling.Slice>, tokens: seq<InputToken>, samples: seq<Sample>,
                             owners: map<int, nat>)
      reads this, pool, prefixes, runner
    {
      && OnTrack() && Queued() && AllLive() && slices != [] && SlicesOk(active, slices)
         && tokens == BatchOf(active, slices)
      && AsksFor(active, slices, Asked(tokens)) && AfterFeed(slices, tokens, samples)
         && Answers(samples, Asked(tokens), model.vocabulary)
      && OwnersOf(slices, owners)
    }

    method ExecuteBatch() returns (slices: seq<Scheduling.Slice>, tokens: seq<InputToken>, samples: seq<Sample>,
                                   owners: map<int, nat>, r: Status)
      requires Settled() && active != []
      modifies `trace, runner
      ensures Lifecycle() && (r == Ok || r == Failed(BackendError))
      ensures r.Ok? ==> Executed(slices, tokens, samples, owners)
      ensures config.policy == Scheduling.Mixed ==> AllServed(slices)
      ensures Limits().agingMs > 0 && exists items :: Listed(items) && slices == Scheduling.Plan(items, Limits()).slices
    {
      hide Scheduling.Plan, AllServed, Listed, Lifecycle, OnTrack, Queued, ActiveInStep, SlicesOk, BatchOf, AsksFor,
           Asked, Questions, Honest, EngineSync.Booked, Apart, Answers,
        Scheduling.TokensOf, SliceOk;
      ItemsApart();
      slices := PlanBatch();
      assert slices != [];
      tokens := BuildBatch(slices);
      owners := SlotOwners(slices);
      samples, r := RunBatch(slices, tokens);
      if r.Ok? {
        AskedSlots(slices, Asked(tokens));
        r := Validate(tokens, samples, config.maxActive, model.vocabulary);
      }
    }

    lemma ItemsRunning()
      requires Settled()
      ensures forall i :: 0 <= i < |active| ==>
                !active[i].done && active[i].processed <= |active[i].request.prompt|
                && active[i].generated < active[i].request.maxTokens
      ensures forall i, j :: 0 <= i < j < |active| ==> Apart(active, i, j)
    {
      hide Lifecycle, OnTrack, Queued, Matches, Sent;
      ItemsApart();
      forall i | 0 <= i < |active|
        ensures active[i].processed <= |active[i].request.prompt| && active[i].generated < active[i].request.maxTokens
      {
        assert InStep(active[i], handles, runner.histories, model, {}, {});
      }
    }

    /** One pass over a batch: plan, feed, check, book, cache, sample. Some work gets done. */
    method Iteration(open: bool) returns (r: Status)
      requires Settled() && active != []
      modifies `active, `incoming, `handles, `registry, `counters, `freeSequences, `freeCacheSequences, `table, `trace,
               `nextOrder, `accepted, `rejected, `cancelled, `overdue, `stopping, pool, prefixes, runner
      ensures Lifecycle() && old(Lapsed()) <= Lapsed() && (r == Ok || r == Failed(BackendError))
      ensures r.Ok? ==> Working() && ActiveWork(active, Lapsed()) < old(ActiveWork(active, {}))
      ensures open || incoming == old(incoming)
      ensures Grown(old(handles), handles)
    {
      hide Lifecycle, ActiveWork, OnTrack, Queued, ActiveInStep, Apart, Grown, Honest, Asked, Questions, SlicesOk,
           BatchOf, AsksFor, Answers,
        OwnersOf, EngineSync.Booked, SameSent, ClientsOnly, Scheduling.Plan, Listed;
      GrownNone(handles);
      ItemsRunning();
      var slices, tokens, samples, owners;
      slices, tokens, samples, owners, r := ExecuteBatch();
      if r.Ok? {
        ghost var handles0 := handles;
        Interfere(open);
        StillExecuted(handles0, slices, tokens, samples);
        ClientsGrow(handles0, handles);
        ghost var handles1 := handles;
        r := UseBatch(slices, tokens, samples, owners, open);
        GrownTwice(handles0, handles1, handles);
      }
    }

    /** Clients do not notice that a batch is on its way, nor the batch the clients. */
    lemma StillExecuted(handles0: Handles, slices: seq<Scheduling.Slice>, tokens: seq<InputToken>, samples: seq<Sample>)
      requires ActiveInStep(EngineSync.Booked(active, slices), handles0, runner.histories, model, {}, Asked(tokens))
      requires Honest(model, runner.histories, tokens, samples) && |Asked(tokens)| == Questions(tokens)
      requires ClientsOnly(handles0, handles)
      ensures AfterFeed(slices, tokens, samples)
    {
      hide InStep;
      var booked := EngineSync.Booked(active, slices);
      ClientsSame(booked, handles0, handles);
      SameLogs(booked, handles0, handles, runner.histories, runner.histories, model, {}, {}, Asked(tokens));
    }

    method UseBatch(slices: seq<Scheduling.Slice>, tokens: seq<InputToken>, samples: seq<Sample>, owners: map<int, nat>,
                    open: bool)
      returns (r: Status)
      requires Lifecycle() && Executed(slices, tokens, samples, owners)
      requires forall i :: 0 <= i < |active| ==>
                 !active[i].done && active[i].processed <= |active[i].request.prompt|
                 && active[i].generated < active[i].request.maxTokens
      requires forall i, j :: 0 <= i < j < |active| ==> Apart(active, i, j)
      modifies `active, `incoming, `handles, `registry, `counters, `freeSequences, `freeCacheSequences, `table, `trace,
               `nextOrder, `accepted, `rejected, `cancelled, `overdue, `stopping, pool, prefixes, runner
      ensures Lifecycle() && old(Lapsed()) <= Lapsed() && (r == Ok || r == Failed(BackendError))
      ensures r.Ok? ==> Working() && ActiveWork(active, Lapsed()) < old(ActiveWork(active, {}))
      ensures open || incoming == old(incoming)
      ensures Grown(old(handles), handles)
    {
      hide Lifecycle, OnTrack, ActiveInStep, SlicesOk, BatchOf, AsksFor, Asked, Questions, Honest, EngineSync.Booked,
           Apart, ActiveWork, Sampled,
        AnswersIn, UsedIn, Answers, QueueExact, SliceOk, Grown;
      ghost var active0, h := active, runner.histories;
      GrownNone(handles);
      r := ApplySlices(slices, Asked(tokens));
      if r.Failed? {
        return;
      }
      AnswersReady(active0, slices, tokens, samples, h, owners);
      AnswersApart(samples, Asked(tokens), model.vocabulary);
      r := ApplySamples(samples, owners, open);
      if r.Failed? {
        return;
      }
      LiveKept();
      WorkDone(active0, slices, Asked(tokens), samples, owners, active, Lapsed(), model);
      EraseFinished();
    }

    lemma AskedSlots(slices: seq<Scheduling.Slice>, asked: set<int>)
      requires Lifecycle() && SlicesOk(active, slices) && AsksFor(active, slices, asked)
      ensures forall s :: s in asked ==> 0 <= s < config.maxActive
    {
      forall s | s in asked ensures 0 <= s < config.maxActive {
        var t :| 0 <= t < |slices| && Completes(active, slices[t]) && Served(active, slices[t]).sequence == s;
        ItemKnown(slices[t].key);
      }
    }

    // ---- the worker loop ------------------------------------------------------------------------------------------

    method DrainIncoming()
      requires Lifecycle()
      modifies `waiting, `incoming
      ensures Lifecycle() && (old(Queued()) ==> Queued())
      ensures waiting == old(waiting) + old(incoming) && incoming == []
    {
      hide Accounted, Balanced, Standing, QueueExact;
      while incoming != []
        invariant waiting + incoming == old(waiting) + old(incoming)
        decreases |incoming|
      {
        assert incoming == [incoming[0]] + incoming[1..];
        waiting := waiting + [incoming[0]];
        incoming := incoming[1..];
      }
    }

    predicate Idle()
      reads `active, `waiting, `incoming
    {
      active == [] && waiting == [] && incoming == []
    }

    lemma SomeWork()
      requires Working() && !Idle()
      ensures Work(Lapsed()) > 0
    {
      hide Lifecycle, OnTrack, Queued, Matches, Sent;
      if active != [] {
        assert InStep(active[|active| - 1], handles, runner.histories, model, Lapsed(), {});
      }
    }

    lemma DrainWork(lapsed: set<nat>)
      ensures QueueWork(waiting + incoming) + QueueWork([]) + ActiveWork(active, lapsed) == Work(lapsed)
    {
      QueueAppend(waiting, incoming);
    }

    /** One pass of the worker, with clients acting between its critical sections: every request that was in the
        engine is closer to its end, or the runner has failed. The errors for a plan without progress and for a
        request that never fits cannot occur. */
    method Pass(open: bool) returns (r: Status)
      requires Working() && !Idle()
      modifies `active, `waiting, `incoming, `handles, `registry, `counters, `freeSequences, `freeCacheSequences,
               `table, `trace,
               `nextOrder, `accepted, `rejected, `cancelled, `overdue, `stopping, pool, prefixes, runner
      ensures Lifecycle() && old(Lapsed()) <= Lapsed() && (r == Ok || r == Failed(BackendError))
      ensures r.Ok? ==> Working() && QueueWork(waiting) + ActiveWork(active, Lapsed()) < old(Work(Lapsed()))
      ensures r.Ok? && !open ==> incoming == []
      ensures Grown(old(handles), handles)
      ensures r.Ok? ==> forall o :: o in old(Lapsed()) && o in old(handles) ==> o in handles && Finished(handles[o].log)
    {
      hide Lifecycle, OnTrack, Queued, ActiveInStep, ActiveWork, QueueWork, Grown, OnlyExpired, Orders, Finished,
           SameSent, ClientsOnly;
      SomeWork();
      DrainWork(Lapsed());
      NoWork();
      ghost var lapsed, handles0, cancelled0 := Lapsed(), handles, cancelled;
      DrainIncoming();
      r := ExpireRequests();
      ExpiredGrown(handles0, handles, cancelled0, cancelled, overdue);
      if r.Failed? {
        return;
      }
      NoOrders(incoming);
      ghost var handles1 := handles;
      Interfere(open);
      ClientsKeepStep(handles1, {}, {}, {});
      ClientsGrow(handles1, handles);
      ghost var handles2 := handles;
      r := AdmitAndServe(open);
      NoWork();
      GrownTwice(handles1, handles2, handles);
      GrownTwice(handles0, handles1, handles);
      if r.Ok? {
        LapsedStay(handles0, handles1, lapsed);
      }
    }

    /** The rest of a pass, after the sweep. */
    method AdmitAndServe(open: bool) returns (r: Status)
      requires Settled()
      modifies `active, `waiting, `incoming, `handles, `registry, `counters, `freeSequences, `freeCacheSequences,
               `table, `trace,
               `nextOrder, `accepted, `rejected, `cancelled, `overdue, `stopping, pool, prefixes, runner
      ensures Lifecycle() && old(Lapsed()) <= Lapsed() && (r == Ok || r == Failed(BackendError))
      ensures r.Ok? ==> Working()
      ensures r.Ok? ==>
                || (active == [] && waiting == [])
                || QueueWork(waiting) + ActiveWork(active, Lapsed()) < old(QueueWork(waiting) + ActiveWork(active, {}))
      ensures Grown(old(handles), handles) && (open || incoming == old(incoming))
    {
      hide Lifecycle, OnTrack, Queued, ActiveInStep, ActiveWork, QueueWork, Grown, SameSent, ClientsOnly,
           EngineAdmission.Admitted,
        Scheduling.Before;
      ghost var handles0 := handles;
      GrownNone(handles);
      ghost var queue, ages, admitted;
      r, queue, ages, admitted := AdmitWaiting();
      if r.Failed? {
        return;
      }
      Interfere(open);
      ClientsKeepStep(handles0, {}, {}, {});
      ClientsGrow(handles0, handles);
      ghost var handles1 := handles;
      if active != [] {
        r := Iteration(open);
        GrownTwice(handles0, handles1, handles);
      } else {
        Excuse(active, handles, runner.histories, model, {}, Lapsed(), {});
      }
    }

    /** Requests that ended in the sweep have ended for good. */
    lemma LapsedStay(handles0: Handles, handles1: Handles, lapsed: set<nat>)
      requires Lifecycle() && Grown(handles1, handles) && handles0.Keys == handles1.Keys
      requires forall o :: o in lapsed && o in handles1 ==> !Open(handles1, o)
      ensures forall o :: o in lapsed && o in handles0 ==> o in handles && Finished(handles[o].log)
    {
      hide Lifecycle, LogsOk, Finished, ClosedAs;
      LogsKnown();
      forall o | o in lapsed && o in handles0 ensures o in handles && Finished(handles[o].log) {
        assert o in handles1.Keys;
        FinishedStays(handles1, handles, SERVED, model, config, o);
      }
    }

    lemma NoWork()
      ensures QueueWork([]) == 0 && ActiveWork([], Lapsed()) == 0
    {
    }

    /** Without new submissions the engine runs out of work, whatever else clients do: every accepted request ends. */
    method WorkUntilIdle() returns (r: Status)
      requires Working()
      modifies `active, `waiting, `incoming, `handles, `registry, `counters, `freeSequences, `freeCacheSequences,
               `table, `trace,
               `nextOrder, `accepted, `rejected, `cancelled, `overdue, `stopping, pool, prefixes, runner
      ensures Lifecycle() && (r == Ok || r == Failed(BackendError))
      ensures r.Ok? ==> Working() && Idle() && registry == map[] && forall o :: o in handles ==>
                                                                      Finished(handles[o].log)
      ensures Grown(old(handles), handles)
    {
      hide Lifecycle, OnTrack, Queued, ActiveInStep, ActiveWork, QueueWork, Grown;
      r := Ok;
      ghost var handles0 := handles;
      GrownNone(handles);
      while !Idle()
        invariant r == Ok && Working() && Grown(handles0, handles)
        decreases Work(Lapsed())
      {
        ghost var handles1 := handles;
        r := Pass(false);
        NoWork();
        GrownTwice(handles0, handles1, handles);
        if r.Failed? {
          return;
        }
      }
      NobodyLeft();
    }

    /** With empty queues and nothing active, nobody is waiting for anything. */
    lemma NobodyLeft()
      requires Lifecycle() && Idle()
      ensures registry == map[] && forall o :: o in handles ==> Finished(handles[o].log)
    {
      hide LogsOk, Tallied, QueueOk, ItemsOk, Balanced, IsTrie, EntriesOk, TotalTokens, FreeExact;
      assert Orders(waiting + incoming) == {} && LiveOrders(active) == {};
      forall o | o in handles ensures Finished(handles[o].log) {
        assert !Open(handles, o);
      }
      forall id ensures id !in registry {
        assert id in registry ==> Open(handles, registry[id]);
      }
    }

    // ---- shutdown ----------------------------------------------------------------------------------------------

    /** Nothing is left: every request has its terminal event, every block, slot and cache slot is free. */
    ghost predicate Emptied()
      reads this, pool, prefixes
    {
      && Idle() && registry == map[] && (forall o :: o in handles ==> Finished(handles[o].log))
      && prefixes.entries == map[] && |pool.free| == |pool.refs|
         && (forall b :: 0 <= b < |pool.refs| ==> pool.refs[b] == 0)
      && |freeSequences| == config.maxActive && |freeCacheSequences| == config.prefixCacheEntries
      && accepted == Total(counters)
    }

    predicate AllDone()
      reads `active
    {
      forall i :: 0 <= i < |active| ==> active[i].done
    }

    /** Ends every active request; with the check off this cannot fail. */
    method FinishAll(reason: Reason, status: nat, checkBackend: bool) returns (r: Status)
      requires Lifecycle() && ErrorKind(reason, status)
      modifies `active, `handles, `registry, `counters, `freeSequences, `table, `trace, pool, runner
      ensures Lifecycle() && (r == Ok || (checkBackend && r == Failed(BackendError)))
      ensures r.Ok? ==> active == []
      ensures OnlyClosed(old(handles), handles, {(reason, status)})
    {
      hide Lifecycle, OnTrack, Closed, Sent, TerminalOk, OnlyClosed, Open;
      r := Ok;
      ghost var handles0 := handles;
      NoneClosed(handles, {(reason, status)});
      for i := 0 to |active|
        invariant r == Ok && Lifecycle() && |active| == |old(active)|
        invariant forall j :: 0 <= j < i ==> active[j].done
        invariant OnlyClosed(handles0, handles, {(reason, status)})
      {
        if !active[i].done {
          ErrorOk(i, reason, status);
          ItemOpen(i);
          OneMoreClosed(handles0, handles, {(reason, status)}, active[i].request.order, reason, status,
                        UsageOf(active[i]));
        }
        r := Finish(i, reason, status, checkBackend);
        if r.Failed? {
          return;
        }
      }
      DropAll();
    }

    /** All items being done, the list can be cleared at once. */
    method DropAll()
      requires Lifecycle() && AllDone()
      modifies `active
      ensures Lifecycle() && active == []
    {
      hide Accounted, Balanced, Standing;
      EraseLaws();
      NoneLive(active);
      active := [];
    }

    /** Ends every queued request that has not ended already. */
    method CloseWaiting(reason: Reason, status: nat)
      requires Lifecycle() && active == [] && incoming == [] && ErrorKind(reason, status)
      modifies `waiting, `handles, `registry, `counters
      ensures Lifecycle() && waiting == [] && OnlyClosed(old(handles), handles, {(reason, status)})
    {
      hide Accounted, Balanced, Standing, Closed, Finished, TokensIn, OnlyClosed;
      Parts();
      WholeQueue(waiting, incoming);
      ghost var handles0 := handles;
      NoneClosed(handles, {(reason, status)});
      for i := 0 to |waiting|
        invariant waiting == old(waiting) && OnlyClosed(handles0, handles, {(reason, status)})
        invariant Accounted(handles, registry, nextOrder, accepted, counters, waiting[i..], active, model,
                            config)
      {
        QueueTail(waiting, i);
        CloseQueued(waiting[i], waiting[i + 1..], reason, status, waiting[i..], handles0);
      }
      waiting := [];
      assert waiting + incoming == [];
    }

    method CloseQueued(r: Request, ghost rest: seq<Request>, reason: Reason, status: nat, ghost queue: seq<Request>,
                       ghost handles0: Handles)
      requires Standing() && OnlyClosed(handles0, handles, {(reason, status)}) && active == []
               && ErrorKind(reason, status) && queue != []
      requires r == queue[0] && rest == queue[1..]
      requires Accounted(handles, registry, nextOrder, accepted, counters, queue, active, model, config)
      modifies `handles, `registry, `counters
      ensures Accounted(handles, registry, nextOrder, accepted, counters, rest, active, model, config)
      ensures OnlyClosed(handles0, handles, {(reason, status)})
      ensures r.order in old(handles) && r.order in handles
              && handles[r.order].log
                 == old(handles)[r.order].log
                    + if Finished(old(handles)[r.order].log) then []
                      else [Event.Terminal(reason, status, Usage(|r.prompt|, 0, 0))]
    {
      hide Accounted, Closed, TokensIn, LiveOrders, Finished, OnlyClosed;
      HeadKnown(queue, handles, registry, nextOrder, accepted, counters, active, model, config);
      NoneLiveOrders(active);
      Shift(r, rest, queue);
      if Open(handles, r.order) {
        ExpireAccounted(handles, registry, nextOrder, accepted, counters, [], r, rest, active, model, config,
                        reason, status);
        OneMoreClosed(handles0, handles, {(reason, status)}, r.order, reason, status, Usage(|r.prompt|, 0, 0));
      } else {
        QueueAccounted(handles, registry, nextOrder, accepted, counters, queue, rest, active, model, config);
      }
      Terminal(r, reason, status, Usage(|r.prompt|, 0, 0));
    }

    method EvictAll(checkBackend: bool) returns (r: Status)
      requires Lifecycle()
      modifies `freeCacheSequences, `table, `trace, pool, prefixes, runner
      ensures Lifecycle() && (r == Ok || (checkBackend && r == Failed(BackendError)))
      ensures r.Ok? ==> prefixes.entries == map[]
    {
      hide Lifecycle, OnTrack;
      r := Ok;
      while |prefixes.entries| > 0
        invariant r == Ok && Lifecycle()
        decreases |prefixes.entries|
      {
        r := EvictLeast(checkBackend);
        if r.Failed? {
          return;
        }
      }
    }

    method EvictLeast(checkBackend: bool) returns (r: Status)
      requires Lifecycle() && |prefixes.entries| > 0
      modifies `freeCacheSequences, `table, `trace, pool, prefixes, runner
      ensures Lifecycle() && (r == Ok || (checkBackend && r == Failed(BackendError)))
      ensures |prefixes.entries| < |old(prefixes.entries)|
    {
      hide Lifecycle, OnTrack, EntriesOk, IsTrie, TotalTokens, FreeExact, BusySlots, Standing, Accounted, Balanced,
           Following;
      Parts();
      var oldest := prefixes.LeastRecentlyUsed();
      CacheSlotApart(oldest.value);
      FewerEntries(prefixes.entries, oldest.value);
      r := Evict(oldest.value, checkBackend);
    }

    lemma EverythingFree()
      requires Lifecycle() && Idle() && prefixes.entries == map[]
      ensures Emptied()
    {
      NobodyLeft();
      FreeEverywhere();
      hide Accounted, Balanced, IsTrie, EntriesOk, TotalTokens, FreeExact;
      AccountedParts(handles, registry, nextOrder, accepted, counters, waiting + incoming, active, model,
                     config);
    }

    lemma FreeEverywhere()
      requires Lifecycle() && active == [] && prefixes.entries == map[]
      ensures |pool.free| == |pool.refs| && (forall b :: 0 <= b < |pool.refs| ==> pool.refs[b] == 0)
      ensures |freeSequences| == config.maxActive && |freeCacheSequences| == config.prefixCacheEntries
    {
      hide Accounted, CreditsExact, TableExact, IsTrie, EntriesOk, TotalTokens, FreeExact;
      assert BusySlots(active) == {};
      AllSlotsFree(table, active, prefixes.entries, freeSequences, freeCacheSequences, config);
      NobodyHolds(pool.refs, pool.free, table);
      ListedRange(freeSequences, 0, config.maxActive);
      ListedRange(freeCacheSequences, config.maxActive, config.prefixCacheEntries);
    }

    /** Shutdown, also after a fault and also when shutting down fails itself: with the check off it always
        completes. */
    method TerminateAll(reason: Reason, status: nat, checkBackend: bool) returns (r: Status)
      requires Lifecycle() && ErrorKind(reason, status)
      modifies `active, `waiting, `incoming, `handles, `registry, `counters, `freeSequences, `freeCacheSequences,
               `table, `trace,
               pool, prefixes, runner
      ensures Lifecycle() && (r == Ok || (checkBackend && r == Failed(BackendError)))
      ensures r.Ok? ==> Emptied()
      ensures OnlyClosed(old(handles), handles, {(reason, status)})
    {
      hide Lifecycle, OnTrack, Queued, OnlyClosed;
      ghost var handles0 := handles;
      NoneClosed(handles, {(reason, status)});
      runner.Synchronize();
      r := Ok;
      if checkBackend {
        r := RequireReusable();
        if r.Failed? {
          return;
        }
      }
      DrainIncoming();
      r := FinishAll(reason, status, checkBackend);
      if r.Failed? {
        return;
      }
      ghost var handles1 := handles;
      CloseWaiting(reason, status);
      ClosedTwice(handles0, handles1, handles, {(reason, status)});
      r := EvictAll(checkBackend);
      if r.Ok? {
        EverythingFree();
      }
    }

    // ---- the clients ---------------------------------------------------------------------------------------------

    /** Limits a request is checked against on its own. */
    predicate WithinLimits(input: Input) {
      && 0 < input.maxTokens < config.maxModelLen && 0 <= input.priority <= 3 && 1 <= input.timeoutMs <= 300000
      && |input.id| <= 128 && 0 < |input.space| <= 64
    }

    /** The first reason to refuse a submission, in the order they are checked. */
    function Verdict(input: Input): Option<Refusal>
      reads `stopping, `failed, `registry
    {
      if !WithinLimits(input) then Some(InvalidRequest)
      else if input.prompt == []
           || |input.prompt| > Minus(config.maxModelLen, input.maxTokens) then Some(ContextLengthExceeded)
      else if exists i :: 0 <= i < |input.prompt| && !(0 <= input.prompt[i] < model.vocabulary) then Some(InvalidToken)
      else if stopping || failed then Some(Unavailable)
      else if |registry| >= config.queueCapacity then Some(QueueFull)
      else if input.id != "" && input.id in registry then Some(DuplicateId)
      else None
    }

    /** What clients do leaves the worker's side alone and loses nothing of what was sent. */
    twostate predicate ClientStep()
      reads this
    {
      && ClientsOnly(old(handles), handles) && SameSent(active, old(handles), handles) && old(Lapsed()) <= Lapsed()
      && (old(stopping) ==> stopping) && old(incoming) <= incoming
    }

    /** A submission is accepted with a fresh order and an unused id, or refused for the first reason that applies. */
    method Submit(input: Input) returns (r: Submission)
      requires Lifecycle()
      modifies `handles, `registry, `incoming, `nextOrder, `accepted, `rejected
      ensures Lifecycle() && (old(Queued()) ==> Queued()) && ClientStep()
      ensures r.Accepted? <==>
                && 0 < input.maxTokens && 1 <= |input.prompt| && |input.prompt| + input.maxTokens <= config.maxModelLen
                && 0 <= input.priority <= 3 && 1 <= input.timeoutMs <= 300000
                && |input.id| <= 128 && 1 <= |input.space| <= 64
                && (forall i :: 0 <= i < |input.prompt| ==> 0 <= input.prompt[i] < model.vocabulary)
                && !stopping && !failed && old(|registry|) < config.queueCapacity
                   && (input.id == "" || input.id !in old(registry))
      ensures r.Rejected? ==>
                var limits := 0 < input.maxTokens < config.maxModelLen && 0 <= input.priority <= 3
                              && 1 <= input.timeoutMs <= 300000 && |input.id| <= 128 && 1 <= |input.space| <= 64;
                var fits := 1 <= |input.prompt| && |input.prompt| + input.maxTokens <= config.maxModelLen;
                var known := forall i :: 0 <= i < |input.prompt| ==> 0 <= input.prompt[i] < model.vocabulary;
                (r.refusal, r.status) == (if !limits then (InvalidRequest, 422)
                                          else if !fits then (ContextLengthExceeded, 422)
                                          else if !known then (InvalidToken, 422)
                                          else if stopping || failed then (Unavailable, 503)
                                          else if old(|registry|) >= config.queueCapacity then (QueueFull, 429)
                                          else (DuplicateId, 409))
      ensures r.Rejected? <==> old(Verdict(input)).Some?
      ensures r.Rejected? ==>
                && old(Verdict(input)) == Some(r.refusal) && r.status == StatusOf(r.refusal)
                   && rejected == old(rejected) + 1
                && handles == old(handles) && registry == old(registry) && incoming == old(incoming)
                   && accepted == old(accepted)
      ensures r.Accepted? ==>
                var q := r.request;
                && q == Request(q.id, q.order, input.prompt, input.maxTokens, input.priority, input.space,
                                input.ignoreEos)
                && q.order !in old(handles) && q.id !in old(registry) && (input.id != "" ==> q.id == input.id)
                && handles == old(handles)[q.order := Handle(q, [], 0)] && registry == old(registry)[q.id := q.order]
                && incoming == old(incoming) + [q] && accepted == old(accepted) + 1 && rejected == old(rejected)
    {
      hide Lifecycle, Queued, RequestOk, Sent, Verdict;
      VerdictMeans(input);
      var ok, refusal := Precheck(input);
      if !ok {
        rejected := rejected + 1;
        return Rejected(refusal, StatusOf(refusal));
      }
      r := Enter(input);
    }

    lemma VerdictMeans(input: Input)
      ensures var limits := 0 < input.maxTokens < config.maxModelLen && 0 <= input.priority <= 3
                            && 1 <= input.timeoutMs <= 300000 && |input.id| <= 128 && 1 <= |input.space| <= 64;
              var fits := 1 <= |input.prompt| && |input.prompt| + input.maxTokens <= config.maxModelLen;
              var known := forall i :: 0 <= i < |input.prompt| ==> 0 <= input.prompt[i] < model.vocabulary;
              Verdict(input) == if !limits then Some(InvalidRequest)
                                else if !fits then Some(ContextLengthExceeded)
                                else if !known then Some(InvalidToken)
                                else if stopping || failed then Some(Unavailable)
                                else if |registry| >= config.queueCapacity then Some(QueueFull)
                                else if input.id != "" && input.id in registry then Some(DuplicateId)
                                else None
    {
    }

    /** Gives the request its order and its id, and queues it unless the id is taken. */
    method Enter(input: Input) returns (r: Submission)
      requires Lifecycle()
      requires forall q: Request :: q.prompt == input.prompt && q.maxTokens == input.maxTokens ==>
                 RequestOk(q, model, config)
      modifies `handles, `registry, `incoming, `nextOrder, `accepted, `rejected
      ensures Lifecycle() && (old(Queued()) ==> Queued()) && SameSent(active, old(handles), handles)
      ensures r.Rejected? <==> input.id != "" && input.id in old(registry)
      ensures r.Rejected? ==>
                && r == Rejected(DuplicateId, StatusOf(DuplicateId)) && rejected == old(rejected) + 1
                && handles == old(handles) && registry == old(registry) && incoming == old(incoming)
                   && accepted == old(accepted)
      ensures r.Accepted? ==>
                var q := r.request;
                && q == Request(q.id, q.order, input.prompt, input.maxTokens, input.priority, input.space,
                                input.ignoreEos)
                && q.order !in old(handles) && q.id !in old(registry) && (input.id != "" ==> q.id == input.id)
                && handles == old(handles)[q.order := Handle(q, [], 0)] && registry == old(registry)[q.id := q.order]
                && incoming == old(incoming) + [q] && accepted == old(accepted) + 1 && rejected == old(rejected)
    {
      hide Accounted, Balanced, QueueExact, RequestOk, Sent, Standing;
      ghost var last := nextOrder;
      var order := nextOrder + 1;
      nextOrder := order;
      var id := input.id;
      if id == "" {
        id := FreshId(order);
      } else if id in registry {
        LaterOrder(last);
        rejected := rejected + 1;
        return Rejected(DuplicateId, StatusOf(DuplicateId));
      }
      var request := Request(id, order, input.prompt, input.maxTokens, input.priority, input.space, input.ignoreEos);
      Accept(request, last);
      r := Accepted(request);
    }

    /** The checks before an id is settled. */
    method Precheck(input: Input) returns (ok: bool, refusal: Refusal)
      ensures !ok ==> Verdict(input) == Some(refusal)
      ensures ok ==> Verdict(input) == if input.id != "" && input.id in registry then Some(DuplicateId) else None
      ensures ok ==> forall r: Request :: r.prompt == input.prompt && r.maxTokens == input.maxTokens ==>
                       RequestOk(r, model, config)
    {
      if !WithinLimits(input) {
        return false, InvalidRequest;
      }
      if input.prompt == [] || |input.prompt| > Minus(config.maxModelLen, input.maxTokens) {
        return false, ContextLengthExceeded;
      }
      for i := 0 to |input.prompt|
        invariant forall j :: 0 <= j < i ==> 0 <= input.prompt[j] < model.vocabulary
      {
        if !(0 <= input.prompt[i] < model.vocabulary) {
          return false, InvalidToken;
        }
      }
      if stopping || failed {
        return false, Unavailable;
      }
      if |registry| >= config.queueCapacity {
        return false, QueueFull;
      }
      return true, InvalidRequest;
    }

    lemma LaterOrder(last: nat)
      requires Standing()
               && Accounted(handles, registry, last, accepted, counters, waiting + incoming, active, model,
                            config)
      requires last <= nextOrder
      ensures Accounted(handles, registry, nextOrder, accepted, counters, waiting + incoming, active, model,
                        config)
    {
      hide LogsOk, Tallied, Registered, Tracked, ItemsOk, QueueOk;
    }

    /** A generated id: numbered by the order, or the next number not in flight. */
    method FreshId(order: nat) returns (id: string)
      requires nextOrder == order
      modifies `nextOrder
      ensures id !in registry && nextOrder >= order && id == "cmpl-" + Decimal(nextOrder)
    {
      id := "cmpl-" + Decimal(nextOrder);
      ghost var seen: set<string> := {};
      while id in registry
        invariant nextOrder >= order && id == "cmpl-" + Decimal(nextOrder)
        invariant seen <= registry.Keys && |seen| == nextOrder - order
        invariant forall s :: s in seen ==>
                    exists k: nat {:trigger Decimal(k)} :: k < nextOrder && s == "cmpl-" + Decimal(k)
        decreases |registry| + order - nextOrder
      {
        NewName(seen, nextOrder);
        SubsetSize(seen + {id}, registry.Keys);
        seen := seen + {id};
        nextOrder := nextOrder + 1;
        id := "cmpl-" + Decimal(nextOrder);
      }
    }

    method Accept(r: Request, ghost last: nat)
      requires Standing() && pool.Valid() && prefixes.Valid() && last < r.order <= nextOrder
      requires Accounted(handles, registry, last, accepted, counters, waiting + incoming, active, model, config)
      requires Balanced(pool.refs, table, active, prefixes.entries, prefixes.tokenCount, freeSequences,
                        freeCacheSequences, config)
      requires RequestOk(r, model, config) && r.id !in registry
      modifies `handles, `registry, `incoming, `accepted
      ensures Lifecycle() && (old(Queued()) ==> Queued()) && SameSent(active, old(handles), handles)
      ensures r.order !in old(handles) && handles == old(handles)[r.order := Handle(r, [], 0)]
      ensures registry == old(registry)[r.id := r.order] && incoming == old(incoming) + [r]
              && accepted == old(accepted) + 1
    {
      hide Accounted, Balanced, QueueExact, RequestOk, Sent;
      assert waiting + (incoming + [r]) == waiting + incoming + [r];
      SubmitAccounted(handles, registry, last, accepted, counters, waiting + incoming, active, model, config, r,
                      nextOrder);
      AcceptLaws(r, last);
      handles := handles[r.order := Handle(r, [], 0)];
      registry := registry[r.id := r.order];
      incoming := incoming + [r];
      accepted := accepted + 1;
    }

    lemma AcceptLaws(r: Request, last: nat)
      requires Standing()
               && Accounted(handles, registry, last, accepted, counters, waiting + incoming, active, model,
                            config)
      requires r.order !in handles
      ensures QueueExact(waiting + incoming, handles, active) ==>
                QueueExact(waiting + incoming + [r], handles[r.order := Handle(r, [], 0)], active)
      ensures SameSent(active, handles, handles[r.order := Handle(r, [], 0)])
    {
      hide LogsOk, Tallied, Registered, Tracked, QueueOk, CeilDiv, Sent;
      forall i | 0 <= i < |active| && !active[i].done ensures active[i].request.order != r.order {
        assert ItemOk(active[i], handles, config);
      }
      OthersUnchanged(active, handles, r.order, Handle(r, [], 0));
    }

    /** Flags a request in flight for cancellation. */
    method Cancel(id: string) returns (found: bool)
      modifies `cancelled
      ensures found <==> id in registry
      ensures cancelled == old(cancelled) + if found then {registry[id]} else {}
    {
      found := id in registry;
      if found {
        cancelled := cancelled + {registry[id]};
      }
    }

    method Stop()
      modifies `stopping
      ensures stopping
    {
      stopping := true;
    }

    /** A client takes the oldest event it has not seen. */
    method TakeEvent(o: nat) returns (e: Option<Event>)
      requires Lifecycle()
      modifies `handles
      ensures Lifecycle() && (old(Queued()) ==> Queued()) && ClientStep()
      ensures e.Some? <==> o in old(handles) && old(handles)[o].taken < |old(handles)[o].log|
      ensures if e.Some? then
                e.value == old(handles)[o].log[old(handles)[o].taken]
                && handles == old(handles)[o := old(handles)[o].(taken := old(handles)[o].taken + 1)]
              else handles == old(handles)
    {
      hide Accounted, Balanced, QueueExact, Standing, Sent;
      if o !in handles {
        return None;
      }
      RequestKnown(o);
      var (h, event) := Received(handles[o]);
      e := event;
      TakeLaws(o, h);
      handles := handles[o := h];
    }

    lemma TakeLaws(o: nat, value: Handle)
      requires Lifecycle() && o in handles && value == handles[o].(taken := value.taken) && value.taken <= |value.log|
      ensures Accounted(handles[o := value], registry, nextOrder, accepted, counters, waiting + incoming, active,
                        model, config)
      ensures QueueExact(waiting + incoming, handles, active) ==>
                QueueExact(waiting + incoming, handles[o := value], active)
      ensures SameSent(active, handles, handles[o := value])
    {
      hide Lifecycle, Balanced, Accounted, LogOk, LiveOrders, TokensIn, QueueExact, ItemsOk;
      Parts();
      AccountedParts(handles, registry, nextOrder, accepted, counters, waiting + incoming, active, model,
                     config);
      assert HandleOk(o, handles[o], model, config);
      TakenItems(handles, active, o, value, config);
      LogAccounted(handles, registry, nextOrder, accepted, counters, waiting + incoming, active, active, model,
                   config, o, value);
      if QueueExact(waiting + incoming, handles, active) {
        LogExact(waiting + incoming, handles, active, active, o, value);
      }
    }

    /** Any number of client actions, in any order, while the worker is between two critical sections; `open` tells
        whether clients also submit requests. */
    method Interfere(open: bool)
      requires Lifecycle()
      modifies `handles, `registry, `incoming, `nextOrder, `accepted, `rejected, `cancelled, `overdue, `stopping
      ensures Lifecycle() && (old(Queued()) ==> Queued()) && ClientStep() && (open || incoming == old(incoming))
    {
      hide Lifecycle, Queued, Sent, Verdict;
      var rounds: int := *;
      while rounds > 0
        invariant Lifecycle() && (old(Queued()) ==> Queued()) && ClientStep() && (open || incoming == old(incoming))
      {
        ClientAction(open);
        rounds := rounds - 1;
      }
    }

    method ClientAction(open: bool)
      requires Lifecycle()
      modifies `handles, `registry, `incoming, `nextOrder, `accepted, `rejected, `cancelled, `overdue, `stopping
      ensures Lifecycle() && (old(Queued()) ==> Queued()) && ClientStep() && (open || incoming == old(incoming))
    {
      hide Lifecycle, Queued, Sent, Verdict;
      var kind: int, input: Input, id: string, o: nat := *, *, *, *;
      if kind == 0 && open {
        var submitted := Submit(input);
      } else if kind == 1 {
        var found := Cancel(id);
      } else if kind == 2 {
        Stop();
      } else if kind == 3 && o >= 0 {
        var e := TakeEvent(o);
      } else {
        Tick();
      }
    }

    lemma ClientsKeepStep(handles0: Handles, lapsed: set<nat>, excused: set<nat>, pending: set<int>)
      requires ActiveInStep(active, handles0, runner.histories, model, lapsed, pending)
               && SameSent(active, handles0, handles) && lapsed <= excused
      ensures InStepWith(excused, pending)
    {
      SameLogs(active, handles0, handles, runner.histories, runner.histories, model, lapsed, excused, pending);
    }

    /** The loop of the worker, with clients acting between its passes, until it is told to stop or the runner fails. */
    method Serve(rounds: nat) returns (r: Status)
      requires Working()
      modifies `active, `waiting, `incoming, `handles, `registry, `counters, `freeSequences, `freeCacheSequences,
               `table, `trace,
               `nextOrder, `accepted, `rejected, `cancelled, `overdue, `stopping, pool, prefixes, runner
      ensures Lifecycle() && (r == Ok || r == Failed(BackendError))
      ensures r.Ok? ==> Working() && stopping
      ensures Grown(old(handles), handles)
    {
      hide Lifecycle, OnTrack, Queued, ActiveInStep, Work, SameSent, Grown;
      GrownNone(handles);
      r := RequireReusable();
      var n := rounds;
      ghost var handles0 := handles;
      while !stopping && n > 0 && r.Ok?
        invariant r == Ok || r == Failed(BackendError)
        invariant Lifecycle() && (r.Ok? ==> Working()) && Grown(handles0, handles)
        decreases n
      {
        r := ServeOnce(handles0);
        n := n - 1;
      }
      if r.Ok? {
        Stop();
      }
    }

    /** Clients act, then the worker makes a pass, unless it is to stop or has nothing to do. */
    method ServeOnce(ghost handles0: Handles) returns (r: Status)
      requires Working() && Grown(handles0, handles)
      modifies `active, `waiting, `incoming, `handles, `registry, `counters, `freeSequences, `freeCacheSequences,
               `table, `trace,
               `nextOrder, `accepted, `rejected, `cancelled, `overdue, `stopping, pool, prefixes, runner
      ensures Lifecycle() && (r == Ok || r == Failed(BackendError)) && (r.Ok? ==> Working())
      ensures Grown(handles0, handles)
    {
      hide Lifecycle, OnTrack, Queued, ActiveInStep, Work, SameSent, Grown, ClientsOnly;
      r := Ok;
      ghost var handles1, lapsed := handles, Lapsed();
      Interfere(true);
      ClientsKeepStep(handles1, lapsed, Lapsed(), {});
      ClientsGrow(handles1, handles);
      GrownTwice(handles0, handles1, handles);
      ghost var handles2 := handles;
      if !stopping && !Idle() {
        r := Pass(true);
        GrownTwice(handles0, handles2, handles);
      }
    }

    /** A whole life of the worker, of whatever length: clients come and go, the runner may fail at any call,
        shutting down may fail, too. In the end every accepted request has got exactly one terminal event, and
        everything is free. */
    method Run(rounds: nat)
      requires Working()
      modifies `active, `waiting, `incoming, `handles, `registry, `counters, `freeSequences, `freeCacheSequences,
               `table, `trace,
               `nextOrder, `accepted, `rejected, `cancelled, `overdue, `stopping, `failed, pool, prefixes, runner
      ensures Lifecycle() && Emptied() && (stopping || failed)
      ensures GrownBy(old(handles), handles, Endings(stopping, failed))
    {
      hide Lifecycle, OnTrack, Queued, ActiveInStep, Emptied, GrownBy, OnlyClosed, ClientsOnly, SameSent;
      ghost var handles0 := handles;
      var r := Serve(rounds);
      GrownNone(handles);
      GrownByTwice(handles0, handles, handles, SERVED, SERVED, Endings(stopping, failed));
      if r.Ok? {
        ghost var handles1 := handles;
        r := TerminateAll(Cancelled, 503, true);
        ClosedGrown(handles1, handles, {(Cancelled, 503)});
        GrownByTwice(handles0, handles1, handles, SERVED, {(Cancelled, 503)}, Endings(stopping, failed));
      }
      if r.Failed? {
        Recover(handles0);
      }
    }

    /** The handler behind every failure of the worker: shutting down once more, this time without asking the runner. */
    method Recover(ghost handles0: Handles)
      requires Lifecycle() && GrownBy(handles0, handles, Endings(stopping, failed))
      modifies `active, `waiting, `incoming, `handles, `registry, `counters, `freeSequences, `freeCacheSequences,
               `table, `trace,
               `nextOrder, `accepted, `rejected, `cancelled, `overdue, `stopping, `failed, pool, prefixes, runner
      ensures Lifecycle() && Emptied() && failed && GrownBy(handles0, handles, Endings(stopping, true))
    {
      hide Lifecycle, OnTrack, Queued, SameSent, Emptied, GrownBy, OnlyClosed, ClientsOnly;
      ghost var handles1, ends1 := handles, Endings(stopping, failed);
      Interfere(true);
      ClientsGrow(handles1, handles);
      failed := true;
      ghost var handles2, ends2 := handles, Endings(stopping, true);
      GrownByTwice(handles0, handles1, handles2, ends1, SERVED, ends2);
      Interfere(true);
      ClientsGrow(handles2, handles);
      ghost var handles3, ends3 := handles, Endings(stopping, true);
      GrownByTwice(handles0, handles2, handles3, ends2, SERVED, ends3);
      var r := TerminateAll(BackendFailure, 500, false);
      ClosedGrown(handles3, handles, {(BackendFailure, 500)});
      GrownByTwice(handles0, handles3, handles, ends3, {(BackendFailure, 500)}, ends3);
    }

    /** What a log promises, for every request at every moment. */
    lemma EveryLog(o: nat)
      requires Lifecycle() && o in handles
      ensures LogOk(model, handles[o].request, handles[o].log)
      ensures Explained(model, handles[o].request, handles[o].log)
      ensures TokensIn(handles[o].log) <= Continuation(model, handles[o].request, [])
      ensures Finished(handles[o].log) && handles[o].log[|handles[o].log| - 1].reason in {Stopped, Length} ==>
                TokensIn(handles[o].log) == Continuation(model, handles[o].request, [])
    {
      RequestKnown(o);
      LogsKnown();
      hide Lifecycle, LogOk, RequestOk, Continuation, Explained;
      assert HandleOk(o, handles[o], model, config);
      LogIsPrefix(model, handles[o].request, handles[o].log);
      LogMeans(model, handles[o].request, handles[o].log);
    }
  }
}

/** What the engine's fields mean (Engine::Impl in src/engine.cpp): requests and where they are tracked, active items,
    slots. */
module EngineState {
  import opened Arithmetic
  import opened RefCounts
  import opened Requests
  import Scheduling

  datatype Config = Config(contextTokens: nat, blockSize: nat, maxModelLen: nat, maxActive: nat, batchTokens: nat,
                           prefillChunk: nat, policy: Scheduling.Policy, prefixCacheEntries: nat,
                           prefixCacheTokens: nat,
                           agingMs: nat, admissionReserveMs: nat, queueCapacity: nat, eventBufferSize: nat)

  /** EngineConfig::validate. */
  predicate Validated(c: Config) {
    && c.blockSize > 0 && c.contextTokens > 0 && c.contextTokens % c.blockSize == 0
    && 2 <= c.maxModelLen <= c.contextTokens
    && 0 < c.maxActive <= 128 && c.maxActive <= c.batchTokens <= c.contextTokens
    && 0 < c.prefillChunk <= c.batchTokens && 0 < c.queueCapacity <= 65536 && 0 < c.eventBufferSize <= 65536
    && c.prefixCacheEntries <= 128 && c.prefixCacheTokens <= c.contextTokens
    && (c.prefixCacheEntries > 0 ==> c.prefixCacheTokens >= c.blockSize)
    && c.agingMs > 0 && c.admissionReserveMs > 0 && c.contextTokens <= 0x7FFF_FFFF
  }

  function Slots(c: Config): nat {
    c.maxActive + c.prefixCacheEntries
  }

  datatype Item = Item(request: Request, sequence: nat, blocks: seq<nat>, processed: nat, generated: nat, reused: nat,
                       lastToken: int, done: bool)

  type Handles = map<nat, Handle>

  function UsageOf(it: Item): Usage {
    Usage(|it.request.prompt|, it.generated, it.reused)
  }

  // ---- requests -----------------------------------------------------------------

  ghost predicate RequestOk(r: Request, m: Model, c: Config) {
    && r.prompt != [] && r.maxTokens > 0 && |r.prompt| + r.maxTokens <= c.maxModelLen
    && forall i :: 0 <= i < |r.prompt| ==> 0 <= r.prompt[i] < m.vocabulary
  }

  ghost predicate HandleOk(o: nat, h: Handle, m: Model, c: Config) {
    && h.request.order == o && RequestOk(h.request, m, c)
    && LogOk(m, h.request, h.log) && h.taken <= |h.log|
  }

  predicate Open(handles: Handles, o: nat) {
    o in handles && !Finished(handles[o].log)
  }

  ghost predicate LogsOk(handles: Handles, m: Model, c: Config) {
    forall o :: o in handles ==> HandleOk(o, handles[o], m, c)
  }

  /** The registry lists the unfinished requests by id, and nothing else. */
  ghost predicate Registered(handles: Handles, registry: map<string, nat>) {
    && (forall id :: id in registry ==> Open(handles, registry[id]) && handles[registry[id]].request.id == id)
    && (forall o :: Open(handles, o) ==> handles[o].request.id in registry && registry[handles[o].request.id] == o)
  }

  ghost function Orders(queue: seq<Request>): set<nat> {
    set i | 0 <= i < |queue| :: queue[i].order
  }

  ghost function LiveOrders(active: seq<Item>): set<nat> {
    set i | 0 <= i < |active| && !active[i].done :: active[i].request.order
  }

  ghost function BusySlots(active: seq<Item>): set<nat> {
    set i | 0 <= i < |active| && !active[i].done :: active[i].sequence
  }

  /** No unfinished request is lost. */
  ghost predicate Tracked(handles: Handles, queue: seq<Request>, active: seq<Item>) {
    forall o :: Open(handles, o) ==> o in Orders(queue) || o in LiveOrders(active)
  }

  ghost predicate QueuedOk(r: Request, handles: Handles) {
    r.order in handles && handles[r.order].request == r
    && (handles[r.order].log == [] || Finished(handles[r.order].log))
  }

  ghost predicate QueueOk(queue: seq<Request>, handles: Handles) {
    forall i :: 0 <= i < |queue| ==> QueuedOk(queue[i], handles)
  }

  /** While no call has failed, a queue holds each of its requests once, all unfinished, none of them active. */
  ghost predicate QueueExact(queue: seq<Request>, handles: Handles, active: seq<Item>) {
    && (forall i :: 0 <= i < |queue| ==> Open(handles, queue[i].order) && queue[i].order !in LiveOrders(active))
    && forall i, j :: 0 <= i < j < |queue| ==> queue[i].order != queue[j].order
  }

  ghost predicate ItemOk(it: Item, handles: Handles, c: Config)
    requires c.blockSize > 0
  {
    var o := it.request.order;
    && Open(handles, o) && handles[o].request == it.request
    && it.processed <= |it.request.prompt| && it.reused <= |it.request.prompt|
    && |TokensIn(handles[o].log)| <= it.generated <= |TokensIn(handles[o].log)| + 1
    && it.generated <= it.request.maxTokens
    && (it.generated > 0 ==> it.processed == |it.request.prompt|)
    && |it.blocks| == CeilDiv(|it.request.prompt| + it.request.maxTokens, c.blockSize)
    && it.sequence < c.maxActive
  }

  ghost predicate Apart(active: seq<Item>, i: nat, j: nat)
    requires i < |active| && j < |active|
  {
    !active[i].done && !active[j].done ==>
      active[i].sequence != active[j].sequence && active[i].request.order != active[j].request.order
  }

  ghost predicate ItemsOk(active: seq<Item>, handles: Handles, c: Config)
    requires c.blockSize > 0
  {
    && (forall i :: 0 <= i < |active| && !active[i].done ==> ItemOk(active[i], handles, c))
    && forall i, j :: 0 <= i < j < |active| ==> Apart(active, i, j)
  }

  // ---- the statistics of endings ----------------------------------------------------

  datatype Counters = Counters(completed: nat, cancelled: nat, timedOut: nat, failed: nat)

  function Total(k: Counters): nat {
    k.completed + k.cancelled + k.timedOut + k.failed
  }

  function Counted(k: Counters, reason: Reason): Counters {
    match reason
    case Stopped | Length => k.(completed := k.completed + 1)
    case Cancelled => k.(cancelled := k.cancelled + 1)
    case Timeout => k.(timedOut := k.timedOut + 1)
    case _ => k.(failed := k.failed + 1)
  }

  /** The requests whose terminal event gives one of these reasons. */
  ghost function EndedAs(handles: Handles, reasons: set<Reason>): set<nat> {
    set o | o in handles && Finished(handles[o].log) && handles[o].log[|handles[o].log| - 1].reason in reasons
  }

  /** Each counter counts the requests that ended its way. */
  ghost predicate Tallied(handles: Handles, k: Counters) {
    && k.completed == |EndedAs(handles, {Stopped, Length})|
    && k.cancelled == |EndedAs(handles, {Cancelled})|
    && k.timedOut == |EndedAs(handles, {Timeout})|
    && k.failed == |EndedAs(handles, {Backpressure, BackendFailure})|
  }

  lemma NobodyEnded(reasons: set<Reason>)
    ensures EndedAs(map[], reasons) == {}
  {
  }

  lemma TallyNone()
    ensures Tallied(map[], Counters(0, 0, 0, 0))
  {
    hide EndedAs;
    NobodyEnded({Stopped, Length});
    NobodyEnded({Cancelled});
    NobodyEnded({Timeout});
    NobodyEnded({Backpressure, BackendFailure});
  }

  lemma OneMoreEnded(handles: Handles, o: nat, reason: Reason, status: nat, usage: Usage, reasons: set<Reason>)
    requires Open(handles, o)
    ensures |EndedAs(Closed(handles, o, reason, status, usage), reasons)|
         == |EndedAs(handles, reasons)| + if reason in reasons then 1 else 0
  {
    var now := EndedAs(Closed(handles, o, reason, status, usage), reasons);
    assert o !in EndedAs(handles, reasons);
    assert now == EndedAs(handles, reasons) + if reason in reasons then {o} else {};
  }

  lemma TallyClosed(handles: Handles, k: Counters, o: nat, reason: Reason, status: nat, usage: Usage)
    requires Open(handles, o) && Tallied(handles, k)
    ensures Tallied(Closed(handles, o, reason, status, usage), Counted(k, reason))
    ensures Total(Counted(k, reason)) == Total(k) + 1
  {
    hide EndedAs, Closed;
    OneMoreEnded(handles, o, reason, status, usage, {Stopped, Length});
    OneMoreEnded(handles, o, reason, status, usage, {Cancelled});
    OneMoreEnded(handles, o, reason, status, usage, {Timeout});
    OneMoreEnded(handles, o, reason, status, usage, {Backpressure, BackendFailure});
  }

  /** A new request, or one that goes on, changes no counter. */
  lemma TallySame(handles: Handles, k: Counters, o: nat, value: Handle)
    requires Tallied(handles, k)
    requires if o in handles && Finished(handles[o].log) then value.log == handles[o].log else !Finished(value.log)
    ensures Tallied(handles[o := value], k)
  {
    forall reasons: set<Reason> ensures EndedAs(handles[o := value], reasons) == EndedAs(handles, reasons) {
      var now := EndedAs(handles[o := value], reasons);
      forall p ensures p in now <==> p in EndedAs(handles, reasons) {
      }
    }
  }

  // ---- a request ends -------------------------------------------------------------

  function Closed(handles: Handles, o: nat, reason: Reason, status: nat, usage: Usage): Handles
    requires o in handles
  {
    handles[o := handles[o].(log := handles[o].log + [Terminal(reason, status, usage)])]
  }

  lemma CloseKeepsLogs(handles: Handles, o: nat, reason: Reason, status: nat, usage: Usage, m: Model, c: Config)
    requires LogsOk(handles, m, c) && Open(handles, o)
    requires TerminalOk(m, handles[o].request, TokensIn(handles[o].log), reason, status, usage)
    ensures var handles' := Closed(handles, o, reason, status, usage);
      LogsOk(handles', m, c) && Finished(handles'[o].log)
  {
    var handles' := Closed(handles, o, reason, status, usage);
    assert HandleOk(o, handles[o], m, c);
    hide LogOk, TerminalOk, TokensIn, RequestOk;
    AppendTerminal(m, handles[o].request, handles[o].log, reason, status, usage);
    forall p | p in handles' ensures HandleOk(p, handles'[p], m, c) {
      assert HandleOk(p, handles[p], m, c);
    }
  }

  lemma CloseKeepsRegistry(handles: Handles, registry: map<string, nat>, o: nat, reason: Reason, status: nat,
                           usage: Usage)
    requires Registered(handles, registry) && Open(handles, o)
    ensures handles[o].request.id in registry
    ensures Registered(Closed(handles, o, reason, status, usage), registry - {handles[o].request.id})
  {
    var handles' := Closed(handles, o, reason, status, usage);
    var registry' := registry - {handles[o].request.id};
    forall p | Open(handles', p) ensures handles'[p].request.id in registry' && registry'[handles'[p].request.id] == p {
      assert Open(handles, p);
    }
    forall id | id in registry' ensures Open(handles', registry'[id]) && handles'[registry'[id]].request.id == id {
      assert id in registry && registry[id] != o;
    }
  }

  lemma CloseKeepsQueue(handles: Handles, queue: seq<Request>, o: nat, reason: Reason, status: nat, usage: Usage)
    requires QueueOk(queue, handles) && Open(handles, o)
    ensures QueueOk(queue, Closed(handles, o, reason, status, usage))
  {
    var handles' := Closed(handles, o, reason, status, usage);
    forall i | 0 <= i < |queue| ensures QueuedOk(queue[i], handles') {
      assert QueuedOk(queue[i], handles);
    }
  }

  /** Ending a request that is not active leaves the active ones as they were. */
  lemma CloseKeepsItems(handles: Handles, active: seq<Item>, o: nat, reason: Reason, status: nat, usage: Usage,
                        c: Config)
    requires c.blockSize > 0 && ItemsOk(active, handles, c) && Open(handles, o) && o !in LiveOrders(active)
    ensures ItemsOk(active, Closed(handles, o, reason, status, usage), c)
  {
    var handles' := Closed(handles, o, reason, status, usage);
    forall i | 0 <= i < |active| && !active[i].done ensures ItemOk(active[i], handles', c) {
      assert ItemOk(active[i], handles, c);
      assert active[i].request.order in LiveOrders(active);
    }
  }

  function Ended(it: Item): Item {
    it.(blocks := [], done := true)
  }

  /** Ending item `i` together with its request. */
  lemma EndKeepsItems(handles: Handles, active: seq<Item>, i: nat, reason: Reason, status: nat, usage: Usage, c: Config)
    requires c.blockSize > 0 && ItemsOk(active, handles, c) && i < |active| && !active[i].done
    ensures Open(handles, active[i].request.order)
    ensures var handles' := Closed(handles, active[i].request.order, reason, status, usage);
      ItemsOk(active[i := Ended(active[i])], handles', c)
  {
    assert ItemOk(active[i], handles, c);
    var o := active[i].request.order;
    var handles' := Closed(handles, o, reason, status, usage);
    var active' := active[i := Ended(active[i])];
    forall j | 0 <= j < |active'| && !active'[j].done ensures ItemOk(active'[j], handles', c) {
      assert ItemOk(active[j], handles, c);
      assert if i < j then Apart(active, i, j) else Apart(active, j, i);
    }
    forall j, k | 0 <= j < k < |active'| ensures Apart(active', j, k) {
      assert Apart(active, j, k);
    }
  }

  lemma EndedSets(active: seq<Item>, i: nat)
    requires i < |active| && !active[i].done && forall j, k :: 0 <= j < k < |active| ==> Apart(active, j, k)
    ensures LiveOrders(active[i := Ended(active[i])]) == LiveOrders(active) - {active[i].request.order}
    ensures BusySlots(active[i := Ended(active[i])]) == BusySlots(active) - {active[i].sequence}
    ensures active[i].request.order in LiveOrders(active) && active[i].sequence in BusySlots(active)
  {
    var active' := active[i := Ended(active[i])];
    forall j | 0 <= j < |active| && j != i && !active[j].done
      ensures active[j].request.order != active[i].request.order && active[j].sequence != active[i].sequence
      ensures active[j].request.order in LiveOrders(active') && active[j].sequence in BusySlots(active')
    {
      assert if i < j then Apart(active, i, j) else Apart(active, j, i);
      assert active'[j] == active[j];
    }
    forall x | x in LiveOrders(active') ensures x in LiveOrders(active) && x != active[i].request.order {
      var j :| 0 <= j < |active'| && !active'[j].done && active'[j].request.order == x;
    }
    forall x | x in BusySlots(active') ensures x in BusySlots(active) && x != active[i].sequence {
      var j :| 0 <= j < |active'| && !active'[j].done && active'[j].sequence == x;
    }
  }

  lemma CloseKeepsTracked(handles: Handles, queue: seq<Request>, active: seq<Item>, o: nat, reason: Reason, status: nat,
                          usage: Usage)
    requires Tracked(handles, queue, active) && Open(handles, o)
    ensures Tracked(Closed(handles, o, reason, status, usage), queue, active)
  {
    var handles' := Closed(handles, o, reason, status, usage);
    forall p | Open(handles', p) ensures p in Orders(queue) || p in LiveOrders(active) {
      assert Open(handles, p);
    }
  }

  lemma EndKeepsTracked(handles: Handles, queue: seq<Request>, active: seq<Item>, i: nat, reason: Reason, status: nat,
                        usage: Usage)
    requires Tracked(handles, queue, active) && i < |active| && !active[i].done
             && Open(handles, active[i].request.order)
    requires forall j, k :: 0 <= j < k < |active| ==> Apart(active, j, k)
    ensures Tracked(Closed(handles, active[i].request.order, reason, status, usage), queue,
                    active[i := Ended(active[i])])
  {
    EndedSets(active, i);
    var handles' := Closed(handles, active[i].request.order, reason, status, usage);
    forall p | Open(handles', p) ensures p in Orders(queue) || p in LiveOrders(active[i := Ended(active[i])]) {
      assert Open(handles, p) && p != active[i].request.order;
    }
  }

  // ---- dropping finished items ------------------------------------------------------

  function Live(active: seq<Item>): seq<Item> {
    if active == [] then []
    else
      var rest, last := Live(active[..|active| - 1]), active[|active| - 1];
      if last.done then rest else rest + [last]
  }

  lemma {:induction false} LiveMember(active: seq<Item>, i: nat)
    requires i < |Live(active)|
    ensures exists j :: 0 <= j < |active| && active[j] == Live(active)[i] && !active[j].done
  {
    var n := |active| - 1;
    var rest := Live(active[..n]);
    if i < |rest| {
      LiveMember(active[..n], i);
      var j :| 0 <= j < n && active[..n][j] == rest[i] && !active[..n][j].done;
      assert active[j] == Live(active)[i];
    } else {
      assert active[n] == Live(active)[i];
    }
  }

  lemma {:induction false} LiveSets(active: seq<Item>)
    ensures LiveOrders(Live(active)) == LiveOrders(active)
    ensures BusySlots(Live(active)) == BusySlots(active)
    ensures forall i :: 0 <= i < |Live(active)| ==> !Live(active)[i].done
  {
    if active == [] {
    } else {
      var n := |active| - 1;
      var rest, last := active[..n], active[n];
      LiveSets(rest);
      assert active == rest + [last];
      SetsSnoc(rest, last);
      SetsSnoc(Live(rest), last);
    }
  }

  lemma SetsSnoc(active: seq<Item>, it: Item)
    ensures LiveOrders(active + [it]) == LiveOrders(active) + if it.done then {} else {it.request.order}
    ensures BusySlots(active + [it]) == BusySlots(active) + if it.done then {} else {it.sequence}
  {
    var all := active + [it];
    assert all[|active|] == it;
    forall j | 0 <= j < |active| && !active[j].done
      ensures active[j].request.order in LiveOrders(all) && active[j].sequence in BusySlots(all)
    {
      assert all[j] == active[j];
    }
    forall x | x in LiveOrders(all) ensures x in LiveOrders(active) || (!it.done && x == it.request.order) {
      var j :| 0 <= j < |all| && !all[j].done && all[j].request.order == x;
      assert j < |active| ==> active[j] == all[j];
    }
    forall x | x in BusySlots(all) ensures x in BusySlots(active) || (!it.done && x == it.sequence) {
      var j :| 0 <= j < |all| && !all[j].done && all[j].sequence == x;
      assert j < |active| ==> active[j] == all[j];
    }
  }

  /** Active requests occupy a slot each. */
  lemma {:induction false} BusyCount(active: seq<Item>)
    requires forall i :: 0 <= i < |active| ==> !active[i].done
    requires forall i, j :: 0 <= i < j < |active| ==> Apart(active, i, j)
    ensures |BusySlots(active)| == |active|
  {
    if active == [] {
    } else {
      var n := |active| - 1;
      var rest, last := active[..n], active[n];
      assert active == rest + [last];
      forall i, j | 0 <= i < j < |rest| ensures Apart(rest, i, j) {
        assert Apart(active, i, j);
      }
      BusyCount(rest);
      SetsSnoc(rest, last);
      forall i | 0 <= i < |rest| ensures rest[i].sequence != last.sequence {
        assert Apart(active, i, n);
      }
    }
  }

  lemma {:induction false} LiveApart(active: seq<Item>)
    requires forall j, k :: 0 <= j < k < |active| ==> Apart(active, j, k)
    ensures forall j, k :: 0 <= j < k < |Live(active)| ==> Apart(Live(active), j, k)
  {
    if active == [] {
    } else {
      var n := |active| - 1;
      var rest := active[..n];
      forall j, k | 0 <= j < k < n ensures Apart(rest, j, k) {
        assert Apart(active, j, k);
      }
      LiveApart(rest);
      forall j, k | 0 <= j < k < |Live(active)| ensures Apart(Live(active), j, k) {
        if k < |Live(rest)| {
          assert Apart(Live(rest), j, k);
        } else {
          LiveMember(rest, j);
          var i :| 0 <= i < n && rest[i] == Live(rest)[j] && !rest[i].done;
          assert Apart(active, i, n);
        }
      }
    }
  }

  lemma LiveKeepsItems(active: seq<Item>, handles: Handles, c: Config)
    requires c.blockSize > 0 && ItemsOk(active, handles, c)
    ensures ItemsOk(Live(active), handles, c)
  {
    LiveApart(active);
    forall i | 0 <= i < |Live(active)| && !Live(active)[i].done ensures ItemOk(Live(active)[i], handles, c) {
      LiveMember(active, i);
      var j :| 0 <= j < |active| && active[j] == Live(active)[i] && !active[j].done;
      assert ItemOk(active[j], handles, c);
    }
  }

  // ---- one more active item -----------------------------------------------------------

  lemma AddKeepsItems(active: seq<Item>, it: Item, handles: Handles, c: Config)
    requires c.blockSize > 0 && ItemsOk(active, handles, c) && !it.done && ItemOk(it, handles, c)
    requires it.sequence !in BusySlots(active) && it.request.order !in LiveOrders(active)
    ensures ItemsOk(active + [it], handles, c)
  {
    var all := active + [it];
    forall j, k | 0 <= j < k < |all| ensures Apart(all, j, k) {
      if k < |active| {
        assert Apart(active, j, k);
      } else if !active[j].done {
        assert active[j].sequence in BusySlots(active) && active[j].request.order in LiveOrders(active);
      }
    }
  }
}

/** The engine's invariants as laws over its field values, and what each kind of change keeps of them. */
module EngineLaws {
  import opened Arithmetic
  import opened Outcomes
  import opened RefCounts
  import opened Requests
  import opened Batches
  import opened BlockPools
  import opened PrefixIndexes
  import opened EngineState
  import opened EngineCredits
  import opened EngineBatches
  import opened EngineSync
  import opened Credits

  // ---- requests: logs, registry, tracking ------------------------------------------

  ghost predicate OrdersBounded(handles: Handles, nextOrder: nat) {
    forall o :: o in handles ==> o <= nextOrder
  }

  /** Every accepted request has a proper log; the registry and the counters agree on the unfinished ones; each of those
      waits in a queue or is active. */
  ghost predicate Accounted(handles: Handles, registry: map<string, nat>, nextOrder: nat, accepted: nat,
                            ended: Counters,
                            queue: seq<Request>, active: seq<Item>, m: Model, c: Config)
    requires c.blockSize > 0
  {
    && LogsOk(handles, m, c)
    && Registered(handles, registry)
    && OrdersBounded(handles, nextOrder)
    && accepted == |handles| == |registry| + Total(ended)
    && Tallied(handles, ended)
    && QueueOk(queue, handles)
    && Tracked(handles, queue, active)
    && ItemsOk(active, handles, c)
  }

  lemma CloseCounts(handles: Handles, registry: map<string, nat>, o: nat, reason: Reason, status: nat, usage: Usage)
    requires o in handles && handles[o].request.id in registry
    ensures |Closed(handles, o, reason, status, usage)| == |handles|
    ensures |registry - {handles[o].request.id}| == |registry| - 1
  {
    var id := handles[o].request.id;
    assert Closed(handles, o, reason, status, usage).Keys == handles.Keys;
    assert (registry - {id}).Keys == registry.Keys - {id};
  }

  lemma CloseBounded(handles: Handles, o: nat, reason: Reason, status: nat, usage: Usage, nextOrder: nat)
    requires o in handles && OrdersBounded(handles, nextOrder)
    ensures OrdersBounded(Closed(handles, o, reason, status, usage), nextOrder)
  {
  }

  /** An active request ends. */
  lemma EndAccounted(handles: Handles, registry: map<string, nat>, nextOrder: nat, accepted: nat, ended: Counters,
                     queue: seq<Request>, active: seq<Item>, m: Model, c: Config, i: nat, reason: Reason, status: nat,
                     usage: Usage)
    requires c.blockSize > 0 && Accounted(handles, registry, nextOrder, accepted, ended, queue, active, m, c)
    requires i < |active| && !active[i].done && active[i].request.order in handles
    requires TerminalOk(m, active[i].request, TokensIn(handles[active[i].request.order].log), reason, status, usage)
    ensures var o := active[i].request.order;
      && Open(handles, o) && handles[o].request == active[i].request && active[i].request.id in registry
      && Accounted(Closed(handles, o, reason, status, usage), registry - {active[i].request.id}, nextOrder, accepted,
                   Counted(ended, reason),
                   queue, active[i := Ended(active[i])], m, c)
  {
    assert ItemOk(active[i], handles, c);
    var o := active[i].request.order;
    EndKeepsTracked(handles, queue, active, i, reason, status, usage);
    EndKeepsItems(handles, active, i, reason, status, usage, c);
    hide ItemsOk, Tracked, QueueOk, LogsOk, Registered, Closed, Ended, Tallied;
    TallyClosed(handles, ended, o, reason, status, usage);
    CloseKeepsLogs(handles, o, reason, status, usage, m, c);
    CloseKeepsRegistry(handles, registry, o, reason, status, usage);
    CloseKeepsQueue(handles, queue, o, reason, status, usage);
    CloseCounts(handles, registry, o, reason, status, usage);
    CloseBounded(handles, o, reason, status, usage, nextOrder);
  }

  /** A queued request ends. */
  lemma CloseAccounted(handles: Handles, registry: map<string, nat>, nextOrder: nat, accepted: nat, ended: Counters,
                       queue: seq<Request>, active: seq<Item>, m: Model, c: Config, o: nat, reason: Reason, status: nat,
                       usage: Usage)
    requires c.blockSize > 0 && Accounted(handles, registry, nextOrder, accepted, ended, queue, active, m, c)
    requires Open(handles, o) && o !in LiveOrders(active)
    requires TerminalOk(m, handles[o].request, TokensIn(handles[o].log), reason, status, usage)
    ensures handles[o].request.id in registry
    ensures Accounted(Closed(handles, o, reason, status, usage), registry - {handles[o].request.id}, nextOrder,
                      accepted, Counted(ended, reason),
                      queue, active, m, c)
  {
    hide ItemsOk, Tracked, QueueOk, LogsOk, Registered, Closed, LiveOrders, Tallied, Total, Counted;
    TallyClosed(handles, ended, o, reason, status, usage);
    CloseKeepsTracked(handles, queue, active, o, reason, status, usage);
    CloseKeepsItems(handles, active, o, reason, status, usage, c);
    CloseKeepsLogs(handles, o, reason, status, usage, m, c);
    CloseKeepsRegistry(handles, registry, o, reason, status, usage);
    CloseKeepsQueue(handles, queue, o, reason, status, usage);
    CloseCounts(handles, registry, o, reason, status, usage);
    CloseBounded(handles, o, reason, status, usage, nextOrder);
  }

  /** A queue is rearranged, losing only requests that are finished or active. */
  lemma QueueAccounted(handles: Handles, registry: map<string, nat>, nextOrder: nat, accepted: nat, ended: Counters,
                       queue: seq<Request>, queue': seq<Request>, active: seq<Item>, m: Model, c: Config)
    requires c.blockSize > 0 && Accounted(handles, registry, nextOrder, accepted, ended, queue, active, m, c)
    requires forall r :: r in queue' ==> r in queue
    requires forall r :: r in queue && Open(handles, r.order) && r.order !in LiveOrders(active) ==> r in queue'
    ensures Accounted(handles, registry, nextOrder, accepted, ended, queue', active, m, c)
  {
    hide LogsOk, Registered, ItemsOk, QueuedOk, Tallied;
    forall i | 0 <= i < |queue'| ensures QueuedOk(queue'[i], handles) {
      assert queue'[i] in queue;
    }
    forall o | Open(handles, o) ensures o in Orders(queue') || o in LiveOrders(active) {
      if o !in LiveOrders(active) {
        var i :| 0 <= i < |queue| && queue[i].order == o;
        assert queue[i] in queue';
        var j :| 0 <= j < |queue'| && queue'[j] == queue[i];
      }
    }
  }

  /** The active items are replaced by others for the same live requests. */
  lemma ItemsAccounted(handles: Handles, registry: map<string, nat>, nextOrder: nat, accepted: nat, ended: Counters,
                       queue: seq<Request>, active: seq<Item>, active': seq<Item>, m: Model, c: Config)
    requires c.blockSize > 0 && Accounted(handles, registry, nextOrder, accepted, ended, queue, active, m, c)
    requires ItemsOk(active', handles, c) && LiveOrders(active) <= LiveOrders(active')
    ensures Accounted(handles, registry, nextOrder, accepted, ended, queue, active', m, c)
  {
    hide LogsOk, Registered, ItemsOk, QueueOk, LiveOrders;
  }

  /** A request becomes active; for a moment it may still be queued. */
  lemma AdmitAccounted(handles: Handles, registry: map<string, nat>, nextOrder: nat, accepted: nat, ended: Counters,
                       queue: seq<Request>, active: seq<Item>, m: Model, c: Config, it: Item)
    requires c.blockSize > 0 && Accounted(handles, registry, nextOrder, accepted, ended, queue, active, m, c)
    requires ItemOk(it, handles, c) && !it.done && it.sequence !in BusySlots(active)
             && it.request.order !in LiveOrders(active)
    ensures Accounted(handles, registry, nextOrder, accepted, ended, queue, active + [it], m, c)
  {
    hide LogsOk, Registered, ItemsOk, ItemOk, QueueOk, LiveOrders, BusySlots;
    AddKeepsItems(active, it, handles, c);
    SetsSnoc(active, it);
    ItemsAccounted(handles, registry, nextOrder, accepted, ended, queue, active, active + [it], m, c);
  }

  /** An item makes progress. */
  lemma ReplaceItems(handles: Handles, active: seq<Item>, i: nat, it: Item, c: Config)
    requires c.blockSize > 0 && ItemsOk(active, handles, c) && i < |active| && !active[i].done
    requires !it.done && it.sequence == active[i].sequence && it.request == active[i].request && ItemOk(it, handles, c)
    ensures ItemsOk(active[i := it], handles, c)
  {
    var active' := active[i := it];
    forall j, k | 0 <= j < k < |active'| ensures Apart(active', j, k) {
      assert Apart(active, j, k);
    }
  }

  /** An item makes progress together with its log. */
  lemma EmitItems(handles: Handles, active: seq<Item>, i: nat, it: Item, value: Handle, c: Config)
    requires c.blockSize > 0 && ItemsOk(active, handles, c) && i < |active| && !active[i].done
    requires !it.done && it.sequence == active[i].sequence && it.request == active[i].request
    requires ItemOk(it, handles[it.request.order := value], c)
    ensures ItemsOk(active[i := it], handles[it.request.order := value], c)
  {
    var active', handles' := active[i := it], handles[it.request.order := value];
    forall j, k | 0 <= j < k < |active'| ensures Apart(active', j, k) {
      assert Apart(active, j, k);
    }
    forall j | 0 <= j < |active'| && !active'[j].done ensures ItemOk(active'[j], handles', c) {
      if j != i {
        assert if i < j then Apart(active, i, j) else Apart(active, j, i);
        assert ItemOk(active[j], handles, c);
      }
    }
  }

  lemma ReplaceShape(active: seq<Item>, i: nat, it: Item)
    requires i < |active|
    requires it.done == active[i].done && it.sequence == active[i].sequence && it.request == active[i].request
             && it.blocks == active[i].blocks
    ensures SameShape(active, active[i := it]) && LiveOrders(active) == LiveOrders(active[i := it])
  {
    ShapeSets(active, active[i := it]);
  }

  function Logged(h: Handle, token: int, usage: Usage): Handle {
    h.(log := h.log + [Token(token, usage)])
  }

  /** What it takes for a token to be logged properly. */
  lemma TokenLogged(handles: Handles, it: Item, m: Model, c: Config, token: int, usage: Usage)
    requires c.blockSize > 0 && LogsOk(handles, m, c) && ItemOk(it, handles, c) && Running(it, handles, m)
    requires token == m.next(it.request.prompt + Sent(it, handles))
    requires usage.prompt == |it.request.prompt| && usage.completion == it.generated + 1
             && it.processed == |it.request.prompt|
    ensures var o := it.request.order;
            var value := Logged(handles[o], token, usage);
            var now := it.(lastToken := token, generated := it.generated + 1);
      && o in handles && HandleOk(o, value, m, c) && !Finished(value.log) && value.request == handles[o].request
      && Sent(now, handles[o := value]) == Sent(it, handles) + [token]
      && ItemOk(now, handles[o := value], c) && ItemOk(now, handles, c)
      && (Stops(m, it.request, token) ==>
            TerminalOk(m, it.request, Sent(now, handles[o := value]), Stopped, 200,
                       Usage(|it.request.prompt|, now.generated, now.reused)))
      && (!Stops(m, it.request, token) && now.generated >= it.request.maxTokens ==>
            TerminalOk(m, it.request, Sent(now, handles[o := value]), Length, 200,
                       Usage(|it.request.prompt|, now.generated, now.reused)))
  {
    hide CeilDiv, TokensIn, LogOk, RequestOk;
    var o := it.request.order;
    assert HandleOk(o, handles[o], m, c);
    AppendToken(m, it.request, handles[o].log, token, usage);
  }

  /** A client takes events, or an item logs a token. */
  lemma LogAccounted(handles: Handles, registry: map<string, nat>, nextOrder: nat, accepted: nat, ended: Counters,
                     queue: seq<Request>, active: seq<Item>, active': seq<Item>, m: Model, c: Config, o: nat,
                     value: Handle)
    requires c.blockSize > 0 && Accounted(handles, registry, nextOrder, accepted, ended, queue, active, m, c)
    requires o in handles && HandleOk(o, value, m, c) && value.request == handles[o].request
    requires Finished(value.log) == Finished(handles[o].log)
    requires if Finished(handles[o].log) then value.log == handles[o].log else !Finished(value.log)
    requires value.log == handles[o].log || o !in Orders(queue)
    requires ItemsOk(active', handles[o := value], c) && LiveOrders(active) <= LiveOrders(active')
    ensures Accounted(handles[o := value], registry, nextOrder, accepted, ended, queue, active', m, c)
  {
    hide *;
    AccountedParts(handles, registry, nextOrder, accepted, ended, queue, active, m, c);
    LogLogs(handles, m, c, o, value);
    LogRegistered(handles, registry, o, value);
    LogQueue(handles, queue, o, value);
    LogTracked(handles, queue, active, active', o, value);
    LogKeys(handles, nextOrder, o, value);
    TallySame(handles, ended, o, value);
    AccountedWhole(handles[o := value], registry, nextOrder, accepted, ended, queue, active', m, c);
  }

  lemma AccountedParts(handles: Handles, registry: map<string, nat>, nextOrder: nat, accepted: nat, ended: Counters,
                       queue: seq<Request>, active: seq<Item>, m: Model, c: Config)
    requires c.blockSize > 0 && Accounted(handles, registry, nextOrder, accepted, ended, queue, active, m, c)
    ensures LogsOk(handles, m, c) && Registered(handles, registry) && OrdersBounded(handles, nextOrder)
    ensures accepted == |handles| == |registry| + Total(ended) && QueueOk(queue, handles)
            && Tracked(handles, queue, active)
    ensures Tallied(handles, ended)
    ensures ItemsOk(active, handles, c)
  {
  }

  lemma LogLogs(handles: Handles, m: Model, c: Config, o: nat, value: Handle)
    requires LogsOk(handles, m, c) && HandleOk(o, value, m, c)
    ensures LogsOk(handles[o := value], m, c)
  {
    hide HandleOk;
  }

  lemma LogRegistered(handles: Handles, registry: map<string, nat>, o: nat, value: Handle)
    requires Registered(handles, registry) && o in handles
    requires value.request == handles[o].request && Finished(value.log) == Finished(handles[o].log)
    ensures Registered(handles[o := value], registry)
  {
    var handles' := handles[o := value];
    forall p ensures Open(handles', p) <==> Open(handles, p) {
    }
  }

  lemma LogQueue(handles: Handles, queue: seq<Request>, o: nat, value: Handle)
    requires QueueOk(queue, handles) && o in handles && value.request == handles[o].request
    requires value.log == handles[o].log || o !in Orders(queue)
    ensures QueueOk(queue, handles[o := value])
  {
    forall i | 0 <= i < |queue| ensures QueuedOk(queue[i], handles[o := value]) {
      assert QueuedOk(queue[i], handles) && queue[i].order in Orders(queue);
    }
  }

  lemma LogTracked(handles: Handles, queue: seq<Request>, active: seq<Item>, active': seq<Item>, o: nat, value: Handle)
    requires Tracked(handles, queue, active) && o in handles && Finished(value.log) == Finished(handles[o].log)
    requires LiveOrders(active) <= LiveOrders(active')
    ensures Tracked(handles[o := value], queue, active')
  {
    hide LiveOrders, Orders;
    forall p | Open(handles[o := value], p) ensures p in Orders(queue) || p in LiveOrders(active') {
      assert Open(handles, p);
    }
  }

  lemma LogKeys(handles: Handles, nextOrder: nat, o: nat, value: Handle)
    requires o in handles && OrdersBounded(handles, nextOrder)
    ensures |handles[o := value]| == |handles| && OrdersBounded(handles[o := value], nextOrder)
  {
    assert handles[o := value].Keys == handles.Keys;
  }

  lemma AccountedWhole(handles: Handles, registry: map<string, nat>, nextOrder: nat, accepted: nat, ended: Counters,
                       queue: seq<Request>, active: seq<Item>, m: Model, c: Config)
    requires LogsOk(handles, m, c) && Registered(handles, registry) && OrdersBounded(handles, nextOrder)
    requires accepted == |handles| == |registry| + Total(ended) && QueueOk(queue, handles)
             && Tracked(handles, queue, active)
    requires Tallied(handles, ended)
    requires c.blockSize > 0 && ItemsOk(active, handles, c)
    ensures Accounted(handles, registry, nextOrder, accepted, ended, queue, active, m, c)
  {
  }

  /** A new request enters the queue. */
  lemma SubmitAccounted(handles: Handles, registry: map<string, nat>, nextOrder: nat, accepted: nat, ended: Counters,
                        queue: seq<Request>, active: seq<Item>, m: Model, c: Config, r: Request, nextOrder': nat)
    requires c.blockSize > 0 && Accounted(handles, registry, nextOrder, accepted, ended, queue, active, m, c)
    requires nextOrder < r.order <= nextOrder' && r.id !in registry && RequestOk(r, m, c)
    ensures r.order !in handles
    ensures Accounted(handles[r.order := Handle(r, [], 0)], registry[r.id := r.order], nextOrder', accepted + 1, ended,
                      queue + [r], active, m, c)
  {
    hide LogsOk, Registered, Tracked, ItemsOk, QueueOk, RequestOk, Tallied, Total;
    assert r.order !in handles;
    TallySame(handles, ended, r.order, Handle(r, [], 0));
    SubmitLogs(handles, m, c, r);
    SubmitRegistered(handles, registry, r);
    SubmitTracked(handles, queue, active, r);
    SubmitItems(handles, active, c, r);
    SubmitQueue(handles, queue, r);
    OneMoreKey(handles, r.order, Handle(r, [], 0));
    OneMoreKey(registry, r.id, r.order);
  }

  lemma OneMoreKey<K, V>(all: map<K, V>, k: K, v: V)
    requires k !in all
    ensures |all[k := v]| == |all| + 1
  {
    assert all[k := v].Keys == all.Keys + {k};
  }

  lemma SubmitQueue(handles: Handles, queue: seq<Request>, r: Request)
    requires QueueOk(queue, handles) && r.order !in handles
    ensures QueueOk(queue + [r], handles[r.order := Handle(r, [], 0)])
  {
    var queue' := queue + [r];
    forall i | 0 <= i < |queue'| ensures QueuedOk(queue'[i], handles[r.order := Handle(r, [], 0)]) {
      assert i < |queue| ==> QueuedOk(queue[i], handles);
    }
  }

  lemma SubmitLogs(handles: Handles, m: Model, c: Config, r: Request)
    requires LogsOk(handles, m, c) && RequestOk(r, m, c)
    ensures LogsOk(handles[r.order := Handle(r, [], 0)], m, c)
  {
    var handles' := handles[r.order := Handle(r, [], 0)];
    forall o | o in handles' ensures HandleOk(o, handles'[o], m, c) {
      assert o in handles ==> HandleOk(o, handles[o], m, c);
    }
  }

  lemma SubmitRegistered(handles: Handles, registry: map<string, nat>, r: Request)
    requires Registered(handles, registry) && r.id !in registry && r.order !in handles
    ensures Registered(handles[r.order := Handle(r, [], 0)], registry[r.id := r.order])
  {
    var handles', registry' := handles[r.order := Handle(r, [], 0)], registry[r.id := r.order];
    forall o | Open(handles', o) ensures handles'[o].request.id in registry' && registry'[handles'[o].request.id] == o {
      assert o != r.order ==> Open(handles, o);
    }
  }

  lemma SubmitTracked(handles: Handles, queue: seq<Request>, active: seq<Item>, r: Request)
    requires Tracked(handles, queue, active)
    ensures Tracked(handles[r.order := Handle(r, [], 0)], queue + [r], active)
  {
    var handles' := handles[r.order := Handle(r, [], 0)];
    OrdersAppend(queue, [r]);
    assert [r][0] == r;
    forall o | Open(handles', o) ensures o in Orders(queue + [r]) || o in LiveOrders(active) {
      assert o != r.order ==> Open(handles, o);
    }
  }

  lemma OrdersAppend(a: seq<Request>, b: seq<Request>)
    ensures Orders(a + b) == Orders(a) + Orders(b)
  {
    forall o | o in Orders(a) + Orders(b) ensures o in Orders(a + b) {
      if o in Orders(a) {
        var i :| 0 <= i < |a| && a[i].order == o;
        assert (a + b)[i].order == o;
      } else {
        var i :| 0 <= i < |b| && b[i].order == o;
        assert (a + b)[|a| + i].order == o;
      }
    }
    forall o | o in Orders(a + b) ensures o in Orders(a) + Orders(b) {
      var i :| 0 <= i < |a + b| && (a + b)[i].order == o;
      assert i < |a| ==> a[i].order == o;
      assert i >= |a| ==> b[i - |a|].order == o;
    }
  }

  lemma SubmitItems(handles: Handles, active: seq<Item>, c: Config, r: Request)
    requires c.blockSize > 0 && ItemsOk(active, handles, c) && r.order !in handles
    ensures ItemsOk(active, handles[r.order := Handle(r, [], 0)], c)
  {
    forall i | 0 <= i < |active| && !active[i].done ensures ItemOk(active[i], handles[r.order := Handle(r, [], 0)], c) {
      assert ItemOk(active[i], handles, c);
    }
  }

  lemma QueueLogEmpty(queue: seq<Request>, i: nat, handles: Handles)
    requires i < |queue| && QueueOk(queue, handles) && Open(handles, queue[i].order)
    ensures handles[queue[i].order].request == queue[i] && handles[queue[i].order].log == []
  {
    assert QueuedOk(queue[i], handles);
  }

  /** A queued request ends without ever having been active, and leaves the queue. */
  lemma ExpireAccounted(handles: Handles, registry: map<string, nat>, nextOrder: nat, accepted: nat, ended: Counters,
                        a: seq<Request>, r: Request, b: seq<Request>, active: seq<Item>, m: Model, c: Config,
                        reason: Reason, status: nat)
    requires c.blockSize > 0 && Accounted(handles, registry, nextOrder, accepted, ended, a + [r] + b, active, m, c)
    requires Open(handles, r.order) && r.order !in LiveOrders(active)
    requires ErrorKind(reason, status)
    ensures handles[r.order].taken <= |handles[r.order].log| && r.order in handles && !Finished(handles[r.order].log)
    ensures Accounted(Closed(handles, r.order, reason, status, Usage(|r.prompt|, 0, 0)), registry - {r.id}, nextOrder,
                      accepted, Counted(ended, reason),
                      a + b, active, m, c)
  {
    hide LogsOk, Registered, ItemsOk, QueueOk, LiveOrders, Tracked, Closed, LogOk;
    var queue := a + [r] + b;
    assert queue[|a|] == r;
    QueueLogEmpty(queue, |a|, handles);
    LogBounds(handles, m, c, r.order);
    assert TokensIn(handles[r.order].log) == [];
    var handles' := Closed(handles, r.order, reason, status, Usage(|r.prompt|, 0, 0));
    CloseAccounted(handles, registry, nextOrder, accepted, ended, queue, active, m, c, r.order, reason, status,
                   Usage(|r.prompt|, 0, 0));
    ClosedFinished(handles, r.order, reason, status, Usage(|r.prompt|, 0, 0));
    QueueAccounted(handles', registry - {r.id}, nextOrder, accepted, Counted(ended, reason), queue, a + b, active, m,
                   c);
  }

  lemma LogBounds(handles: Handles, m: Model, c: Config, o: nat)
    requires LogsOk(handles, m, c) && o in handles
    ensures handles[o].taken <= |handles[o].log| && handles[o].request.order == o
  {
    hide LogOk;
    assert HandleOk(o, handles[o], m, c);
  }

  lemma ClosedFinished(handles: Handles, o: nat, reason: Reason, status: nat, usage: Usage)
    requires o in handles
    ensures !Open(Closed(handles, o, reason, status, usage), o)
    ensures forall p :: p != o ==> Open(Closed(handles, o, reason, status, usage), p) == Open(handles, p)
    ensures forall p :: p in Closed(handles, o, reason, status, usage) <==> p in handles
    ensures forall p :: p in handles && p != o ==> Closed(handles, o, reason, status, usage)[p] == handles[p]
  {
  }

  lemma ExpireExact(handles: Handles, a: seq<Request>, r: Request, b: seq<Request>, active: seq<Item>, reason: Reason,
                    status: nat, usage: Usage)
    requires QueueExact(a + [r] + b, handles, active)
    ensures Open(handles, r.order) && r.order !in LiveOrders(active)
    ensures QueueExact(a + b, Closed(handles, r.order, reason, status, usage), active)
  {
    var queue := a + [r] + b;
    assert queue[|a|] == r;
    ShorterExact(a, r, b, handles, active);
    ClosedFinished(handles, r.order, reason, status, usage);
    hide Closed;
    forall i | 0 <= i < |a + b|
      ensures Open(Closed(handles, r.order, reason, status, usage), (a + b)[i].order)
    {
      if i < |a| {
        assert queue[i] == (a + b)[i] && queue[i].order != queue[|a|].order;
      } else {
        assert queue[i + 1] == (a + b)[i] && queue[i + 1].order != queue[|a|].order;
      }
    }
  }

  lemma EndExact(queue: seq<Request>, handles: Handles, active: seq<Item>, i: nat, reason: Reason, status: nat,
                 usage: Usage)
    requires QueueExact(queue, handles, active) && i < |active| && !active[i].done && active[i].request.order in handles
    requires forall j, k :: 0 <= j < k < |active| ==> Apart(active, j, k)
    ensures QueueExact(queue, Closed(handles, active[i].request.order, reason, status, usage),
                       active[i := Ended(active[i])])
  {
    EndedSets(active, i);
    ClosedFinished(handles, active[i].request.order, reason, status, usage);
    hide LiveOrders, Ended, Closed;
  }

  lemma {:induction false} DistinctSize(queue: seq<Request>)
    requires forall i, j :: 0 <= i < j < |queue| ==> queue[i].order != queue[j].order
    ensures |Orders(queue)| == |queue|
  {
    if queue == [] {
    } else {
      var n := |queue| - 1;
      var rest, last := queue[..n], queue[n];
      assert queue == rest + [last];
      DistinctSize(rest);
      OrdersAppend(rest, [last]);
      OrdersOne(last);
    }
  }

  lemma OrdersOne(r: Request)
    ensures Orders([r]) == {r.order}
  {
    assert [r][0] == r;
  }

  lemma {:induction false} OrdersSize(queue: seq<Request>)
    ensures |Orders(queue)| <= |queue|
  {
    if queue == [] {
    } else {
      var n := |queue| - 1;
      var rest, last := queue[..n], queue[n];
      assert queue == rest + [last];
      OrdersSize(rest);
      OrdersAppend(rest, [last]);
      OrdersOne(last);
      SubsetSize(Orders(queue), Orders(rest) + {last.order});
    }
  }

  lemma SizeDistinct(queue: seq<Request>, i: nat, j: nat)
    requires |Orders(queue)| == |queue| && i < j < |queue|
    ensures queue[i].order != queue[j].order
  {
    var rest := queue[..j] + queue[j + 1..];
    assert queue == queue[..j] + ([queue[j]] + queue[j + 1..]);
    OrdersAppend(queue[..j], [queue[j]] + queue[j + 1..]);
    OrdersAppend([queue[j]], queue[j + 1..]);
    OrdersAppend(queue[..j], queue[j + 1..]);
    OrdersOne(queue[j]);
    OrdersSize(rest);
    assert rest[i] == queue[i];
    assert queue[j].order in Orders(rest) ==> Orders(queue) == Orders(rest);
  }

  lemma OrdersPermuted(a: seq<Request>, b: seq<Request>)
    requires multiset(a) == multiset(b)
    ensures Orders(a) == Orders(b) && |a| == |b|
  {
    assert |multiset(a)| == |a| && |multiset(b)| == |b|;
    forall o | o in Orders(a) ensures o in Orders(b) {
      var i :| 0 <= i < |a| && a[i].order == o;
      assert a[i] in multiset(b);
      var j :| 0 <= j < |b| && b[j] == a[i];
    }
    forall o | o in Orders(b) ensures o in Orders(a) {
      var i :| 0 <= i < |b| && b[i].order == o;
      assert b[i] in multiset(a);
      var j :| 0 <= j < |a| && a[j] == b[i];
    }
  }

  /** A queue may be put in another order. */
  lemma PermutedExact(a: seq<Request>, b: seq<Request>, rest: seq<Request>, handles: Handles, active: seq<Item>)
    requires QueueExact(a + rest, handles, active) && multiset(a) == multiset(b)
    ensures QueueExact(b + rest, handles, active)
  {
    var queue, queue' := a + rest, b + rest;
    assert multiset(queue) == multiset(queue');
    DistinctSize(queue);
    OrdersPermuted(queue, queue');
    hide LiveOrders;
    forall i, j | 0 <= i < j < |queue'| ensures queue'[i].order != queue'[j].order {
      SizeDistinct(queue', i, j);
    }
    forall i | 0 <= i < |queue'| ensures Open(handles, queue'[i].order) && queue'[i].order !in LiveOrders(active) {
      assert queue'[i].order in Orders(queue');
      var j :| 0 <= j < |queue| && queue[j].order == queue'[i].order;
    }
  }

  lemma PermutedMembers(a: seq<Request>, b: seq<Request>, rest: seq<Request>)
    requires multiset(a) == multiset(b)
    ensures forall r :: r in a + rest <==> r in b + rest
  {
    forall r ensures r in a + rest <==> r in b + rest {
      assert r in a <==> r in multiset(a);
      assert r in b <==> r in multiset(b);
    }
  }

  /** The request just admitted leaves its place in the queue. */
  lemma DequeueExact(a: seq<Request>, r: Request, b: seq<Request>, handles: Handles, active: seq<Item>, it: Item)
    requires QueueExact(a + [r] + b, handles, active) && it.request == r && !it.done
    ensures QueueExact(a + b, handles, active + [it])
  {
    ShorterExact(a, r, b, handles, active);
    SetsSnoc(active, it);
    hide LiveOrders;
  }

  /** A log grows, or an item changes: the queues do not notice. */
  lemma LogExact(queue: seq<Request>, handles: Handles, active: seq<Item>, active': seq<Item>, o: nat, value: Handle)
    requires QueueExact(queue, handles, active) && o in handles && Finished(value.log) == Finished(handles[o].log)
    requires LiveOrders(active) == LiveOrders(active')
    ensures QueueExact(queue, handles[o := value], active')
  {
    hide LiveOrders;
    forall p ensures Open(handles[o := value], p) <==> Open(handles, p) {
    }
  }

  lemma LiveNotQueued(queue: seq<Request>, handles: Handles, active: seq<Item>, i: nat)
    requires QueueExact(queue, handles, active) && i < |active| && !active[i].done
    ensures active[i].request.order !in Orders(queue)
  {
    assert active[i].request.order in LiveOrders(active);
  }

  lemma ShorterExact(a: seq<Request>, r: Request, b: seq<Request>, handles: Handles, active: seq<Item>)
    requires QueueExact(a + [r] + b, handles, active)
    ensures QueueExact(a + b, handles, active)
    ensures forall i :: 0 <= i < |a + b| ==> (a + b)[i].order != r.order
  {
    var queue := a + [r] + b;
    assert queue[|a|] == r;
    forall i | 0 <= i < |a + b|
      ensures (a + b)[i] == queue[if i < |a| then i else i + 1]
    {
    }
  }

  /** Between two moments, some requests have ended, each with one terminal event of a given kind; nothing else was
      sent. */
  ghost predicate OnlyClosed(before: Handles, after: Handles, kinds: set<(Reason, nat)>) {
    && before.Keys == after.Keys
    && forall o :: o in before ==> after[o] == before[o] || ClosedAs(before[o], after[o], kinds)
  }

  ghost predicate ClosedAs(a: Handle, b: Handle, kinds: set<(Reason, nat)>) {
    && !Finished(a.log) && |b.log| == |a.log| + 1 && a.log <= b.log && b == a.(log := b.log)
    && var e := b.log[|a.log|]; e.Terminal? && (e.reason, e.status) in kinds
  }

  lemma OneMoreClosed(before: Handles, after: Handles, kinds: set<(Reason, nat)>, o: nat, reason: Reason, status: nat,
                      usage: Usage)
    requires OnlyClosed(before, after, kinds) && Open(after, o) && (reason, status) in kinds
    ensures OnlyClosed(before, Closed(after, o, reason, status, usage), kinds)
  {
    var now := Closed(after, o, reason, status, usage);
    assert now.Keys == after.Keys;
    forall p | p in before ensures now[p] == before[p] || ClosedAs(before[p], now[p], kinds) {
      assert p in after;
    }
  }

  lemma ClosedTwice(a: Handles, b: Handles, c: Handles, kinds: set<(Reason, nat)>)
    requires OnlyClosed(a, b, kinds) && OnlyClosed(b, c, kinds)
    ensures OnlyClosed(a, c, kinds)
  {
    forall o | o in a ensures c[o] == a[o] || ClosedAs(a[o], c[o], kinds) {
      assert o in b;
      assert b[o] == a[o] || ClosedAs(a[o], b[o], kinds);
      assert c[o] == b[o] || ClosedAs(b[o], c[o], kinds);
    }
  }

  /** How a request that has expired may end: as cancelled if it has been cancelled, as timed out if it is overdue
      and had not been cancelled before. */
  function Expiries(o: nat, cancelled0: set<nat>, cancelled: set<nat>, overdue: set<nat>): set<(Reason, nat)> {
    (if o in cancelled then {(Cancelled, 409)} else {}) + (if o in overdue
                                                           && o !in cancelled0 then {(Timeout, 408)} else {})
  }

  /** Between two moments, some requests have ended because they had expired, and nothing else was sent. */
  ghost predicate OnlyExpired(before: Handles, after: Handles, cancelled0: set<nat>, cancelled: set<nat>,
                              overdue: set<nat>) {
    && before.Keys == after.Keys
    && forall o :: o in before ==>
         after[o] == before[o] || ClosedAs(before[o], after[o], Expiries(o, cancelled0, cancelled, overdue))
  }

  lemma NoneExpired(h: Handles, cancelled0: set<nat>, cancelled: set<nat>, overdue: set<nat>)
    ensures OnlyExpired(h, h, cancelled0, cancelled, overdue)
  {
  }

  lemma OneMoreExpired(before: Handles, after: Handles, cancelled0: set<nat>, cancelled: set<nat>, overdue: set<nat>,
                       o: nat,
                       reason: Reason, status: nat, usage: Usage)
    requires OnlyExpired(before, after, cancelled0, cancelled, overdue) && Open(after, o)
    requires (reason, status) in Expiries(o, cancelled0, cancelled, overdue)
    ensures OnlyExpired(before, Closed(after, o, reason, status, usage), cancelled0, cancelled, overdue)
  {
    hide Expiries;
    var now := Closed(after, o, reason, status, usage);
    assert now.Keys == after.Keys;
    forall p | p in before ensures now[p] == before[p]
           || ClosedAs(before[p], now[p], Expiries(p, cancelled0, cancelled, overdue)) {
      assert p in after;
    }
  }

  /** The two flags are only ever raised. */
  lemma ExpiredTwice(a: Handles, b: Handles, c: Handles, cancelled0: set<nat>, cancelled1: set<nat>, overdue1: set<nat>,
                     cancelled2: set<nat>, overdue2: set<nat>)
    requires cancelled0 <= cancelled1 <= cancelled2 && overdue1 <= overdue2
    requires OnlyExpired(a, b, cancelled0, cancelled1, overdue1) && OnlyExpired(b, c, cancelled1, cancelled2, overdue2)
    ensures OnlyExpired(a, c, cancelled0, cancelled2, overdue2)
  {
    forall o | o in a ensures c[o] == a[o] || ClosedAs(a[o], c[o], Expiries(o, cancelled0, cancelled2, overdue2)) {
      assert o in b;
      assert b[o] == a[o] || ClosedAs(a[o], b[o], Expiries(o, cancelled0, cancelled1, overdue1));
      assert c[o] == b[o] || ClosedAs(b[o], c[o], Expiries(o, cancelled1, cancelled2, overdue2));
    }
  }

  lemma ExpiredGrown(before: Handles, after: Handles, cancelled0: set<nat>, cancelled: set<nat>, overdue: set<nat>)
    requires OnlyExpired(before, after, cancelled0, cancelled, overdue)
    ensures Grown(before, after) && before.Keys == after.Keys
  {
    forall o | o in before ensures o in after && GrownLog(before[o], after[o], SERVED) {
      assert o in after;
      assert after[o] == before[o] || ClosedAs(before[o], after[o], Expiries(o, cancelled0, cancelled, overdue));
    }
  }

  /** How a request ends while the engine serves. */
  const SERVED: set<(Reason, nat)> :=
    {(Stopped, 200), (Length, 200), (Cancelled, 409), (Timeout, 408), (Backpressure, 429)}

  /** Shutting down adds an ending of its own, and so does a failure of the runner. */
  ghost function Endings(stopping: bool, failed: bool): set<(Reason, nat)> {
    SERVED + (if stopping then {(Cancelled, 503)} else {}) + if failed then {(BackendFailure, 500)} else {}
  }

  ghost predicate EndsIn(log: seq<Event>, from: nat, kinds: set<(Reason, nat)>) {
    forall i :: from <= i < |log| && log[i].Terminal? ==> (log[i].reason, log[i].status) in kinds
  }

  ghost predicate GrownLog(a: Handle, b: Handle, kinds: set<(Reason, nat)>) {
    b.request == a.request && a.log <= b.log && EndsIn(b.log, |a.log|, kinds)
  }

  /** Logs only ever grow, no request is forgotten, and all that has ended since has one of these endings. */
  ghost predicate GrownBy(before: Handles, after: Handles, kinds: set<(Reason, nat)>) {
    && (forall o :: o in before ==> o in after && GrownLog(before[o], after[o], kinds))
    && forall o :: o in after && o !in before ==> EndsIn(after[o].log, 0, kinds)
  }

  ghost predicate Grown(before: Handles, after: Handles) {
    GrownBy(before, after, SERVED)
  }

  lemma ClosedGrown(before: Handles, after: Handles, kinds: set<(Reason, nat)>)
    requires OnlyClosed(before, after, kinds)
    ensures GrownBy(before, after, kinds)
  {
    assert before.Keys == after.Keys;
    forall o | o in before ensures o in after && GrownLog(before[o], after[o], kinds) {
      assert o in after;
      assert after[o] == before[o] || ClosedAs(before[o], after[o], kinds);
    }
  }

  lemma GrownByTwice(a: Handles, b: Handles, c: Handles, first: set<(Reason, nat)>, second: set<(Reason, nat)>,
                     kinds: set<(Reason, nat)>)
    requires GrownBy(a, b, first) && GrownBy(b, c, second) && first <= kinds && second <= kinds
    ensures GrownBy(a, c, kinds)
  {
    forall o | o in a ensures o in c && GrownLog(a[o], c[o], kinds) {
      assert GrownLog(a[o], b[o], first) && GrownLog(b[o], c[o], second);
    }
    forall o | o in c && o !in a ensures EndsIn(c[o].log, 0, kinds) {
      assert o in b ==> GrownLog(b[o], c[o], second);
    }
  }

  /** A finished log is final. */
  lemma FinishedStays(before: Handles, after: Handles, kinds: set<(Reason, nat)>, m: Model, c: Config, o: nat)
    requires GrownBy(before, after, kinds) && LogsOk(after, m, c) && o in before && Finished(before[o].log)
    ensures o in after && after[o].log == before[o].log
  {
    hide EndsIn, RequestOk, TerminalOk, IsGreedy, TokensIn;
    assert HandleOk(o, after[o], m, c);
    var a, b := before[o].log, after[o].log;
    assert a[|a| - 1] == b[|a| - 1];
  }

  lemma NoneClosed(h: Handles, kinds: set<(Reason, nat)>)
    ensures OnlyClosed(h, h, kinds)
  {
  }

  /** Clients add requests and take events, and send nothing. */
  ghost predicate ClientsOnly(before: Handles, after: Handles) {
    && (forall o :: o in before ==>
          o in after && after[o].log == before[o].log && after[o].request == before[o].request)
    && forall o :: o in after && o !in before ==> after[o].log == []
  }

  /** What has been sent to a request does not depend on the clients. */
  lemma ClientsSame(active: seq<Item>, before: Handles, after: Handles)
    requires ClientsOnly(before, after)
    ensures SameSent(active, before, after)
  {
    forall i | 0 <= i < |active| && !active[i].done ensures Sent(active[i], after) == Sent(active[i], before) {
    }
  }

  /** An ending takes its registry entry out first, and sends the event afterwards. What clients do in between, they
      might as well do after it: the id is free already, and the events a client can take are the same. */
  lemma EndingInOneStep(handles: Handles, o: nat, reason: Reason, status: nat, usage: Usage, q: Request, p: nat)
    requires Open(handles, o) && forall r :: r in handles ==> handles[r].taken <= |handles[r].log|
    ensures q.order !in handles ==>
              Closed(handles[q.order := Handle(q, [], 0)], o, reason, status, usage)
                == Closed(handles, o, reason, status, usage)[q.order := Handle(q, [], 0)]
    ensures p in handles && Received(handles[p]).1.Some? ==>
              var ended := Closed(handles, o, reason, status, usage);
              && p in ended && ended[p].taken <= |ended[p].log|
              && Received(ended[p]).1 == Received(handles[p]).1
              && Closed(handles[p := Received(handles[p]).0], o, reason, status, usage)
                   == ended[p := Received(ended[p]).0]
  {
    var ended := Closed(handles, o, reason, status, usage);
    if q.order !in handles {
      assert Closed(handles[q.order := Handle(q, [], 0)], o, reason, status, usage)
               == ended[q.order := Handle(q, [], 0)];
    }
    if p in handles && Received(handles[p]).1.Some? {
      assert Received(ended[p]).0 == if p == o then Received(handles[p]).0.(log := ended[p].log)
                                     else Received(handles[p]).0;
      assert Closed(handles[p := Received(handles[p]).0], o, reason, status, usage) == ended[p := Received(ended[p]).0];
    }
  }

  lemma ClientsGrow(before: Handles, after: Handles)
    requires ClientsOnly(before, after)
    ensures Grown(before, after)
  {
  }

  lemma GrownNone(h: Handles)
    ensures Grown(h, h)
  {
  }

  lemma GrownTwice(a: Handles, b: Handles, c: Handles)
    requires Grown(a, b) && Grown(b, c)
    ensures Grown(a, c)
  {
    hide GrownBy;
    GrownByTwice(a, b, c, SERVED, SERVED, SERVED);
  }

  // ---- credits: counts, slots, cache -----------------------------------------------------

  ghost predicate Balanced(refs: seq<nat>, table: seq<seq<nat>>, active: seq<Item>, entries: map<int, Entry>,
                           tokenCount: nat, free: seq<nat>, freeCache: seq<nat>, c: Config)
  {
    && |refs| * c.blockSize == c.contextTokens
    && CreditsExact(refs, table)
    && SlotsExact(free, active, c.maxActive)
    && CacheSlotsExact(freeCache, entries, c)
    && TableExact(table, active, entries, free, freeCache, c)
    && (forall i :: 0 <= i < |active| && !active[i].done ==> active[i].sequence < c.maxActive)
    && (forall i, j :: 0 <= i < j < |active| ==> Apart(active, i, j))
    && tokenCount <= c.prefixCacheTokens
  }

  lemma EndBalanced(refs: seq<nat>, poolFree: seq<nat>, table: seq<seq<nat>>, active: seq<Item>, entries: map<int,
                    Entry>,
                    tokenCount: nat, free: seq<nat>, freeCache: seq<nat>, c: Config, i: nat)
    requires Balanced(refs, table, active, entries, tokenCount, free, freeCache, c) && i < |active| && !active[i].done
    ensures var s := active[i].sequence;
      && s < c.maxActive && s < |table| && table[s] == active[i].blocks && LiveTable(refs, active[i].blocks)
      && Balanced(Released(refs, poolFree, active[i].blocks).0, table[s := []], active[i := Ended(active[i])], entries,
                  tokenCount, free + [s], freeCache, c)
  {
    var s := active[i].sequence;
    ReleaseCredits(refs, poolFree, table, s);
    PushSlot(free, active, i, c.maxActive);
    EndTable(table, active, entries, free, freeCache, c, i);
    var active' := active[i := Ended(active[i])];
    forall j, k | 0 <= j < k < |active'| ensures Apart(active', j, k) {
      assert Apart(active, j, k);
    }
    hide CreditsExact, SlotsExact, CacheSlotsExact, Apart, Released;
  }

  lemma EvictBalanced(refs: seq<nat>, poolFree: seq<nat>, table: seq<seq<nat>>, active: seq<Item>, entries: map<int,
                      Entry>,
                      tokenCount: nat, tokenCount': nat, free: seq<nat>, freeCache: seq<nat>, c: Config, s: nat)
    requires Balanced(refs, table, active, entries, tokenCount, free, freeCache, c) && s in entries
             && tokenCount' <= tokenCount
    ensures && c.maxActive <= s < Slots(c) == |table| && table[s] == entries[s].blocks
            && LiveTable(refs, entries[s].blocks)
            && Balanced(Released(refs, poolFree, entries[s].blocks).0, table[s := []], active, entries - {s},
                        tokenCount', free, freeCache + [s], c)
  {
    ReleaseCredits(refs, poolFree, table, s);
    ReturnCacheSlot(freeCache, entries, s, c);
    EvictTable(table, active, entries, free, freeCache, c, s);
    hide CreditsExact, SlotsExact, Apart, Released, LiveTable;
  }

  lemma AdmitBalanced(refs: seq<nat>, table: seq<seq<nat>>, active: seq<Item>, entries: map<int, Entry>,
                      tokenCount: nat, free: seq<nat>, freeCache: seq<nat>, c: Config, it: Item, held: seq<nat>,
                      granted: seq<nat>)
    requires Balanced(refs, table, active, entries, tokenCount, free, freeCache, c)
    requires free != [] && it.sequence == free[|free| - 1] && !it.done && it.blocks == held + granted
    requires it.request.order !in LiveOrders(active)
    requires LiveTable(refs, held)
    requires Distinct(granted) && Within(granted, |refs|) && forall i :: 0 <= i < |granted| ==> refs[granted[i]] == 0
    ensures it.sequence < c.maxActive && it.sequence !in BusySlots(active)
    ensures it.sequence < |table| && table[it.sequence] == []
    ensures LiveTable(Granted(refs, granted), held)
    ensures Balanced(Retained(Granted(refs, granted), held), table[it.sequence := it.blocks], active + [it], entries,
                     tokenCount, free[..|free| - 1], freeCache, c)
  {
    TakeSlot(free, active, it, c.maxActive);
    AdmitTable(table, active, entries, free, freeCache, c, it);
    GrantCredits(refs, table, it.sequence, held, granted);
    AddApart(active, it);
    hide CreditsExact, SlotsExact, CacheSlotsExact, TableExact, Apart, Granted, Retained, LiveTable;
  }

  lemma AddApart(active: seq<Item>, it: Item)
    requires forall i, j :: 0 <= i < j < |active| ==> Apart(active, i, j)
    requires !it.done && it.sequence !in BusySlots(active) && it.request.order !in LiveOrders(active)
    ensures forall i, j :: 0 <= i < j < |active + [it]| ==> Apart(active + [it], i, j)
  {
    var all := active + [it];
    forall j, k | 0 <= j < k < |all| ensures Apart(all, j, k) {
      if k < |active| {
        assert Apart(active, j, k);
      } else if !active[j].done {
        assert active[j].sequence in BusySlots(active) && active[j].request.order in LiveOrders(active);
      }
    }
  }

  lemma CacheBalanced(refs: seq<nat>, table: seq<seq<nat>>, active: seq<Item>, entries: map<int, Entry>,
                      tokenCount: nat,
                      tokenCount': nat, free: seq<nat>, freeCache: seq<nat>, c: Config, e: Entry)
    requires Balanced(refs, table, active, entries, tokenCount, free, freeCache, c)
             && tokenCount' <= c.prefixCacheTokens
    requires freeCache != [] && e.sequence == freeCache[|freeCache| - 1] && LiveTable(refs, e.blocks)
    ensures c.maxActive <= e.sequence < Slots(c) == |table| && e.sequence !in entries && table[e.sequence] == []
    ensures Balanced(Retained(refs, e.blocks), table[e.sequence := e.blocks], active, entries[e.sequence := e],
                     tokenCount',
                     free, freeCache[..|freeCache| - 1], c)
  {
    TakeCacheSlot(freeCache, entries, e, c);
    CacheTable(table, active, entries, free, freeCache, c, e);
    GrantCredits(refs, table, e.sequence, e.blocks, []);
    assert Granted(refs, []) == refs && e.blocks + [] == e.blocks;
    hide CreditsExact, SlotsExact, CacheSlotsExact, TableExact, Apart, Granted, Retained, LiveTable;
  }

  /** Finished items are dropped, or items change without changing slot or blocks. */
  lemma LiveBalanced(refs: seq<nat>, table: seq<seq<nat>>, active: seq<Item>, entries: map<int, Entry>,
                     tokenCount: nat, free: seq<nat>, freeCache: seq<nat>, c: Config)
    requires Balanced(refs, table, active, entries, tokenCount, free, freeCache, c)
    ensures Balanced(refs, table, Live(active), entries, tokenCount, free, freeCache, c)
  {
    LiveSets(active);
    LiveApart(active);
    forall i | 0 <= i < |Live(active)|
      ensures var it := Live(active)[i];
        it.sequence < c.maxActive && it.sequence < |table| && table[it.sequence] == it.blocks
    {
      LiveMember(active, i);
    }
  }

  ghost predicate SameShape(active: seq<Item>, active': seq<Item>) {
    && |active'| == |active|
    && forall i :: 0 <= i < |active| ==>
         && active'[i].done == active[i].done && active'[i].sequence == active[i].sequence
         && active'[i].blocks == active[i].blocks && active'[i].request == active[i].request
  }

  lemma ShapeSets(active: seq<Item>, active': seq<Item>)
    requires SameShape(active, active')
    ensures LiveOrders(active) == LiveOrders(active') && BusySlots(active) == BusySlots(active')
  {
  }

  lemma ShapeBalanced(refs: seq<nat>, table: seq<seq<nat>>, active: seq<Item>, active': seq<Item>, entries: map<int,
                      Entry>,
                      tokenCount: nat, free: seq<nat>, freeCache: seq<nat>, c: Config)
    requires Balanced(refs, table, active, entries, tokenCount, free, freeCache, c) && SameShape(active, active')
    ensures Balanced(refs, table, active', entries, tokenCount, free, freeCache, c)
  {
    ShapeSets(active, active');
    forall i, j | 0 <= i < j < |active'| ensures Apart(active', i, j) {
      assert Apart(active, i, j);
    }
    hide CreditsExact, CacheSlotsExact, LiveOrders, BusySlots;
  }

  // ---- the runner's trace ------------------------------------------------------------------

  ghost function Cap(refs: seq<nat>, m: Model, c: Config): Capacity {
    Capacity(c.blockSize, |refs|, m.vocabulary, c.maxModelLen, c.batchTokens)
  }

  /** The steps taken so far are legal and lead to the present histories and block tables. */
  ghost predicate Traced(trace: seq<Step>, h: Histories, table: seq<seq<nat>>, cap: Capacity, slots: nat) {
    && cap.blockSize > 0
    && LegalRun(EmptyView(slots), cap, trace)
    && Replay(EmptyView(slots), cap, trace) == View(h, table)
  }

  lemma TraceRelease(trace: seq<Step>, h: Histories, table: seq<seq<nat>>, cap: Capacity, slots: nat, slot: nat)
    requires Traced(trace, h, table, cap, slots) && slot < |table| == |h|
    ensures Traced(trace + [Release(slot)], h[slot := []], table[slot := []], cap, slots)
  {
    RunExtends(EmptyView(slots), cap, trace, Release(slot));
  }

  lemma TraceAdopt(trace: seq<Step>, h: Histories, table: seq<seq<nat>>, cap: Capacity, slots: nat,
                   slot: nat, source: Option<nat>, tokens: nat, granted: seq<nat>)
    requires Traced(trace, h, table, cap, slots) && Legal(View(h, table), cap, Adopt(slot, source, tokens, granted))
    ensures var v := Apply(View(h, table), cap, Adopt(slot, source, tokens, granted));
      Traced(trace + [Adopt(slot, source, tokens, granted)], v.histories, v.blocks, cap, slots)
  {
    hide Legal, LegalRun, Replay;
    RunExtends(EmptyView(slots), cap, trace, Adopt(slot, source, tokens, granted));
  }

  lemma TraceFeed(trace: seq<Step>, h: Histories, table: seq<seq<nat>>, cap: Capacity, slots: nat,
                  batch: seq<InputToken>)
    requires Traced(trace, h, table, cap, slots) && Legal(View(h, table), cap, Feed(batch))
    ensures Traced(trace + [Feed(batch)], HistoriesAfter(h, batch), table, cap, slots)
  {
    hide Legal, LegalRun, Replay, HistoriesAfter;
    RunExtends(EmptyView(slots), cap, trace, Feed(batch));
  }

  /** While in step, nothing but the engine's own records bounds the runner. */
  ghost predicate Following(trace: seq<Step>, h: Histories, table: seq<seq<nat>>, refs: seq<nat>, entries: map<int,
                            Entry>,
                            free: seq<nat>, freeCache: seq<nat>, m: Model, c: Config)
  {
    && Traced(trace, h, table, Cap(refs, m, c), Slots(c))
    && SlotsInStep(entries, free, freeCache, h, c)
    && (c.prefixCacheEntries == 0 ==> NoShares(trace))
  }

  lemma FollowingSize(trace: seq<Step>, h: Histories, table: seq<seq<nat>>, refs: seq<nat>, refs': seq<nat>,
                      entries: map<int, Entry>,
                      free: seq<nat>, freeCache: seq<nat>, m: Model, c: Config)
    requires Following(trace, h, table, refs, entries, free, freeCache, m, c) && |refs| == |refs'|
    ensures Following(trace, h, table, refs', entries, free, freeCache, m, c)
  {
    hide SlotsInStep, Traced;
  }

  /** An entry is only stamped as used. */
  lemma StampKeeps(refs: seq<nat>, table: seq<seq<nat>>, active: seq<Item>, entries: map<int, Entry>, entries': map<int,
                   Entry>,
                   tokenCount: nat, free: seq<nat>, freeCache: seq<nat>, c: Config)
    requires Balanced(refs, table, active, entries, tokenCount, free, freeCache, c) && SameEntries(entries, entries')
    ensures Balanced(refs, table, active, entries', tokenCount, free, freeCache, c)
  {
    hide CreditsExact, SlotsExact, Apart;
  }

  ghost predicate SameEntries(entries: map<int, Entry>, entries': map<int, Entry>) {
    && (forall s :: s in entries' <==> s in entries)
    && (forall s :: s in entries ==>
          && entries'[s].tokens == entries[s].tokens && entries'[s].blocks == entries[s].blocks
          && entries'[s].space == entries[s].space)
  }

  lemma SameMatch(entries: map<int, Entry>, entries': map<int, Entry>, space: string, tokens: seq<int>, limit: nat,
                  blockSize: nat, r: Option<Match>)
    requires blockSize > 0 && SameEntries(entries, entries')
    ensures LongestMatch(entries, space, tokens, limit, blockSize, r) <==>
            LongestMatch(entries', space, tokens, limit, blockSize, r)
  {
    forall path: seq<int> ensures Through(entries', space, path) == Through(entries, space, path) {
      forall s ensures s in Through(entries', space, path) <==> s in Through(entries, space, path) {
      }
    }
  }

  lemma StampFollows(trace: seq<Step>, h: Histories, table: seq<seq<nat>>, refs: seq<nat>, entries: map<int, Entry>,
                     entries': map<int, Entry>, free: seq<nat>, freeCache: seq<nat>, m: Model, c: Config)
    requires Following(trace, h, table, refs, entries, free, freeCache, m, c) && SameEntries(entries, entries')
    ensures Following(trace, h, table, refs, entries', free, freeCache, m, c)
  {
    hide Traced;
  }

  // ---- admission and caching as steps of the runner ---------------------------------------

  lemma NoneHeld(table: seq<seq<nat>>, refs: seq<nat>, granted: seq<nat>)
    requires CreditsExact(refs, table) && Within(granted, |refs|)
    requires forall i :: 0 <= i < |granted| ==> refs[granted[i]] == 0
    ensures forall i :: 0 <= i < |granted| ==> Unheld(table, granted[i])
  {
    forall i | 0 <= i < |granted| ensures Unheld(table, granted[i]) {
      UnheldBlock(refs, table, granted[i]);
    }
  }

  lemma EntryReuse(refs: seq<nat>, table: seq<seq<nat>>, active: seq<Item>, entries: map<int, Entry>,
                   tokenCount: nat, free: seq<nat>, freeCache: seq<nat>, c: Config, s: int, k: nat)
    requires Balanced(refs, table, active, entries, tokenCount, free, freeCache, c) && c.blockSize > 0
    requires s in entries && EntryOk(entries[s], c.blockSize) && k <= |entries[s].tokens|
    ensures s >= 0 && k / c.blockSize <= |entries[s].blocks| && LiveTable(refs, entries[s].blocks[..k / c.blockSize])
  {
    hide CreditsExact, SlotsExact, Apart, BlockPools.LiveTable;
    DivMonotone(k, |entries[s].tokens|, c.blockSize);
    HeldIsLive(refs, table, s, k / c.blockSize);
  }

  lemma RefsBounded(refs: seq<nat>, table: seq<seq<nat>>, active: seq<Item>, entries: map<int, Entry>,
                    tokenCount: nat, free: seq<nat>, freeCache: seq<nat>, c: Config)
    requires Balanced(refs, table, active, entries, tokenCount, free, freeCache, c) && Validated(c)
    ensures forall b :: 0 <= b < |refs| ==> refs[b] < MAX_REFS
  {
    hide CreditsExact, SlotsExact, CacheSlotsExact, Apart;
    forall b | 0 <= b < |refs| ensures refs[b] < MAX_REFS {
      CountsBounded(refs, table, b);
    }
  }

  /** What an admission reuses of a cache entry, if anything. */
  ghost predicate Reuses(entries: map<int, Entry>, source: Option<nat>, tokens: nat, blockSize: nat)
    requires blockSize > 0
  {
    match source
    case None => tokens == 0
    case Some(s) => s in entries && tokens <= |entries[s].tokens| && tokens % blockSize == 0
                    && tokens / blockSize <= |entries[s].blocks|
  }

  ghost function ReusedTokens(entries: map<int, Entry>, source: Option<nat>, tokens: nat, blockSize: nat): seq<int>
    requires blockSize > 0 && Reuses(entries, source, tokens, blockSize)
  {
    if source.Some? then entries[source.value].tokens[..tokens] else []
  }

  ghost function ReusedBlocks(entries: map<int, Entry>, source: Option<nat>, tokens: nat, blockSize: nat): seq<nat>
    requires blockSize > 0 && Reuses(entries, source, tokens, blockSize)
  {
    if source.Some? then entries[source.value].blocks[..tokens / blockSize] else []
  }

  lemma AdmitFollows(trace: seq<Step>, h: Histories, table: seq<seq<nat>>, refs: seq<nat>, active: seq<Item>,
                     entries: map<int, Entry>,
                     tokenCount: nat, free: seq<nat>, freeCache: seq<nat>, m: Model, c: Config,
                     slot: nat, source: Option<nat>, tokens: nat, granted: seq<nat>)
    requires Balanced(refs, table, active, entries, tokenCount, free, freeCache, c)
    requires Following(trace, h, table, refs, entries, free, freeCache, m, c)
    requires c.blockSize > 0 && free != [] && slot == free[|free| - 1] && Reuses(entries, source, tokens, c.blockSize)
    requires Distinct(granted) && Within(granted, |refs|) && forall i :: 0 <= i < |granted| ==> refs[granted[i]] == 0
    ensures slot < |h| == |table| && slot !in BusySlots(active)
    ensures source.Some? ==>
              source.value < |h| && source.value != slot && h[source.value] == entries[source.value].tokens
    ensures var reused, held := ReusedTokens(entries, source, tokens, c.blockSize),
                                ReusedBlocks(entries, source, tokens, c.blockSize);
      Following(trace + [Adopt(slot, source, tokens, granted)], h[slot := reused], table[slot := held + granted], refs,
                entries,
                free[..|free| - 1], freeCache, m, c)
  {
    PopMember(free);
    NoneHeld(table, refs, granted);
    var reused, held := ReusedTokens(entries, source, tokens, c.blockSize),
                        ReusedBlocks(entries, source, tokens, c.blockSize);
    assert slot in free && slot < c.maxActive;
    AdmitInStep(entries, free, freeCache, h, c, slot, reused);
    assert Legal(View(h, table), Cap(refs, m, c), Adopt(slot, source, tokens, granted));
    TraceAdopt(trace, h, table, Cap(refs, m, c), Slots(c), slot, source, tokens, granted);
  }

  lemma CacheFollows(trace: seq<Step>, h: Histories, table: seq<seq<nat>>, refs: seq<nat>, active: seq<Item>,
                     entries: map<int, Entry>,
                     tokenCount: nat, free: seq<nat>, freeCache: seq<nat>, m: Model, c: Config, i: nat, e: Entry)
    requires Balanced(refs, table, active, entries, tokenCount, free, freeCache, c)
    requires Following(trace, h, table, refs, entries, free, freeCache, m, c)
    requires c.blockSize > 0 && freeCache != [] && e.sequence == freeCache[|freeCache| - 1]
    requires i < |active| && !active[i].done && active[i].sequence < |h| && |e.tokens| % c.blockSize == 0
    requires e.tokens <= h[active[i].sequence] && |e.blocks| <= |active[i].blocks|
    requires e.blocks == active[i].blocks[..|e.blocks|] && |e.blocks| == |e.tokens| / c.blockSize
    ensures 0 <= e.sequence < |h| == |table| && c.maxActive <= e.sequence && active[i].sequence != e.sequence
    ensures Following(trace + [Adopt(e.sequence, Some(active[i].sequence), |e.tokens|, [])], h[e.sequence := e.tokens],
                      table[e.sequence := e.blocks], refs, entries[e.sequence := e], free, freeCache[..|freeCache| - 1],
                      m, c)
  {
    PopMember(freeCache);
    var slot, source := e.sequence, active[i].sequence;
    assert slot in freeCache;
    CacheInStep(entries, free, freeCache, h, c, e);
    assert Legal(View(h, table), Cap(refs, m, c), Adopt(slot, Some(source), |e.tokens|, []));
    TraceAdopt(trace, h, table, Cap(refs, m, c), Slots(c), slot, Some(source), |e.tokens|, []);
    assert h[source][..|e.tokens|] == e.tokens;
    assert table[source][..|e.tokens| / c.blockSize] + [] == e.blocks;
  }

  /** A new item starts with what it reuses. */
  lemma StartInStep(active: seq<Item>, it: Item, handles: Handles, h: Histories, m: Model)
    requires ActiveInStep(active, handles, h, m, {}, {}) && it.sequence < |h| && it.sequence !in BusySlots(active)
    requires Sent(it, handles) == [] && it.generated == 0 && it.processed < |it.request.prompt|
             && it.request.maxTokens > 0
    ensures ActiveInStep(active + [it], handles, h[it.sequence := it.request.prompt[..it.processed]], m, {}, {})
  {
    hide Sent;
    var all, h' := active + [it], h[it.sequence := it.request.prompt[..it.processed]];
    forall i | 0 <= i < |active| && !active[i].done ensures h'[active[i].sequence] == h[active[i].sequence]
           && active[i].sequence < |h| {
      assert active[i].sequence in BusySlots(active);
      assert InStep(active[i], handles, h, m, {}, {});
    }
    SameLogs(active, handles, handles, h, h', m, {}, {}, {});
    forall i | 0 <= i < |all| && !all[i].done ensures InStep(all[i], handles, h', m, {}, {}) {
      if i < |active| {
        assert all[i] == active[i];
      }
    }
  }

}

/** The work left in the engine: what every pass of the worker makes less of (src/engine.cpp:611-636). */
module EngineWork {
  import opened Requests
  import opened EngineState
  import opened EngineLaws

  function Minus(a: nat, b: nat): nat {
    if a < b then 0 else a - b
  }

  /** Remaining prompt and output of an active request; one more while it is not known to be cancelled or overdue. */
  ghost function ItemWork(it: Item, lapsed: set<nat>): nat {
    if it.done then 0
    else Minus(|it.request.prompt|, it.processed) + Minus(it.request.maxTokens, it.generated)
         + if it.request.order in lapsed then 0 else 1
  }

  ghost function ActiveWork(active: seq<Item>, lapsed: set<nat>): nat {
    if active == [] then 0
    else ActiveWork(active[..|active| - 1], lapsed) + ItemWork(active[|active| - 1], lapsed)
  }

  /** A queued request counts for more than it will count for when admitted. */
  ghost function QueueWork(queue: seq<Request>): nat {
    if queue == [] then 0
    else QueueWork(queue[..|queue| - 1]) + |queue[|queue| - 1].prompt| + queue[|queue| - 1].maxTokens + 2
  }

  lemma WorkSnoc(active: seq<Item>, it: Item, lapsed: set<nat>)
    ensures ActiveWork(active + [it], lapsed) == ActiveWork(active, lapsed) + ItemWork(it, lapsed)
  {
    assert (active + [it])[..|active|] == active;
  }

  lemma {:induction false} WorkPointwise(active: seq<Item>, active': seq<Item>, lapsed: set<nat>, lapsed': set<nat>)
    requires |active'| == |active|
    requires forall i :: 0 <= i < |active| ==> ItemWork(active'[i], lapsed') <= ItemWork(active[i], lapsed)
    ensures ActiveWork(active', lapsed') <= ActiveWork(active, lapsed)
    ensures (exists i :: 0 <= i < |active| && ItemWork(active'[i], lapsed') < ItemWork(active[i], lapsed)) ==>
              ActiveWork(active', lapsed') < ActiveWork(active, lapsed)
  {
    if active == [] {
    } else {
      var n := |active| - 1;
      WorkPointwise(active[..n], active'[..n], lapsed, lapsed');
      if i :| 0 <= i < |active| && ItemWork(active'[i], lapsed') < ItemWork(active[i], lapsed) {
        if i < n {
          assert ItemWork(active'[..n][i], lapsed') < ItemWork(active[..n][i], lapsed);
        }
      }
    }
  }

  /** An ended item leaves no work. */
  lemma EndWork(active: seq<Item>, i: nat, lapsed: set<nat>)
    requires i < |active|
    ensures ActiveWork(active[i := Ended(active[i])], lapsed) <= ActiveWork(active, lapsed)
  {
    WorkPointwise(active, active[i := Ended(active[i])], lapsed, lapsed);
  }

  /** What is not known to be lapsed counts as if nothing were. */
  lemma {:induction false} NoneLapsed(active: seq<Item>, lapsed: set<nat>)
    requires forall i :: 0 <= i < |active| && !active[i].done ==> active[i].request.order !in lapsed
    ensures ActiveWork(active, {}) <= ActiveWork(active, lapsed)
  {
    WorkPointwise(active, active, lapsed, {});
  }

  lemma {:induction false} LiveWork(active: seq<Item>, lapsed: set<nat>)
    ensures ActiveWork(Live(active), lapsed) == ActiveWork(active, lapsed)
  {
    if active == [] {
    } else {
      var n := |active| - 1;
      LiveWork(active[..n], lapsed);
      WorkSnoc(Live(active[..n]), active[n], lapsed);
    }
  }

  lemma {:induction false} QueueAppend(a: seq<Request>, b: seq<Request>)
    ensures QueueWork(a + b) == QueueWork(a) + QueueWork(b)
  {
    if b == [] {
      assert a + b == a;
    } else {
      var n := |b| - 1;
      QueueAppend(a, b[..n]);
      assert (a + b)[..|a + b| - 1] == a + b[..n];
    }
  }

  lemma QueueWithout(q: seq<Request>, i: nat)
    requires i < |q|
    ensures QueueWork(q) == QueueWork(q[..i] + q[i + 1..]) + |q[i].prompt| + q[i].maxTokens + 2
  {
    assert q == q[..i] + ([q[i]] + q[i + 1..]);
    QueueAppend(q[..i], [q[i]] + q[i + 1..]);
    QueueAppend([q[i]], q[i + 1..]);
    QueueAppend(q[..i], q[i + 1..]);
    QueueOne(q[i]);
  }

  lemma QueueOne(r: Request)
    ensures QueueWork([r]) == |r.prompt| + r.maxTokens + 2
  {
    assert [r][..0] == [];
  }

  /** Rearranging a queue leaves its work. */
  lemma {:induction false} QueuePermuted(a: seq<Request>, b: seq<Request>)
    requires multiset(a) == multiset(b)
    ensures QueueWork(a) == QueueWork(b)
    decreases |a|
  {
    assert |multiset(a)| == |a| && |multiset(b)| == |b|;
    if a == [] {
    } else {
      var n := |a| - 1;
      assert a[n] in multiset(a);
      var i :| 0 <= i < |b| && b[i] == a[n];
      Removed(a, n);
      Removed(b, i);
      assert a[..n] + a[n + 1..] == a[..n];
      QueuePermuted(a[..n], b[..i] + b[i + 1..]);
      QueueWithout(b, i);
    }
  }

  lemma Removed<T>(b: seq<T>, i: nat)
    requires i < |b|
    ensures multiset(b[..i] + b[i + 1..]) == multiset(b) - multiset{b[i]}
  {
    assert b == b[..i] + [b[i]] + b[i + 1..];
  }
}

/** Which waiting requests a pass admits (src/engine.cpp:339-355): in the order of the queue, each one that fits, but
    none past a request that does not fit and has waited too long. */
module EngineAdmission {
  import opened Arithmetic
  import opened Requests
  import opened EngineState

  /** The elements whose flag is `mark`, in order. */
  ghost function Marked<T>(items: seq<T>, flags: seq<bool>, mark: bool): seq<T>
    requires |items| == |flags|
  {
    if items == [] then []
    else
      var n := |items| - 1;
      Marked(items[..n], flags[..n], mark) + if flags[n] == mark then [items[n]] else []
  }

  ghost function RequestsOf(active: seq<Item>): (r: seq<Request>)
    ensures |r| == |active|
  {
    seq(|active|, i requires 0 <= i < |active| => active[i].request)
  }

  /** The blocks a request reserves are more than are free. */
  ghost predicate TooLarge(r: Request, free: nat, c: Config)
    requires c.blockSize > 0
  {
    CeilDiv(|r.prompt| + r.maxTokens, c.blockSize) > free
  }

  /** The outcome of a pass over a queue: who was admitted, in this order; nobody passed a request that had waited too
      long; and whoever still waits is too large for what is free, or no slot is left, or such a request is in front. */
  ghost predicate Admitted(queue: seq<Request>, ages: seq<int>, admitted: seq<bool>, waiting: seq<Request>,
                           before: seq<Item>, active: seq<Item>, free: nat, slots: nat, c: Config)
    requires c.blockSize > 0
  {
    && |admitted| == |queue| == |ages|
    && waiting == Marked(queue, admitted, false)
    && before <= active && RequestsOf(active) == RequestsOf(before) + Marked(queue, admitted, true)
    && (forall i, j :: 0 <= i < j < |queue| && !admitted[i] && admitted[j] ==> ages[i] < c.admissionReserveMs)
    && forall j :: 0 <= j < |queue| && !admitted[j] ==> HeldBack(queue, ages, admitted, j, free, slots, c)
  }

  ghost predicate HeldBack(queue: seq<Request>, ages: seq<int>, admitted: seq<bool>, j: nat, free: nat, slots: nat,
                           c: Config)
    requires c.blockSize > 0 && |admitted| == |queue| == |ages| && j < |queue|
  {
    || slots == 0
    || TooLarge(queue[j], free, c)
    || exists i :: 0 <= i < j && !admitted[i] && ages[i] >= c.admissionReserveMs && TooLarge(queue[i], free, c)
  }

  /** On the way: the first requests of the queue have been admitted or passed over, and the cache is empty by now if
      any was passed over. */
  ghost predicate Choosing(queue: seq<Request>, ages0: seq<int>, flags: seq<bool>, waiting: seq<Request>,
                           ages: seq<int>,
                           before: seq<Item>, active: seq<Item>, free: nat, cached: nat, c: Config)
    requires c.blockSize > 0
  {
    var n := |flags|;
    && n <= |queue| == |ages0|
    && waiting == Marked(queue[..n], flags, false) + queue[n..]
    && ages == Marked(ages0[..n], flags, false) + ages0[n..]
    && before <= active && RequestsOf(active) == RequestsOf(before) + Marked(queue[..n], flags, true)
    && (forall j :: 0 <= j < n && !flags[j] ==> ages0[j] < c.admissionReserveMs && TooLarge(queue[j], free, c))
    && (false in flags ==> cached == 0)
  }

  lemma MarkedSnoc<T>(items: seq<T>, flags: seq<bool>, n: nat, flag: bool, mark: bool)
    requires n == |flags| < |items|
    ensures Marked(items[..n + 1], flags + [flag], mark) == Marked(items[..n], flags, mark) + if flag
              == mark then [items[n]] else []
  {
    assert items[..n + 1][..n] == items[..n] && (flags + [flag])[..n] == flags;
  }

  /** Everything from a point on left unmarked. */
  lemma {:induction false} MarkedRest<T>(items: seq<T>, flags: seq<bool>, k: nat)
    requires |flags| + k <= |items|
    ensures var all := flags + seq(k, _ => false);
            var n := |flags|;
      && Marked(items[..n + k], all, false) == Marked(items[..n], flags, false) + items[n..n + k]
      && Marked(items[..n + k], all, true) == Marked(items[..n], flags, true)
  {
    hide Marked;
    if k > 0 {
      MarkedRest(items, flags, k - 1);
      var all := flags + seq(k - 1, _ => false);
      var m := |all|;
      assert flags + seq(k, _ => false) == all + [false];
      MarkedSnoc(items, all, m, false, false);
      MarkedSnoc(items, all, m, false, true);
      assert items[|flags|..m + 1] == items[|flags|..m] + [items[m]];
    } else {
      assert flags + seq(k, _ => false) == flags;
    }
  }

  lemma {:induction false} MarkedLength<T, U>(a: seq<T>, b: seq<U>, flags: seq<bool>, mark: bool)
    requires |a| == |b| == |flags|
    ensures |Marked(a, flags, mark)| == |Marked(b, flags, mark)|
  {
    if a == [] {
    } else {
      var n := |a| - 1;
      MarkedLength(a[..n], b[..n], flags[..n], mark);
    }
  }

  lemma Middle<T>(a: seq<T>, b: seq<T>)
    requires b != []
    ensures (a + b)[..|a|] == a && (a + b)[|a|] == b[0] && (a + b)[|a| + 1..] == b[1..]
  {
  }

  /** The next request to look at. */
  lemma NextChoice(queue: seq<Request>, ages0: seq<int>, flags: seq<bool>, waiting: seq<Request>, ages: seq<int>,
                   before: seq<Item>, active: seq<Item>, free: nat, cached: nat, c: Config, i: nat)
    requires c.blockSize > 0 && Choosing(queue, ages0, flags, waiting, ages, before, active, free, cached, c)
    requires |flags| < |queue| && i + (|queue| - |flags|) == |waiting|
    ensures |ages| == |waiting| && i < |waiting| && waiting[i] == queue[|flags|] && ages[i] == ages0[|flags|]
    ensures waiting[..i] == Marked(queue[..|flags|], flags, false) && waiting[i + 1..] == queue[|flags| + 1..]
    ensures ages[..i] == Marked(ages0[..|flags|], flags, false) && ages[i + 1..] == ages0[|flags| + 1..]
  {
    hide Marked, RequestsOf, TooLarge;
    var n := |flags|;
    MarkedLength(queue[..n], ages0[..n], flags, false);
    Middle(Marked(queue[..n], flags, false), queue[n..]);
    Middle(Marked(ages0[..n], flags, false), ages0[n..]);
  }

  lemma ChooseOne(queue: seq<Request>, ages0: seq<int>, flags: seq<bool>, waiting: seq<Request>, ages: seq<int>,
                  before: seq<Item>, active: seq<Item>, free: nat, cached: nat, c: Config, i: nat,
                  now: seq<Item>, free': nat, cached': nat)
    requires c.blockSize > 0 && Choosing(queue, ages0, flags, waiting, ages, before, active, free, cached, c)
    requires |flags| < |queue| && i + (|queue| - |flags|) == |waiting| && i < |waiting| && i < |ages|
    requires |now| == |active| + 1 && now[..|active|] == active && now[|active|].request == waiting[i]
    requires cached == 0 ==> cached' == 0 && free' <= free
    ensures Choosing(queue, ages0, flags + [true], waiting[..i] + waiting[i + 1..], ages[..i] + ages[i + 1..], before,
                     now, free', cached', c)
  {
    hide Marked;
    NextChoice(queue, ages0, flags, waiting, ages, before, active, free, cached, c, i);
    var n := |flags|;
    MarkedSnoc(queue, flags, n, true, false);
    MarkedSnoc(queue, flags, n, true, true);
    MarkedSnoc(ages0, flags, n, true, false);
    assert RequestsOf(now) == RequestsOf(active) + [queue[n]];
    assert forall j :: 0 <= j < n && !flags[j] ==> flags[j] in flags;
  }

  lemma Regroup<T>(done: seq<T>, items: seq<T>, n: nat)
    requires n < |items|
    ensures done + [items[n]] + items[n + 1..] == done + items[n..]
  {
  }

  lemma StillTooLarge(queue: seq<Request>, flags: seq<bool>, free: nat, free': nat, c: Config)
    requires c.blockSize > 0 && |flags| <= |queue|
    ensures free' <= free ==> forall j :: 0 <= j < |flags| && TooLarge(queue[j], free, c) ==>
                                TooLarge(queue[j], free', c)
  {
  }

  lemma PassOver(queue: seq<Request>, ages0: seq<int>, flags: seq<bool>, waiting: seq<Request>, ages: seq<int>,
                 before: seq<Item>, active: seq<Item>, free: nat, cached: nat, c: Config, i: nat, free': nat)
    requires c.blockSize > 0 && Choosing(queue, ages0, flags, waiting, ages, before, active, free, cached, c)
    requires |flags| < |queue| && i + (|queue| - |flags|) == |waiting| && i < |waiting| && i < |ages|
    requires cached == 0 ==> free' <= free
    requires ages[i] < c.admissionReserveMs && TooLarge(waiting[i], free', c)
    ensures Choosing(queue, ages0, flags + [false], waiting, ages, before, active, free', 0, c)
  {
    hide Marked, RequestsOf, TooLarge;
    NextChoice(queue, ages0, flags, waiting, ages, before, active, free, cached, c, i);
    var n := |flags|;
    MarkedSnoc(queue, flags, n, false, false);
    MarkedSnoc(queue, flags, n, false, true);
    MarkedSnoc(ages0, flags, n, false, false);
    StillTooLarge(queue, flags, free, free', c);
    Regroup(Marked(queue[..n], flags, false), queue, n);
    Regroup(Marked(ages0[..n], flags, false), ages0, n);
    assert forall j :: 0 <= j < n && !flags[j] ==> flags[j] in flags;
  }

  /** A request that does not fit and may not be passed: the free blocks may have changed while room was sought for
      it. */
  lemma StillChoosing(queue: seq<Request>, ages0: seq<int>, flags: seq<bool>, waiting: seq<Request>, ages: seq<int>,
                      before: seq<Item>, active: seq<Item>, free: nat, cached: nat, c: Config, free': nat)
    requires c.blockSize > 0 && Choosing(queue, ages0, flags, waiting, ages, before, active, free, cached, c)
    requires cached == 0 ==> free' <= free
    ensures Choosing(queue, ages0, flags, waiting, ages, before, active, free', 0, c)
  {
    assert forall j :: 0 <= j < |flags| && !flags[j] ==> flags[j] in flags;
  }

  /** The pass is over: at the end of the queue, without a slot, or at a request that others may not pass. */
  lemma ChoiceDone(queue: seq<Request>, ages0: seq<int>, flags: seq<bool>, waiting: seq<Request>, ages: seq<int>,
                   before: seq<Item>, active: seq<Item>, free: nat, cached: nat, slots: nat, c: Config, i: nat)
    requires c.blockSize > 0 && Choosing(queue, ages0, flags, waiting, ages, before, active, free, cached, c)
    requires i + (|queue| - |flags|) == |waiting|
    requires slots == 0 || |flags| == |queue|
             || (i < |waiting| && i < |ages| && ages[i] >= c.admissionReserveMs && TooLarge(waiting[i], free, c))
    ensures Admitted(queue, ages0, flags + seq(|queue| - |flags|, _ => false), waiting, before, active, free, slots, c)
  {
    hide Marked, RequestsOf, TooLarge, HeldBack;
    var n := |flags|;
    var all := flags + seq(|queue| - n, _ => false);
    MarkedRest(queue, flags, |queue| - n);
    assert queue[..|queue|] == queue && queue[n..|queue|] == queue[n..] && n + (|queue| - n) == |queue|;
    if n < |queue| {
      NextChoice(queue, ages0, flags, waiting, ages, before, active, free, cached, c, i);
    }
    AllHeldBack(queue, ages0, flags, all, free, slots, c);
  }

  lemma AllHeldBack(queue: seq<Request>, ages0: seq<int>, flags: seq<bool>, all: seq<bool>, free: nat, slots: nat,
                    c: Config)
    requires c.blockSize > 0 && |flags| <= |queue| == |ages0| && all == flags + seq(|queue| - |flags|, _ => false)
    requires forall j :: 0 <= j < |flags| && !flags[j] ==> TooLarge(queue[j], free, c)
    requires slots == 0 || |flags| == |queue|
             || (ages0[|flags|] >= c.admissionReserveMs && TooLarge(queue[|flags|], free, c))
    ensures forall j :: 0 <= j < |queue| && !all[j] ==> HeldBack(queue, ages0, all, j, free, slots, c)
  {
    hide TooLarge;
    forall j | 0 <= j < |queue| && !all[j] ensures HeldBack(queue, ages0, all, j, free, slots, c) {
      if slots != 0 && j >= |flags| {
        assert !all[|flags|] && TooLarge(queue[|flags|], free, c);
      }
    }
  }

  lemma StartChoice(queue: seq<Request>, ages: seq<int>, active: seq<Item>, free: nat, cached: nat, c: Config)
    requires c.blockSize > 0 && |ages| == |queue|
    ensures Choosing(queue, ages, [], queue, ages, active, active, free, cached, c)
  {
    assert queue[0..] == queue && ages[0..] == ages;
  }
}

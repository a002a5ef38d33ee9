/** One batch of work out of the active requests (src/scheduler.cpp). */
module Scheduling {
  import opened Arithmetic
  import opened RefCounts

  datatype Policy = Mixed | PrefillFirst

  datatype ScheduleItem = ScheduleItem(key: nat, prefillRemaining: nat, priority: int, waitMs: int, order: nat)

  datatype Slice = Slice(key: nat, tokens: nat, prefill: bool)

  datatype BatchPlan = BatchPlan(slices: seq<Slice>, prefillTokens: nat, decodeTokens: nat)

  datatype Limits = Limits(batchTokens: nat, prefillChunk: nat, agingMs: nat, policy: Policy)

  function EffectivePriority(priority: int, waitMs: int, agingMs: nat): int
    requires agingMs > 0
  {
    priority + (if waitMs > 0 then waitMs else 0) / agingMs
  }

  /** Higher aged priority first, then submission order. */
  predicate Before(left: ScheduleItem, right: ScheduleItem, agingMs: nat)
    requires agingMs > 0
  {
    var lp, rp := EffectivePriority(left.priority, left.waitMs, agingMs),
                  EffectivePriority(right.priority, right.waitMs, agingMs);
    if lp != rp then lp > rp else left.order < right.order
  }

  /** The order in numbers: priority plus the whole aging intervals waited decides, then submission. */
  lemma BeforeMeans(left: ScheduleItem, right: ScheduleItem, agingMs: nat)
    requires agingMs > 0
    ensures var l := left.priority + if left.waitMs >= agingMs then left.waitMs / agingMs else 0;
            var r := right.priority + if right.waitMs >= agingMs then right.waitMs / agingMs else 0;
      Before(left, right, agingMs) <==> l > r || (l == r && left.order < right.order)
  {
    hide EffectivePriority;
    AgedMeans(left.priority, left.waitMs, agingMs);
    AgedMeans(right.priority, right.waitMs, agingMs);
  }

  lemma AgedMeans(priority: int, waitMs: int, agingMs: nat)
    requires agingMs > 0
    ensures EffectivePriority(priority, waitMs, agingMs) == priority + if waitMs >= agingMs then waitMs / agingMs else 0
  {
    if 0 <= waitMs < agingMs {
      DivUnique(waitMs, agingMs, 0, waitMs);
    }
  }

  // ---- the stable sort ----------------------------------------------------------

  function Placed(x: ScheduleItem, sorted: seq<ScheduleItem>, agingMs: nat): seq<ScheduleItem>
    requires agingMs > 0
  {
    if sorted == [] || !Before(sorted[0], x, agingMs) then [x] + sorted
    else [sorted[0]] + Placed(x, sorted[1..], agingMs)
  }

  /** Stable: an item goes in front of the later ones it ties with. */
  function StableSorted(items: seq<ScheduleItem>, agingMs: nat): seq<ScheduleItem>
    requires agingMs > 0
  {
    if items == [] then [] else Placed(items[0], StableSorted(items[1..], agingMs), agingMs)
  }

  ghost predicate InOrder(items: seq<ScheduleItem>, agingMs: nat)
    requires agingMs > 0
  {
    forall i, j :: 0 <= i < j < |items| ==> !Before(items[j], items[i], agingMs)
  }

  lemma {:induction false} PlacedKeeps(x: ScheduleItem, sorted: seq<ScheduleItem>, agingMs: nat)
    requires agingMs > 0 && InOrder(sorted, agingMs)
    ensures InOrder(Placed(x, sorted, agingMs), agingMs)
    ensures multiset(Placed(x, sorted, agingMs)) == multiset{x} + multiset(sorted)
    ensures |Placed(x, sorted, agingMs)| == |sorted| + 1
  {
    hide EffectivePriority;
    var r := Placed(x, sorted, agingMs);
    if sorted == [] || !Before(sorted[0], x, agingMs) {
      forall i, j | 0 <= i < j < |r| ensures !Before(r[j], r[i], agingMs) {
        if i == 0 && j > 1 {
          assert !Before(sorted[j - 1], sorted[0], agingMs);
        }
      }
    } else {
      var rest := Placed(x, sorted[1..], agingMs);
      PlacedKeeps(x, sorted[1..], agingMs);
      assert sorted == [sorted[0]] + sorted[1..];
      forall j | 0 <= j < |rest| ensures !Before(rest[j], sorted[0], agingMs) {
        assert rest[j] in multiset(rest);
        if rest[j] != x {
          assert rest[j] in sorted[1..];
        }
      }
    }
  }

  lemma {:induction false} SortKeeps(items: seq<ScheduleItem>, agingMs: nat)
    requires agingMs > 0
    ensures InOrder(StableSorted(items, agingMs), agingMs)
    ensures multiset(StableSorted(items, agingMs)) == multiset(items)
    ensures |StableSorted(items, agingMs)| == |items|
  {
    hide Before, Placed;
    if items == [] {
    } else {
      SortKeeps(items[1..], agingMs);
      PlacedKeeps(items[0], StableSorted(items[1..], agingMs), agingMs);
      assert items == [items[0]] + items[1..];
    }
  }

  /** Sorted queues in numbers: nobody comes after somebody of a lower aged priority, or of the same one submitted
      later. */
  lemma SortIsByAge(items: seq<ScheduleItem>, agingMs: nat)
    requires agingMs > 0
    ensures var sorted := StableSorted(items, agingMs);
      && |sorted| == |items|
      && forall i, j :: 0 <= i < j < |sorted| ==>
           var p := sorted[i].priority + if sorted[i].waitMs >= agingMs then sorted[i].waitMs / agingMs else 0;
           var q := sorted[j].priority + if sorted[j].waitMs >= agingMs then sorted[j].waitMs / agingMs else 0;
           p > q || (p == q && sorted[i].order <= sorted[j].order)
  {
    hide StableSorted, Before;
    SortKeeps(items, agingMs);
    var sorted := StableSorted(items, agingMs);
    forall i, j | 0 <= i < j < |sorted|
      ensures var p := sorted[i].priority + if sorted[i].waitMs >= agingMs then sorted[i].waitMs / agingMs else 0;
              var q := sorted[j].priority + if sorted[j].waitMs >= agingMs then sorted[j].waitMs / agingMs else 0;
              p > q || (p == q && sorted[i].order <= sorted[j].order)
    {
      assert !Before(sorted[j], sorted[i], agingMs);
      BeforeMeans(sorted[j], sorted[i], agingMs);
    }
  }

  // ---- the plan -----------------------------------------------------------------

  /** The items of one kind, in their given order. */
  function OfKind(items: seq<ScheduleItem>, prefill: bool): seq<ScheduleItem> {
    if items == [] then []
    else
      var rest := OfKind(items[..|items| - 1], prefill);
      var last := items[|items| - 1];
      if (last.prefillRemaining > 0) == prefill then rest + [last] else rest
  }

  function Queue(items: seq<ScheduleItem>, prefill: bool, agingMs: nat): seq<ScheduleItem>
    requires agingMs > 0
  {
    StableSorted(OfKind(items, prefill), agingMs)
  }

  function Min(a: nat, b: nat): nat {
    if a < b then a else b
  }

  function DecodeServed(items: seq<ScheduleItem>, c: Limits): nat
    requires c.agingMs > 0
  {
    if c.policy == Mixed || Queue(items, true, c.agingMs) == []
    then Min(|Queue(items, false, c.agingMs)|, c.batchTokens) else 0
  }

  function DecodeSlices(decode: seq<ScheduleItem>, n: nat): (r: seq<Slice>)
    requires n <= |decode|
    ensures |r| == n
  {
    seq(n, i requires 0 <= i < n => Slice(decode[i].key, 1, false))
  }

  function PrefillSlices(prefill: seq<ScheduleItem>, remaining: nat, chunk: nat): seq<Slice> {
    if prefill == [] then []
    else
      var count := Min(remaining, Min(prefill[0].prefillRemaining, chunk));
      if count == 0 then []
      else [Slice(prefill[0].key, count, true)] + PrefillSlices(prefill[1..], remaining - count, chunk)
  }

  ghost function TokensOf(slices: seq<Slice>): nat {
    if slices == [] then 0 else slices[0].tokens + TokensOf(slices[1..])
  }

  /** The plan: decode slices first where the policy serves them, then prefill by priority while budget is left. */
  ghost function Plan(items: seq<ScheduleItem>, c: Limits): BatchPlan
    requires c.agingMs > 0
  {
    var decode := DecodeServed(items, c);
    var prefill := PrefillSlices(Queue(items, true, c.agingMs), c.batchTokens - decode, c.prefillChunk);
    BatchPlan(DecodeSlices(Queue(items, false, c.agingMs), decode) + prefill, TokensOf(prefill), decode)
  }

  method Schedule(items: seq<ScheduleItem>, c: Limits) returns (plan: BatchPlan)
    requires c.agingMs > 0
    ensures plan == Plan(items, c)
  {
    var prefill: seq<ScheduleItem> := [];
    var decode: seq<ScheduleItem> := [];
    assert items[..0] == [];
    for i := 0 to |items|
      invariant prefill == OfKind(items[..i], true) && decode == OfKind(items[..i], false)
    {
      assert items[..i + 1][..i] == items[..i];
      if items[i].prefillRemaining > 0 {
        prefill := prefill + [items[i]];
      } else {
        decode := decode + [items[i]];
      }
    }
    assert items[..|items|] == items;
    prefill := StableSorted(prefill, c.agingMs);
    decode := StableSorted(decode, c.agingMs);
    var slices: seq<Slice> := [];
    var remaining := c.batchTokens;
    if c.policy == Mixed || prefill == [] {
      slices, remaining := AddDecode(decode, c.batchTokens);
    }
    assert slices == DecodeSlices(decode, |slices|);
    var more, tokens := AddPrefill(prefill, remaining, c.prefillChunk);
    plan := BatchPlan(slices + more, tokens, |slices|);
  }

  method AddDecode(decode: seq<ScheduleItem>, budget: nat) returns (slices: seq<Slice>, remaining: nat)
    ensures |slices| == Min(|decode|, budget) && remaining == budget - |slices|
    ensures slices == DecodeSlices(decode, |slices|)
  {
    slices, remaining := [], budget;
    for i := 0 to |decode|
      invariant |slices| == i && remaining == budget - i && i <= budget
      invariant slices == DecodeSlices(decode, i)
    {
      if remaining == 0 {
        break;
      }
      slices := slices + [Slice(decode[i].key, 1, false)];
      remaining := remaining - 1;
    }
  }

  method AddPrefill(prefill: seq<ScheduleItem>, budget: nat, chunk: nat) returns (slices: seq<Slice>, tokens: nat)
    ensures slices == PrefillSlices(prefill, budget, chunk)
    ensures tokens == TokensOf(slices)
  {
    slices, tokens := [], 0;
    var remaining := budget;
    var i := 0;
    while i < |prefill|
      invariant 0 <= i <= |prefill|
      invariant slices + PrefillSlices(prefill[i..], remaining, chunk) == PrefillSlices(prefill, budget, chunk)
      invariant tokens + TokensOf(PrefillSlices(prefill[i..], remaining, chunk))
                  == TokensOf(PrefillSlices(prefill, budget, chunk))
    {
      var count := Min(remaining, Min(prefill[i].prefillRemaining, chunk));
      if count == 0 {
        break;
      }
      assert prefill[i..][1..] == prefill[i + 1..];
      slices := slices + [Slice(prefill[i].key, count, true)];
      tokens := tokens + count;
      remaining := remaining - count;
      i := i + 1;
    }
  }

  // ---- what the plan guarantees ---------------------------------------------------

  ghost predicate AllKind(items: seq<ScheduleItem>, prefill: bool) {
    forall i :: 0 <= i < |items| ==> (items[i].prefillRemaining > 0) == prefill
  }

  /** Prefill service: a prefix of the queue, each in full up to the chunk except possibly the last one served, and it
      only ends before the end of the queue, or short of a chunk, with the budget spent. */
  ghost predicate GreedyPrefill(prefill: seq<ScheduleItem>, r: seq<Slice>, budget: nat, chunk: nat) {
    && |r| <= |prefill|
    && (forall i :: 0 <= i < |r| ==> ServedSlice(prefill[i], r[i], chunk))
    && (forall i :: 0 <= i < |r| - 1 ==> r[i].tokens == Min(prefill[i].prefillRemaining, chunk))
    && TokensOf(r) <= budget
    && (|r| < |prefill| ==> TokensOf(r) == budget)
    && (|r| > 0 && r[|r| - 1].tokens < Min(prefill[|r| - 1].prefillRemaining, chunk) ==> TokensOf(r) == budget)
  }

  ghost predicate ServedSlice(item: ScheduleItem, s: Slice, chunk: nat) {
    s.prefill && s.key == item.key && 0 < s.tokens <= Min(item.prefillRemaining, chunk)
  }

  lemma GreedyStep(prefill: seq<ScheduleItem>, rest: seq<Slice>, budget: nat, chunk: nat, count: nat)
    requires chunk > 0 && AllKind(prefill, true) && prefill != []
    requires count == Min(budget, Min(prefill[0].prefillRemaining, chunk)) && count > 0
    requires GreedyPrefill(prefill[1..], rest, budget - count, chunk)
    requires rest != [] ==> TokensOf(rest) > 0
    ensures GreedyPrefill(prefill, [Slice(prefill[0].key, count, true)] + rest, budget, chunk)
  {
    hide AllKind;
    var r := [Slice(prefill[0].key, count, true)] + rest;
    assert prefill[0].prefillRemaining >= count;
    assert r[1..] == rest;
    forall i | 0 <= i < |r|
      ensures ServedSlice(prefill[i], r[i], chunk)
      ensures i < |r| - 1 ==> r[i].tokens == Min(prefill[i].prefillRemaining, chunk)
    {
      if i > 0 {
        assert r[i] == rest[i - 1] && prefill[i] == prefill[1..][i - 1];
        assert ServedSlice(prefill[1..][i - 1], rest[i - 1], chunk);
      }
    }
  }

  lemma {:induction false} PrefillGreedy(prefill: seq<ScheduleItem>, budget: nat, chunk: nat)
    requires chunk > 0 && AllKind(prefill, true)
    ensures GreedyPrefill(prefill, PrefillSlices(prefill, budget, chunk), budget, chunk)
    ensures PrefillSlices(prefill, budget, chunk) != [] ==> TokensOf(PrefillSlices(prefill, budget, chunk)) > 0
  {
    if prefill == [] {
    } else {
      var count := Min(budget, Min(prefill[0].prefillRemaining, chunk));
      if count > 0 {
        PrefillGreedy(prefill[1..], budget - count, chunk);
        GreedyStep(prefill, PrefillSlices(prefill[1..], budget - count, chunk), budget, chunk, count);
      }
    }
  }

  lemma {:induction false} KindMembers(items: seq<ScheduleItem>, prefill: bool)
    ensures AllKind(OfKind(items, prefill), prefill)
    ensures multiset(OfKind(items, prefill)) <= multiset(items)
  {
    if items == [] {
    } else {
      KindMembers(items[..|items| - 1], prefill);
      assert items == items[..|items| - 1] + [items[|items| - 1]];
    }
  }

  lemma {:induction false} KindsCount(items: seq<ScheduleItem>)
    ensures |OfKind(items, true)| + |OfKind(items, false)| == |items|
  {
    if items == [] {
    } else {
      KindsCount(items[..|items| - 1]);
    }
  }

  /** A queue holds items of its kind only, each no more often than the input does, in priority order. */
  lemma QueueMembers(items: seq<ScheduleItem>, prefill: bool, agingMs: nat)
    requires agingMs > 0
    ensures var q := Queue(items, prefill, agingMs);
      && AllKind(q, prefill) && InOrder(q, agingMs) && |q| == |OfKind(items, prefill)|
      && multiset(q) <= multiset(items)
  {
    var kind := OfKind(items, prefill);
    var q := Queue(items, prefill, agingMs);
    KindMembers(items, prefill);
    SortKeeps(kind, agingMs);
    forall i | 0 <= i < |q| ensures (q[i].prefillRemaining > 0) == prefill {
      assert q[i] in multiset(q);
      assert q[i] in kind;
    }
  }

  lemma SplitSlices(a: seq<Slice>, b: seq<Slice>)
    ensures (a + b)[..|a|] == a && (a + b)[|a|..] == b
  {
  }

  lemma PlanParts(items: seq<ScheduleItem>, c: Limits)
    requires c.agingMs > 0
    ensures var d := DecodeServed(items, c);
            var plan := Plan(items, c);
      && d <= |Queue(items, false, c.agingMs)| && d <= c.batchTokens && d <= |plan.slices| && d == plan.decodeTokens
      && plan.slices[..d] == DecodeSlices(Queue(items, false, c.agingMs), d)
      && plan.slices[d..] == PrefillSlices(Queue(items, true, c.agingMs), c.batchTokens - d, c.prefillChunk)
      && plan.prefillTokens == TokensOf(plan.slices[d..])
      && (c.policy == Mixed && d < |Queue(items, false, c.agingMs)| ==> d == c.batchTokens)
  {
    hide Queue, PrefillSlices;
    var d := DecodeServed(items, c);
    SplitSlices(DecodeSlices(Queue(items, false, c.agingMs), d),
                PrefillSlices(Queue(items, true, c.agingMs), c.batchTokens - d, c.prefillChunk));
  }

  lemma PrefillStarts(prefill: seq<ScheduleItem>, budget: nat, chunk: nat)
    requires chunk > 0 && AllKind(prefill, true) && prefill != [] && budget > 0
    ensures PrefillSlices(prefill, budget, chunk) != []
  {
  }

  lemma SomethingServed(items: seq<ScheduleItem>, c: Limits)
    requires c.agingMs > 0 && c.prefillChunk > 0 && c.batchTokens > 0 && items != []
    ensures Plan(items, c).slices != []
  {
    hide Queue, Plan, PrefillSlices, InOrder, OfKind, AllKind, TokensOf;
    PlanParts(items, c);
    QueueMembers(items, true, c.agingMs);
    QueueMembers(items, false, c.agingMs);
    KindsCount(items);
    var d := DecodeServed(items, c);
    if d == 0 {
      PrefillStarts(Queue(items, true, c.agingMs), c.batchTokens - d, c.prefillChunk);
    }
  }

  /** The budget and the order of service: decode takes one token each from the front of its queue, prefill the rest
      greedily; nothing is left over while anything of a served kind waits; and a nonempty input gets a nonempty
      plan. */
  lemma PlanIsGreedy(items: seq<ScheduleItem>, c: Limits)
    requires c.agingMs > 0 && c.prefillChunk > 0 && c.batchTokens > 0
    ensures var plan := Plan(items, c);
            var decode, prefill := Queue(items, false, c.agingMs), Queue(items, true, c.agingMs);
            var d := DecodeServed(items, c);
      && d == plan.decodeTokens <= |decode| && d <= c.batchTokens && d <= |plan.slices|
      && plan.slices[..d] == DecodeSlices(decode, d)
      && GreedyPrefill(prefill, plan.slices[d..], c.batchTokens - d, c.prefillChunk)
      && plan.prefillTokens == TokensOf(plan.slices[d..])
      && (c.policy == Mixed && d < |decode| ==> d == c.batchTokens)
      && (items != [] ==> plan.slices != [])
  {
    hide Plan, Queue, DecodeServed, DecodeSlices, PrefillSlices, GreedyPrefill, AllKind, InOrder, OfKind, TokensOf;
    PlanParts(items, c);
    QueueMembers(items, true, c.agingMs);
    if items != [] {
      SomethingServed(items, c);
    }
    PrefillGreedy(Queue(items, true, c.agingMs), c.batchTokens - DecodeServed(items, c), c.prefillChunk);
  }

  /** With room for one token per request, the mixed policy serves every decoding request in each pass, and the most
      urgent pending prefill advances too. */
  lemma MixedServesAll(items: seq<ScheduleItem>, c: Limits)
    requires c.agingMs > 0 && c.prefillChunk > 0 && c.policy == Mixed && |items| <= c.batchTokens && items != []
    ensures DecodeServed(items, c) == |Queue(items, false, c.agingMs)|
    ensures Queue(items, true, c.agingMs) != [] ==> |Plan(items, c).slices| > DecodeServed(items, c)
  {
    hide Queue, Plan, InOrder, OfKind, AllKind;
    QueueMembers(items, true, c.agingMs);
    QueueMembers(items, false, c.agingMs);
    KindsCount(items);
    PlanIsGreedy(items, c);
    assert |Plan(items, c).slices[DecodeServed(items, c)..]| == |Plan(items, c).slices| - DecodeServed(items, c);
  }

  /** The same in terms of the items: whoever decodes gets its token, and so does the front of the prefill queue. */
  lemma MixedServesItems(items: seq<ScheduleItem>, c: Limits)
    requires c.agingMs > 0 && c.prefillChunk > 0 && c.policy == Mixed && |items| <= c.batchTokens && items != []
    ensures forall i :: 0 <= i < |items| && items[i].prefillRemaining == 0 ==>
              Slice(items[i].key, 1, false) in Plan(items, c).slices
    ensures var prefill := Queue(items, true, c.agingMs);
      prefill != [] ==> exists s :: s in Plan(items, c).slices && ServedSlice(prefill[0], s, c.prefillChunk)
  {
    MixedServesAll(items, c);
    PlanIsGreedy(items, c);
    hide Plan, InOrder, Queue, DecodeServed;
    var d := DecodeServed(items, c);
    var slices, decode, prefill := Plan(items, c).slices, Queue(items, false, c.agingMs), Queue(items, true, c.agingMs);
    forall i | 0 <= i < |items| && items[i].prefillRemaining == 0 ensures Slice(items[i].key, 1, false) in slices {
      var k := Queued(items, i, c.agingMs);
      assert slices[..d][k] == Slice(items[i].key, 1, false);
    }
    if prefill != [] {
      assert ServedSlice(prefill[0], slices[d..][0], c.prefillChunk);
      assert slices[d..][0] == slices[d];
    }
  }

  /** Under the other policy, prompts come first: while one is to be fed, nobody decodes; otherwise as many decode as
      there are tokens. */
  lemma PromptsFirst(items: seq<ScheduleItem>, c: Limits)
    requires c.agingMs > 0 && c.prefillChunk > 0 && c.batchTokens > 0 && c.policy == PrefillFirst
    ensures var slices := Plan(items, c).slices;
      if exists i :: 0 <= i < |items| && items[i].prefillRemaining > 0
      then slices != [] && forall s :: s in slices ==> s.prefill
      else |slices| == (if |items| < c.batchTokens then |items| else c.batchTokens)
           && forall s :: s in slices ==> !s.prefill && s.tokens == 1
  {
    hide Plan, InOrder, Queue, OfKind, AllKind;
    PlanIsGreedy(items, c);
    var d := DecodeServed(items, c);
    var slices, prefill := Plan(items, c).slices, Queue(items, true, c.agingMs);
    if i :| 0 <= i < |items| && items[i].prefillRemaining > 0 {
      var k := Queued(items, i, c.agingMs);
      assert d == 0 && slices[0..] == slices;
      forall s | s in slices ensures s.prefill {
        var j :| 0 <= j < |slices| && slices[j] == s;
        assert ServedSlice(prefill[j], slices[j], c.prefillChunk);
      }
    } else {
      NothingToFeed(items, c.agingMs);
      assert slices[d..] == [] && slices[..d] == slices;
    }
  }

  lemma NothingToFeed(items: seq<ScheduleItem>, agingMs: nat)
    requires agingMs > 0 && forall i :: 0 <= i < |items| ==> items[i].prefillRemaining == 0
    ensures Queue(items, true, agingMs) == [] && |Queue(items, false, agingMs)| == |items|
  {
    hide Queue, OfKind, InOrder;
    QueueMembers(items, true, agingMs);
    QueueMembers(items, false, agingMs);
    KindsCount(items);
    var prefill := Queue(items, true, agingMs);
    AmongItems(prefill, items);
    SomethingToFeed(prefill, items);
  }

  lemma SomethingToFeed(prefill: seq<ScheduleItem>, items: seq<ScheduleItem>)
    requires AllKind(prefill, true) && forall i :: 0 <= i < |prefill| ==> prefill[i] in items
    ensures prefill == [] || exists i :: 0 <= i < |items| && items[i].prefillRemaining > 0
  {
    if prefill != [] {
      assert prefill[0] in items;
    }
  }

  lemma AmongItems(q: seq<ScheduleItem>, items: seq<ScheduleItem>)
    requires multiset(q) <= multiset(items)
    ensures forall i :: 0 <= i < |q| ==> q[i] in items
  {
    forall i | 0 <= i < |q| ensures q[i] in items {
      assert q[i] in multiset(q);
      assert q[i] in multiset(items);
    }
  }

  /** Every item is in the queue of its kind. */
  lemma Queued(items: seq<ScheduleItem>, i: nat, agingMs: nat) returns (k: nat)
    requires agingMs > 0 && i < |items|
    ensures var queue := Queue(items, items[i].prefillRemaining > 0, agingMs);
      k < |queue| && queue[k] == items[i]
  {
    var prefill := items[i].prefillRemaining > 0;
    var kind, queue := OfKind(items, prefill), Queue(items, prefill, agingMs);
    KindHas(items, i);
    SortKeeps(kind, agingMs);
    hide OfKind, Queue, StableSorted, InOrder;
    assert items[i] in multiset(kind);
    assert items[i] in multiset(queue);
    k :| 0 <= k < |queue| && queue[k] == items[i];
  }

  lemma {:induction false} KindHas(items: seq<ScheduleItem>, i: nat)
    requires i < |items|
    ensures items[i] in OfKind(items, items[i].prefillRemaining > 0)
  {
    if i == |items| - 1 {
    } else {
      KindHas(items[..|items| - 1], i);
    }
  }

  // ---- the plan in terms of the items' keys ------------------------------------------

  /** Items carrying their own index as key, as the engine builds them. */
  ghost predicate Indexed(items: seq<ScheduleItem>) {
    forall i :: 0 <= i < |items| ==> items[i].key == i
  }

  ghost predicate SliceFits(items: seq<ScheduleItem>, s: Slice) {
    && s.key < |items|
    && s.prefill == (items[s.key].prefillRemaining > 0)
    && (if s.prefill then 0 < s.tokens <= items[s.key].prefillRemaining else s.tokens == 1)
  }

  lemma IndexedOnce(items: seq<ScheduleItem>, q: seq<ScheduleItem>, i: nat, j: nat)
    requires Indexed(items) && multiset(q) <= multiset(items) && i < |q| && j < |q| && i != j
    ensures q[i].key != q[j].key
    ensures q[i].key < |items| && items[q[i].key] == q[i]
  {
    MemberIndex(items, q, i);
    MemberIndex(items, q, j);
    if q[i] == q[j] {
      TwiceIn(q, i, j);
      OnceIn(items, q[i].key);
    }
  }

  lemma MemberIndex(items: seq<ScheduleItem>, q: seq<ScheduleItem>, i: nat)
    requires Indexed(items) && multiset(q) <= multiset(items) && i < |q|
    ensures q[i].key < |items| && items[q[i].key] == q[i]
  {
    assert q[i] in multiset(q);
    assert q[i] in items;
  }

  lemma TwiceIn(q: seq<ScheduleItem>, i: nat, j: nat)
    requires i < |q| && j < |q| && i != j && q[i] == q[j]
    ensures multiset(q)[q[i]] >= 2
  {
    var a, b := if i < j then i else j, if i < j then j else i;
    assert q == q[..a] + [q[a]] + q[a + 1..b] + [q[b]] + q[b + 1..];
  }

  lemma OnceIn(items: seq<ScheduleItem>, i: nat)
    requires Indexed(items) && i < |items|
    ensures multiset(items)[items[i]] == 1
  {
    assert items == items[..i] + [items[i]] + items[i + 1..];
    assert items[i] !in items[..i] && items[i] !in items[i + 1..];
  }

  lemma DecodeFits(items: seq<ScheduleItem>, decode: seq<ScheduleItem>, d: nat)
    requires Indexed(items) && multiset(decode) <= multiset(items) && AllKind(decode, false) && d <= |decode|
    ensures var r := DecodeSlices(decode, d);
      && (forall i :: 0 <= i < |r| ==> SliceFits(items, r[i]) && !r[i].prefill)
      && (forall i, j :: 0 <= i < j < |r| ==> r[i].key != r[j].key)
  {
    var r := DecodeSlices(decode, d);
    forall i | 0 <= i < |r| ensures SliceFits(items, r[i]) && !r[i].prefill {
      MemberIndex(items, decode, i);
    }
    forall i, j | 0 <= i < j < |r| ensures r[i].key != r[j].key {
      IndexedOnce(items, decode, i, j);
    }
  }

  lemma PrefillFits(items: seq<ScheduleItem>, prefill: seq<ScheduleItem>, r: seq<Slice>, budget: nat, chunk: nat)
    requires Indexed(items) && multiset(prefill) <= multiset(items) && AllKind(prefill, true)
    requires GreedyPrefill(prefill, r, budget, chunk)
    ensures forall i :: 0 <= i < |r| ==> SliceFits(items, r[i]) && r[i].prefill
    ensures forall i, j :: 0 <= i < j < |r| ==> r[i].key != r[j].key
  {
    forall i | 0 <= i < |r| ensures SliceFits(items, r[i]) && r[i].prefill {
      assert ServedSlice(prefill[i], r[i], chunk);
      MemberIndex(items, prefill, i);
    }
    forall i, j | 0 <= i < j < |r| ensures r[i].key != r[j].key {
      assert ServedSlice(prefill[i], r[i], chunk) && ServedSlice(prefill[j], r[j], chunk);
      IndexedOnce(items, prefill, i, j);
    }
  }

  /** Each request gets at most one slice, of its own kind and within its remaining prefill. */
  lemma PlanFitsItems(items: seq<ScheduleItem>, c: Limits)
    requires c.agingMs > 0 && c.prefillChunk > 0 && c.batchTokens > 0 && Indexed(items)
    ensures var slices := Plan(items, c).slices;
      && (forall i :: 0 <= i < |slices| ==> SliceFits(items, slices[i]))
      && (forall i, j :: 0 <= i < j < |slices| ==> slices[i].key != slices[j].key)
  {
    hide Queue, Plan, DecodeServed, InOrder, DecodeSlices, GreedyPrefill, AllKind, Indexed, SliceFits;
    var slices := Plan(items, c).slices;
    var decode, prefill := Queue(items, false, c.agingMs), Queue(items, true, c.agingMs);
    var d := DecodeServed(items, c);
    PlanIsGreedy(items, c);
    QueueMembers(items, true, c.agingMs);
    QueueMembers(items, false, c.agingMs);
    DecodeFits(items, decode, d);
    PrefillFits(items, prefill, slices[d..], c.batchTokens - d, c.prefillChunk);
    BothFit(items, slices, d);
  }

  lemma BothFit(items: seq<ScheduleItem>, slices: seq<Slice>, d: nat)
    requires d <= |slices|
    requires forall i :: 0 <= i < d ==> SliceFits(items, slices[..d][i]) && !slices[..d][i].prefill
    requires forall i, j :: 0 <= i < j < d ==> slices[..d][i].key != slices[..d][j].key
    requires forall i :: 0 <= i < |slices| - d ==> SliceFits(items, slices[d..][i]) && slices[d..][i].prefill
    requires forall i, j :: 0 <= i < j < |slices| - d ==> slices[d..][i].key != slices[d..][j].key
    ensures forall i :: 0 <= i < |slices| ==> SliceFits(items, slices[i])
    ensures forall i, j :: 0 <= i < j < |slices| ==> slices[i].key != slices[j].key
  {
    forall i | 0 <= i < |slices| ensures SliceFits(items, slices[i]) && slices[i].prefill == (i >= d) {
      if i < d {
        assert slices[i] == slices[..d][i];
      } else {
        assert slices[i] == slices[d..][i - d];
      }
    }
    forall i, j | 0 <= i < j < |slices| ensures slices[i].key != slices[j].key {
      if j < d {
        assert slices[i] == slices[..d][i] && slices[j] == slices[..d][j];
      } else if i >= d {
        assert slices[i] == slices[d..][i - d] && slices[j] == slices[d..][j - d];
      }
    }
  }
}

/** While no call has failed, the runner's history of every slot is the prompt and the tokens sent so far. */
module EngineSync {
  import opened Arithmetic
  import opened Outcomes
  import opened RefCounts
  import opened Requests
  import opened Batches
  import opened PrefixIndexes
  import opened EngineState
  import opened EngineBatches
  import opened Credits
  import Scheduling

  /** What the runner holds for an item: its prompt as far as it has been fed, then the sent tokens; the last sent token
      is only fed by the next batch, which leaves a sample pending. */
  ghost function Held(it: Item, sent: seq<int>, pending: bool): seq<int>
    requires it.processed <= |it.request.prompt| && |sent| == it.generated
  {
    if pending then it.request.prompt + sent
    else if sent == [] then it.request.prompt[..it.processed]
    else it.request.prompt + sent[..|sent| - 1]
  }

  ghost function Sent(it: Item, handles: Handles): seq<int> {
    if it.request.order in handles then TokensIn(handles[it.request.order].log) else []
  }

  /** Tokens are counted, none stopped the request yet, and one more may be sent. */
  ghost predicate Running(it: Item, handles: Handles, m: Model) {
    var sent := Sent(it, handles);
    && it.processed <= |it.request.prompt|
    && |sent| == it.generated < it.request.maxTokens
    && (it.generated > 0 ==> it.processed == |it.request.prompt|)
    && forall i :: 0 <= i < |sent| ==> !Stops(m, it.request, sent[i])
  }

  ghost predicate Matches(it: Item, handles: Handles, h: Histories, m: Model, pending: bool)
    requires Running(it, handles, m)
  {
    var sent := Sent(it, handles);
    && it.sequence < |h| && h[it.sequence] == Held(it, sent, pending)
    && (sent != [] ==> it.lastToken == sent[|sent| - 1] && 0 <= it.lastToken < m.vocabulary)
    && (pending ==> it.processed == |it.request.prompt|)
    && (!pending && sent == [] ==> it.processed < |it.request.prompt|)
  }

  /** Cancelled or overdue requests are excused: their samples are dropped. */
  ghost predicate InStep(it: Item, handles: Handles, h: Histories, m: Model, excused: set<nat>, pending: set<int>) {
    && Running(it, handles, m)
    && (it.request.order !in excused ==> Matches(it, handles, h, m, it.sequence in pending))
  }

  ghost predicate ActiveInStep(active: seq<Item>, handles: Handles, h: Histories, m: Model, excused: set<nat>,
                               pending: set<int>) {
    forall i :: 0 <= i < |active| && !active[i].done ==> InStep(active[i], handles, h, m, excused, pending)
  }

  /** Cache slots hold their entries' tokens, free slots nothing. */
  ghost predicate SlotsInStep(entries: map<int, Entry>, free: seq<nat>, freeCache: seq<nat>, h: Histories, c: Config) {
    && |h| == Slots(c)
    && (forall s :: s in entries && 0 <= s < |h| ==> h[s] == entries[s].tokens)
    && (forall s :: s in free && s < |h| ==> h[s] == [])
    && (forall s :: s in freeCache && s < |h| ==> h[s] == [])
  }

  /** No active request has been sent anything. */
  ghost predicate SameSent(active: seq<Item>, handles: Handles, handles': Handles) {
    forall i :: 0 <= i < |active| && !active[i].done ==> Sent(active[i], handles') == Sent(active[i], handles)
  }

  // ---- requests and items change ------------------------------------------------------

  /** The relation only looks at the item's own log and slot. */
  lemma SameLogs(active: seq<Item>, handles: Handles, handles': Handles, h: Histories, h': Histories, m: Model,
                 excused: set<nat>, excused': set<nat>, pending: set<int>)
    requires ActiveInStep(active, handles, h, m, excused, pending) && excused <= excused' && |h| == |h'|
    requires SameSent(active, handles, handles')
    requires forall i :: 0 <= i < |active| && !active[i].done && active[i].sequence < |h| ==>
               h'[active[i].sequence] == h[active[i].sequence]
    ensures ActiveInStep(active, handles', h', m, excused', pending)
  {
    hide TokensIn, Sent, Held;
    forall i | 0 <= i < |active| && !active[i].done ensures InStep(active[i], handles', h', m, excused', pending) {
      assert InStep(active[i], handles, h, m, excused, pending);
    }
  }

  /** Other requests may end or log more. */
  lemma OthersUnchanged(active: seq<Item>, handles: Handles, o: nat, value: Handle)
    requires o !in LiveOrders(active)
    ensures SameSent(active, handles, handles[o := value])
  {
    forall i | 0 <= i < |active| && !active[i].done ensures active[i].request.order != o {
      assert active[i].request.order in LiveOrders(active);
    }
  }

  lemma LiveInStep(active: seq<Item>, handles: Handles, h: Histories, m: Model, excused: set<nat>, pending: set<int>)
    requires ActiveInStep(active, handles, h, m, excused, pending)
    ensures ActiveInStep(Live(active), handles, h, m, excused, pending)
  {
    forall i | 0 <= i < |Live(active)| && !Live(active)[i].done
      ensures InStep(Live(active)[i], handles, h, m, excused, pending)
    {
      LiveMember(active, i);
      var j :| 0 <= j < |active| && active[j] == Live(active)[i] && !active[j].done;
    }
  }

  // ---- a batch --------------------------------------------------------------------------

  /** The items once a plan's prefill slices are booked. */
  function Booked(active: seq<Item>, slices: seq<Scheduling.Slice>): (r: seq<Item>)
    ensures |r| == |active|
  {
    if slices == [] then active
    else
      var before, s := Booked(active, slices[..|slices| - 1]), slices[|slices| - 1];
      if s.key < |before|
         && s.prefill then before[s.key := before[s.key].(processed := before[s.key].processed + s.tokens)]
      else before
  }

  ghost predicate KeyIn(slices: seq<Scheduling.Slice>, i: nat) {
    exists k :: 0 <= k < |slices| && slices[k].key == i
  }

  lemma {:induction false} BookedAt(active: seq<Item>, slices: seq<Scheduling.Slice>, i: nat)
    requires SlicesOk(active, slices) && i < |active|
    ensures !KeyIn(slices, i) ==> Booked(active, slices)[i] == active[i]
    ensures forall k :: 0 <= k < |slices| && slices[k].key == i ==>
              Booked(active, slices)[i] == if slices[k].prefill
                                           then active[i].(processed := active[i].processed + slices[k].tokens)
                                           else active[i]
    decreases |slices|
  {
    if slices == [] {
    } else {
      var n := |slices| - 1;
      var rest, last := slices[..n], slices[n];
      BookedAt(active, rest, i);
      if last.key == i {
        FirstServed(slices, n);
      } else {
        LaterServed(slices, n, i);
      }
    }
  }

  lemma FirstServed(slices: seq<Scheduling.Slice>, n: nat)
    requires n < |slices| && forall i, j :: 0 <= i < j < |slices| ==> slices[i].key != slices[j].key
    ensures !KeyIn(slices[..n], slices[n].key)
  {
  }

  lemma LaterServed(slices: seq<Scheduling.Slice>, n: nat, i: nat)
    requires n + 1 == |slices| && slices[n].key != i
    ensures KeyIn(slices, i) <==> KeyIn(slices[..n], i)
    ensures forall k :: 0 <= k < |slices| && slices[k].key == i ==> k < n && slices[..n][k] == slices[k]
  {
    if KeyIn(slices[..n], i) {
      var k :| 0 <= k < n && slices[..n][k].key == i;
      assert slices[k].key == i;
    }
    if KeyIn(slices, i) {
      var k :| 0 <= k < |slices| && slices[k].key == i;
      assert slices[..n][k].key == i;
    }
  }

  /** Items in step are where the batch expects them. */
  lemma StepContinues(it: Item, s: Scheduling.Slice, handles: Handles, h: Histories, m: Model, c: Config)
    requires RequestOk(it.request, m, c) && InStep(it, handles, h, m, {}, {})
    requires if s.prefill then 0 < s.tokens <= |it.request.prompt| - it.processed
             else s.tokens == 1 && it.processed == |it.request.prompt| && it.generated > 0
    ensures Continues(it, s, h, m.vocabulary, c.maxModelLen)
    ensures |h[it.sequence]| + |FedTokens(it, s)| <= |it.request.prompt| + it.request.maxTokens
  {
    hide TokensIn, Sent;
    var sent := Sent(it, handles);
    assert Matches(it, handles, h, m, false);
    var fed := FedTokens(it, s);
    if s.prefill {
      assert sent == [];
      forall j | 0 <= j < |fed| ensures 0 <= fed[j] < m.vocabulary {
        assert fed[j] == it.request.prompt[it.processed + j];
      }
    }
  }

  /** One item after the batch, its slice booked. */
  lemma FedInStep(it: Item, s: Scheduling.Slice, handles: Handles, h: Histories, after: Histories, m: Model)
    requires InStep(it, handles, h, m, {}, {}) && |after| == |h|
    requires if s.prefill then 0 < s.tokens <= |it.request.prompt| - it.processed
             else s.tokens == 1 && it.processed == |it.request.prompt| && it.generated > 0
    requires it.sequence < |h| ==> after[it.sequence] == h[it.sequence] + FedTokens(it, s)
    ensures var now := if s.prefill then it.(processed := it.processed + s.tokens) else it;
      && Running(now, handles, m)
      && Matches(now, handles, after, m, !s.prefill || now.processed == |it.request.prompt|)
  {
    hide TokensIn;
    assert Matches(it, handles, h, m, false);
    var sent := Sent(it, handles);
    var now := if s.prefill then it.(processed := it.processed + s.tokens) else it;
    assert Sent(now, handles) == sent;
    hide Sent;
    if s.prefill {
      assert sent == [];
      assert it.request.prompt[..it.processed] + FedTokens(it, s) == it.request.prompt[..now.processed];
      if now.processed == |it.request.prompt| {
        assert it.request.prompt[..now.processed] == it.request.prompt + sent;
      }
    } else {
      assert sent[..|sent| - 1] + [it.lastToken] == sent;
      assert it.request.prompt + sent[..|sent| - 1] + [it.lastToken] == it.request.prompt + sent;
    }
  }

  /** The whole batch: booked items are in step with the new histories, samples pending where they were asked for. */
  lemma BatchInStep(active: seq<Item>, slices: seq<Scheduling.Slice>, handles: Handles, h: Histories, after: Histories,
                    m: Model, asked: set<int>)
    requires SlicesOk(active, slices) && ActiveInStep(active, handles, h, m, {}, {})
    requires forall i, j :: 0 <= i < j < |active| ==> Apart(active, i, j)
    requires FedAs(active, slices, h, after) && AsksFor(active, slices, asked)
    ensures ActiveInStep(Booked(active, slices), handles, after, m, {}, asked)
  {
    var booked := Booked(active, slices);
    forall i | 0 <= i < |booked| && !booked[i].done ensures InStep(booked[i], handles, after, m, {}, asked) {
      BookedAt(active, slices, i);
      if KeyIn(slices, i) {
        var k :| 0 <= k < |slices| && slices[k].key == i;
        ServedInStep(active, slices, handles, h, after, m, asked, k);
      } else {
        IdleInStep(active, slices, handles, h, after, m, asked, i);
      }
    }
  }

  lemma AskedSlice(active: seq<Item>, slices: seq<Scheduling.Slice>, asked: set<int>, k: nat)
    requires SlicesOk(active, slices) && AsksFor(active, slices, asked) && k < |slices|
    requires forall i, j :: 0 <= i < j < |active| ==> Apart(active, i, j)
    ensures Served(active, slices[k]).sequence in asked <==> Completes(active, slices[k])
  {
    var s := Served(active, slices[k]).sequence;
    if s in asked {
      var i :| 0 <= i < |slices| && Completes(active, slices[i]) && Served(active, slices[i]).sequence == s;
      if i != k {
        DistinctSlots(active, slices, i, k);
      }
    }
  }

  lemma ServedInStep(active: seq<Item>, slices: seq<Scheduling.Slice>, handles: Handles, h: Histories, after: Histories,
                     m: Model, asked: set<int>, k: nat)
    requires SlicesOk(active, slices) && ActiveInStep(active, handles, h, m, {}, {})
    requires forall i, j :: 0 <= i < j < |active| ==> Apart(active, i, j)
    requires FedAs(active, slices, h, after) && AsksFor(active, slices, asked) && k < |slices|
    ensures InStep(Booked(active, slices)[slices[k].key], handles, after, m, {}, asked)
  {
    hide SlicesOk, ActiveInStep, FedAs, AsksFor, Booked, Running, Matches, Apart, FedTokens;
    var s := slices[k];
    FedSlice(active, slices, handles, h, after, m, k);
    FedInStep(Served(active, s), s, handles, h, after, m);
    AskedSlice(active, slices, asked, k);
    BookedAt(active, slices, s.key);
  }

  lemma FedSlice(active: seq<Item>, slices: seq<Scheduling.Slice>, handles: Handles, h: Histories, after: Histories,
                 m: Model, k: nat)
    requires SlicesOk(active, slices) && ActiveInStep(active, handles, h, m, {}, {}) && FedAs(active, slices, h, after)
             && k < |slices|
    ensures SliceOk(active, slices[k]) && InStep(Served(active, slices[k]), handles, h, m, {}, {}) && |after| == |h|
    ensures var it := Served(active, slices[k]);
      it.sequence < |h| ==> after[it.sequence] == h[it.sequence] + FedTokens(it, slices[k])
  {
    hide InStep, FedTokens, Apart;
    assert SliceOk(active, slices[k]);
  }

  lemma IdleInStep(active: seq<Item>, slices: seq<Scheduling.Slice>, handles: Handles, h: Histories, after: Histories,
                   m: Model, asked: set<int>, i: nat)
    requires SlicesOk(active, slices) && ActiveInStep(active, handles, h, m, {}, {})
    requires forall i, j :: 0 <= i < j < |active| ==> Apart(active, i, j)
    requires FedAs(active, slices, h, after) && AsksFor(active, slices, asked)
    requires i < |active| && !active[i].done && !KeyIn(slices, i)
    ensures InStep(active[i], handles, after, m, {}, asked)
  {
    var it := active[i];
    assert InStep(it, handles, h, m, {}, {});
    forall k | 0 <= k < |slices| ensures Served(active, slices[k]).sequence != it.sequence {
      assert SliceOk(active, slices[k]);
      assert slices[k].key != i;
      assert if slices[k].key < i then Apart(active, slices[k].key, i) else Apart(active, i, slices[k].key);
    }
    hide Sent, Held, TokensIn;
    assert after[it.sequence] == h[it.sequence];
    assert it.sequence !in asked;
  }

  // ---- a sample ------------------------------------------------------------------------

  /** An accepted sample: the next greedy token goes out, and the item is in step again unless that ends it. */
  lemma SampleInStep(it: Item, handles: Handles, log: seq<Event>, h: Histories, m: Model, token: int, now: Item,
                     handles': Handles)
    requires Running(it, handles, m) && Matches(it, handles, h, m, true) && it.request.order in handles'
    requires token == m.next(h[it.sequence]) && 0 <= token < m.vocabulary
    requires now == it.(lastToken := token, generated := it.generated + 1)
    requires Sent(now, handles') == Sent(it, handles) + [token]
    ensures token == m.next(it.request.prompt + Sent(it, handles))
    ensures !Stops(m, it.request, token) && now.generated < it.request.maxTokens ==>
              Running(now, handles', m) && Matches(now, handles', h, m, false)
  {
    hide TokensIn, Sent;
    var sent, sent' := Sent(it, handles), Sent(now, handles');
    assert sent'[..|sent'| - 1] == sent;
  }

  // ---- cache slots -------------------------------------------------------------------------

  lemma EvictInStep(entries: map<int, Entry>, free: seq<nat>, freeCache: seq<nat>, h: Histories, c: Config, s: nat)
    requires SlotsInStep(entries, free, freeCache, h, c) && s < |h|
    ensures SlotsInStep(entries - {s}, free, freeCache + [s], h[s := []], c)
  {
  }

  lemma CacheInStep(entries: map<int, Entry>, free: seq<nat>, freeCache: seq<nat>, h: Histories, c: Config, e: Entry)
    requires SlotsInStep(entries, free, freeCache, h, c) && Distinct(freeCache) && freeCache != []
    requires e.sequence == freeCache[|freeCache| - 1] < |h| && e.sequence !in free
    ensures SlotsInStep(entries[e.sequence := e], free, freeCache[..|freeCache| - 1], h[e.sequence := e.tokens], c)
  {
  }

  lemma AdmitInStep(entries: map<int, Entry>, free: seq<nat>, freeCache: seq<nat>, h: Histories, c: Config, s: nat,
                    tokens: seq<int>)
    requires SlotsInStep(entries, free, freeCache, h, c) && Distinct(free) && free != [] && s == free[|free| - 1] < |h|
    requires s !in freeCache && s !in entries
    ensures SlotsInStep(entries, free[..|free| - 1], freeCache, h[s := tokens], c)
  {
  }

  lemma FinishSlotInStep(entries: map<int, Entry>, free: seq<nat>, freeCache: seq<nat>, h: Histories, c: Config, s: nat)
    requires SlotsInStep(entries, free, freeCache, h, c) && s < |h| && s !in entries
    ensures SlotsInStep(entries, free + [s], freeCache, h[s := []], c)
  {
  }

  // ---- the expiry pass ------------------------------------------------------------------

  /** The items before `i` have been looked at and are in step; the later ones still may be excused. */
  ghost predicate Swept(active: seq<Item>, handles: Handles, h: Histories, m: Model, excused: set<nat>, i: nat)
    requires i <= |active|
  {
    && ActiveInStep(active[..i], handles, h, m, {}, {})
    && ActiveInStep(active[i..], handles, h, m, excused, {})
  }

  lemma SweepKept(active: seq<Item>, handles: Handles, h: Histories, m: Model, excused: set<nat>, excused': set<nat>,
                  i: nat)
    requires i < |active| && Swept(active, handles, h, m, excused, i) && excused <= excused'
    requires active[i].done || active[i].request.order !in excused'
    ensures Swept(active, handles, h, m, excused', i + 1)
  {
    hide Running, Matches;
    var seen, later := active[..i + 1], active[i + 1..];
    forall j | 0 <= j < |seen| && !seen[j].done ensures InStep(seen[j], handles, h, m, {}, {}) {
      if j < i {
        assert active[..i][j] == seen[j];
      } else {
        assert active[i..][0] == active[i];
      }
    }
    forall j | 0 <= j < |later| && !later[j].done ensures InStep(later[j], handles, h, m, excused', {}) {
      assert active[i..][j + 1] == later[j];
    }
  }

  lemma SweepEnded(active: seq<Item>, i: nat, handles: Handles, value: Handle, h: Histories, m: Model,
                   excused: set<nat>, excused': set<nat>)
    requires i < |active| && !active[i].done && Swept(active, handles, h, m, excused, i) && excused <= excused'
    requires active[i].sequence < |h| && forall j, k :: 0 <= j < k < |active| ==> Apart(active, j, k)
    ensures Swept(active[i := Ended(active[i])], handles[active[i].request.order := value], h[active[i].sequence := []],
                  m, excused', i + 1)
  {
    var active', handles' := active[i := Ended(active[i])], handles[active[i].request.order := value];
    var h' := h[active[i].sequence := []];
    forall j | 0 <= j < |active| && j != i && !active[j].done
      ensures Sent(active[j], handles') == Sent(active[j], handles) && active[j].sequence != active[i].sequence
    {
      assert if i < j then Apart(active, i, j) else Apart(active, j, i);
    }
    hide Running, Matches, Sent;
    assert active'[i..] == [Ended(active[i])] + active[i + 1..];
    assert active'[..i] == active[..i];
    var seen, later := active'[..i + 1], active[i + 1..];
    forall j | 0 <= j < |later| && !later[j].done ensures InStep(later[j], handles, h, m, excused, {}) {
      assert active[i..][j + 1] == later[j];
    }
    SameLogs(active'[..i], handles, handles', h, h', m, {}, {}, {});
    SameLogs(later, handles, handles', h, h', m, excused, excused', {});
    assert active'[i + 1..] == later;
    forall j | 0 <= j < |seen| && !seen[j].done ensures InStep(seen[j], handles', h', m, {}, {}) {
      assert j < i;
      assert active'[..i][j] == seen[j];
    }
  }

  // ---- booking the slices one by one ---------------------------------------------------

  lemma {:induction false} BookedShape(active: seq<Item>, slices: seq<Scheduling.Slice>, i: nat)
    requires SlicesOk(active, slices) && i < |active|
    ensures var it := Booked(active, slices)[i];
      && it == active[i].(processed := it.processed)
      && active[i].processed <= it.processed
      && (active[i].processed <= |active[i].request.prompt| ==> it.processed <= |active[i].request.prompt|)
  {
    BookedAt(active, slices, i);
    if KeyIn(slices, i) {
      var k :| 0 <= k < |slices| && slices[k].key == i;
      assert SliceOk(active, slices[k]);
    }
  }

  lemma BookedNone(active: seq<Item>, slices: seq<Scheduling.Slice>)
    ensures Booked(active, slices[..0]) == active
  {
    assert slices[..0] == [];
  }

  /** The item of a slice, its slice booked: as it will be once all are. */
  lemma BookedOne(active: seq<Item>, slices: seq<Scheduling.Slice>, k: nat)
    requires SlicesOk(active, slices) && k < |slices|
    ensures SliceOk(active, slices[k]) && slices[k].key < |active|
    ensures var before, s := Booked(active, slices[..k]), slices[k];
      && before[s.key] == active[s.key]
      && Booked(active, slices[..k + 1]) ==
           (if s.prefill then before[s.key := before[s.key].(processed := before[s.key].processed + s.tokens)]
            else before)
      && Booked(active, slices[..k + 1])[s.key] == Booked(active, slices)[s.key]
  {
    var s := slices[k];
    assert SliceOk(active, s);
    PartOk(active, slices, k);
    PartOk(active, slices, k + 1);
    assert slices[..k + 1][..k] == slices[..k] && slices[..k + 1][k] == s;
    forall j | 0 <= j < k ensures slices[..k][j].key != s.key {
      assert slices[..k][j] == slices[j];
    }
    BookedAt(active, slices[..k], s.key);
    BookedAt(active, slices[..k + 1], s.key);
    BookedAt(active, slices, s.key);
  }

  lemma PartOk(active: seq<Item>, slices: seq<Scheduling.Slice>, k: nat)
    requires SlicesOk(active, slices) && k <= |slices|
    ensures SlicesOk(active, slices[..k])
  {
    forall i | 0 <= i < k ensures SliceOk(active, slices[..k][i]) {
      assert slices[..k][i] == slices[i];
    }
  }

  // ---- using the samples one by one -------------------------------------------------------

  /** Everybody but item `i` is in step. */
  ghost predicate OthersInStep(active: seq<Item>, i: nat, handles: Handles, h: Histories, m: Model, excused: set<nat>,
                               pending: set<int>) {
    forall j :: 0 <= j < |active| && j != i && !active[j].done ==> InStep(active[j], handles, h, m, excused, pending)
  }

  /** A sample is taken off the pending ones. */
  lemma TakeSample(active: seq<Item>, i: nat, handles: Handles, h: Histories, m: Model, excused: set<nat>,
                   excused': set<nat>, pending: set<int>)
    requires ActiveInStep(active, handles, h, m, excused, pending) && excused <= excused' && i < |active|
             && !active[i].done
    requires forall j, k :: 0 <= j < k < |active| ==> Apart(active, j, k)
    ensures OthersInStep(active, i, handles, h, m, excused', pending - {active[i].sequence})
    ensures active[i].request.order in excused' ==>
              ActiveInStep(active, handles, h, m, excused', pending - {active[i].sequence})
  {
    hide Running, Matches;
    var rest := pending - {active[i].sequence};
    forall j | 0 <= j < |active| && j != i && !active[j].done ensures InStep(active[j], handles, h, m, excused', rest) {
      assert if i < j then Apart(active, i, j) else Apart(active, j, i);
      assert InStep(active[j], handles, h, m, excused, pending);
      assert active[j].sequence in rest <==> active[j].sequence in pending;
    }
    assert InStep(active[i], handles, h, m, excused, pending);
  }

  /** Item `i` and its log move on; the others do not notice. */
  lemma OthersStay(active: seq<Item>, i: nat, it: Item, handles: Handles, value: Handle, h: Histories, m: Model,
                   excused: set<nat>, pending: set<int>)
    requires OthersInStep(active, i, handles, h, m, excused, pending) && i < |active| && !active[i].done
    requires forall j, k :: 0 <= j < k < |active| ==> Apart(active, j, k)
    ensures OthersInStep(active[i := it], i, handles[active[i].request.order := value], h, m, excused, pending)
    ensures !it.done && InStep(it, handles[active[i].request.order := value], h, m, excused, pending) ==>
              ActiveInStep(active[i := it], handles[active[i].request.order := value], h, m, excused, pending)
  {
    hide TokensIn, Held;
    var handles' := handles[active[i].request.order := value];
    forall j | 0 <= j < |active| && j != i
           && !active[j].done ensures InStep(active[j], handles', h, m, excused, pending) {
      assert if i < j then Apart(active, i, j) else Apart(active, j, i);
      assert InStep(active[j], handles, h, m, excused, pending);
      assert Sent(active[j], handles') == Sent(active[j], handles);
    }
  }

  /** Item `i` ends; whatever its own state, all others are in step. */
  lemma EndOthers(active: seq<Item>, i: nat, handles: Handles, value: Handle, h: Histories, m: Model, excused: set<nat>,
                  pending: set<int>)
    requires OthersInStep(active, i, handles, h, m, excused, pending) && i < |active| && !active[i].done
             && active[i].sequence < |h|
    requires forall j, k :: 0 <= j < k < |active| ==> Apart(active, j, k)
    ensures ActiveInStep(active[i := Ended(active[i])], handles[active[i].request.order := value],
                         h[active[i].sequence := []], m, excused, pending)
  {
    hide TokensIn, Held;
    var handles' := handles[active[i].request.order := value];
    var active', h' := active[i := Ended(active[i])], h[active[i].sequence := []];
    forall j | 0 <= j < |active'| && !active'[j].done ensures InStep(active'[j], handles', h', m, excused, pending) {
      assert j != i && active'[j] == active[j];
      assert if i < j then Apart(active, i, j) else Apart(active, j, i);
      assert InStep(active[j], handles, h, m, excused, pending);
      assert Sent(active[j], handles') == Sent(active[j], handles);
    }
  }
}

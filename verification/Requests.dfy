/** Requests and their event logs (RequestHandle in src/engine.cpp), and the greedy continuation every log is measured
    against. */
module Requests {
  import opened Outcomes

  datatype Request = Request(id: string, order: nat, prompt: seq<int>, maxTokens: nat, priority: int, space: string,
                             ignoreEos: bool)

  /** The model as the engine sees it: the greedy next token of a history and the end-of-generation tokens. Nothing is
      assumed about either. */
  datatype Model = Model(next: seq<int> -> int, eog: int -> bool, vocabulary: nat)

  datatype Reason = Stopped | Length | Cancelled | Timeout | Backpressure | BackendFailure

  datatype Usage = Usage(prompt: nat, completion: nat, cached: nat)

  datatype Event = Token(token: int, usage: Usage) | Terminal(reason: Reason, status: nat, usage: Usage)

  /** Everything ever emitted for a request, and how much of it the client has taken. */
  datatype Handle = Handle(request: Request, log: seq<Event>, taken: nat)

  predicate Finished(log: seq<Event>) {
    log != [] && log[|log| - 1].Terminal?
  }

  /** Emission: refused after a terminal event, and for a token when the client's buffer is full. */
  function Emitted(h: Handle, e: Event, capacity: nat): (r: (Handle, bool))
    requires h.taken <= |h.log|
    ensures r.0.taken <= |r.0.log|
  {
    if Finished(h.log) || (e.Token? && |h.log| - h.taken >= capacity) then (h, false)
    else (h.(log := h.log + [e]), true)
  }

  /** Reception: the oldest event not yet taken, if there is one. */
  function Received(h: Handle): (r: (Handle, Option<Event>))
    requires h.taken <= |h.log|
    ensures r.0.taken <= |r.0.log| && r.0.log == h.log && r.0.request == h.request
  {
    if h.taken == |h.log| then (h, None) else (h.(taken := h.taken + 1), Some(h.log[h.taken]))
  }

  ghost function TokensIn(log: seq<Event>): seq<int> {
    if log == [] then []
    else
      var rest, last := TokensIn(log[..|log| - 1]), log[|log| - 1];
      if last.Token? then rest + [last.token] else rest
  }

  predicate Stops(m: Model, r: Request, token: int) {
    m.eog(token) && !r.ignoreEos
  }

  // ---- what a log promises ------------------------------------------------------

  ghost predicate IsGreedy(m: Model, prompt: seq<int>, tokens: seq<int>) {
    forall i :: 0 <= i < |tokens| ==> tokens[i] == m.next(prompt + tokens[..i])
  }

  ghost predicate TerminalOk(m: Model, r: Request, tokens: seq<int>, reason: Reason, status: nat, usage: Usage) {
    && usage.prompt == |r.prompt|
    && match reason
       case Stopped => status == 200 && tokens != [] && Stops(m, r, tokens[|tokens| - 1])
                       && usage.completion == |tokens|
       case Length => && status == 200 && |tokens| == r.maxTokens > 0 && !Stops(m, r, tokens[|tokens| - 1])
                      && usage.completion == |tokens|
       case _ => ErrorKind(reason, status) && |tokens| <= usage.completion <= |tokens| + 1
  }

  /** How a request may end otherwise, with the status the client sees. */
  predicate ErrorKind(reason: Reason, status: nat) {
    match reason
    case Cancelled => status == 409 || status == 503
    case Timeout => status == 408
    case Backpressure => status == 429
    case BackendFailure => status == 500
    case _ => false
  }

  /** Greedy tokens, counted one by one, none after a stop token or past the limit; then at most one terminal event. */
  ghost predicate LogOk(m: Model, r: Request, log: seq<Event>) {
    var tokens := TokensIn(log);
    && (forall i :: 0 <= i < |log| - 1 ==> log[i].Token?)
    && (forall i :: 0 <= i < |log| && log[i].Token? ==>
          log[i].usage.prompt == |r.prompt| && log[i].usage.completion == i + 1)
    && IsGreedy(m, r.prompt, tokens)
    && (forall i :: 0 <= i < |tokens| - 1 ==> !Stops(m, r, tokens[i]))
    && |tokens| <= r.maxTokens
    && (Finished(log) ==> var e := log[|log| - 1]; TerminalOk(m, r, tokens, e.reason, e.status, e.usage))
  }

  lemma {:induction false} TokensCount(log: seq<Event>)
    requires forall i :: 0 <= i < |log| ==> log[i].Token?
    ensures |TokensIn(log)| == |log|
  {
    if log == [] {
    } else {
      TokensCount(log[..|log| - 1]);
    }
  }

  lemma OpenLog(m: Model, r: Request, log: seq<Event>)
    requires LogOk(m, r, log) && !Finished(log)
    ensures |TokensIn(log)| == |log|
  {
    TokensCount(log);
  }

  lemma AppendToken(m: Model, r: Request, log: seq<Event>, token: int, usage: Usage)
    requires LogOk(m, r, log) && !Finished(log)
    requires var tokens := TokensIn(log);
      && token == m.next(r.prompt + tokens)
      && |tokens| < r.maxTokens && (tokens != [] ==> !Stops(m, r, tokens[|tokens| - 1]))
      && usage.prompt == |r.prompt| && usage.completion == |tokens| + 1
    ensures LogOk(m, r, log + [Token(token, usage)]) && !Finished(log + [Token(token, usage)])
    ensures TokensIn(log + [Token(token, usage)]) == TokensIn(log) + [token]
  {
    hide Stops, TerminalOk, IsGreedy;
    OpenLog(m, r, log);
    assert (log + [Token(token, usage)])[..|log|] == log;
    GreedySnoc(m, r.prompt, TokensIn(log), token);
  }

  lemma GreedySnoc(m: Model, prompt: seq<int>, tokens: seq<int>, token: int)
    requires IsGreedy(m, prompt, tokens) && token == m.next(prompt + tokens)
    ensures IsGreedy(m, prompt, tokens + [token])
  {
    var more := tokens + [token];
    forall i | 0 <= i < |more| ensures more[i] == m.next(prompt + more[..i]) {
      assert more[..i] == tokens[..i];
      assert i == |tokens| ==> tokens[..i] == tokens;
    }
  }

  lemma AppendTerminal(m: Model, r: Request, log: seq<Event>, reason: Reason, status: nat, usage: Usage)
    requires LogOk(m, r, log) && !Finished(log) && TerminalOk(m, r, TokensIn(log), reason, status, usage)
    ensures LogOk(m, r, log + [Terminal(reason, status, usage)]) && Finished(log + [Terminal(reason, status, usage)])
    ensures TokensIn(log + [Terminal(reason, status, usage)]) == TokensIn(log)
  {
    var log' := log + [Terminal(reason, status, usage)];
    assert log'[..|log|] == log;
  }

  // ---- the reference ----------------------------------------------------------------

  /** The greedy continuation of a prompt, up to the first stop token or the token limit. */
  ghost function Continuation(m: Model, r: Request, sofar: seq<int>): seq<int>
    requires |sofar| < r.maxTokens
    decreases r.maxTokens - |sofar|
  {
    var token := m.next(r.prompt + sofar);
    if Stops(m, r, token) || |sofar| + 1 == r.maxTokens then sofar + [token]
    else Continuation(m, r, sofar + [token])
  }

  lemma {:induction false} ContinuationExtends(m: Model, r: Request, sofar: seq<int>)
    requires |sofar| < r.maxTokens
    ensures sofar < Continuation(m, r, sofar)
    decreases r.maxTokens - |sofar|
  {
    var token := m.next(r.prompt + sofar);
    if !Stops(m, r, token) && |sofar| + 1 != r.maxTokens {
      ContinuationExtends(m, r, sofar + [token]);
    }
  }

  lemma {:induction false} ContinuationReaches(m: Model, r: Request, tokens: seq<int>, k: nat)
    requires IsGreedy(m, r.prompt, tokens) && k <= |tokens| && k < r.maxTokens
    requires forall i :: 0 <= i < k ==> !Stops(m, r, tokens[i])
    ensures Continuation(m, r, []) == Continuation(m, r, tokens[..k])
  {
    if k > 0 {
      ContinuationReaches(m, r, tokens, k - 1);
      assert tokens[..k - 1] + [tokens[k - 1]] == tokens[..k];
    } else {
      assert tokens[..k] == [];
    }
  }

  /** Whatever else the engine was doing: the tokens of a log are a prefix of the greedy continuation of its own prompt,
      and all of it when the request ended normally. */
  lemma LogIsPrefix(m: Model, r: Request, log: seq<Event>)
    requires LogOk(m, r, log) && r.maxTokens > 0
    ensures TokensIn(log) <= Continuation(m, r, [])
    ensures Finished(log) && log[|log| - 1].reason in {Stopped, Length} ==> TokensIn(log) == Continuation(m, r, [])
  {
    var tokens := TokensIn(log);
    var n := |tokens|;
    if n == 0 {
    } else {
      var last := tokens[n - 1];
      ContinuationReaches(m, r, tokens, n - 1);
      assert tokens[..n - 1] + [last] == tokens;
      if !Stops(m, r, last) && n < r.maxTokens {
        ContinuationExtends(m, r, tokens);
      }
    }
  }

  // ---- the same promises, event by event and without the predicates above ---------------------

  function TokenOf(e: Event): int {
    match e
    case Token(token, _) => token
    case Terminal(_, _, _) => 0
  }

  /** The tokens of the first `n` events. */
  ghost function TokensUpTo(log: seq<Event>, n: nat): (r: seq<int>)
    requires n <= |log|
    ensures |r| == n
  {
    seq(n, i requires 0 <= i < n => TokenOf(log[i]))
  }

  lemma {:induction false} TokensAre(log: seq<Event>, n: nat)
    requires n <= |log| && forall i :: 0 <= i < n ==> log[i].Token?
    ensures TokensIn(log[..n]) == TokensUpTo(log, n)
    ensures n + 1 == |log| && log[n].Terminal? ==> TokensIn(log) == TokensUpTo(log, n)
  {
    if n == 0 {
    } else {
      TokensAre(log, n - 1);
      assert log[..n][..n - 1] == log[..n - 1];
    }
    assert n + 1 == |log| ==> log[..|log| - 1] == log[..n];
  }

  /** What a log says of end-of-generation tokens. All events but a terminal one at the end are tokens, each the greedy
      one. A request that ignores the end of generation never stops at it; a log ends with stop at the first such token,
      and with length after exactly `maxTokens` tokens; every other ending has one of five kinds. */
  ghost predicate Explained(m: Model, r: Request, log: seq<Event>) {
    var n := |log| - if log != [] && log[|log| - 1].Terminal? then 1 else 0;
    && n <= r.maxTokens
    && (forall i :: 0 <= i < n ==> log[i].Token? && log[i].token == m.next(r.prompt + TokensUpTo(log, i)))
    && (!r.ignoreEos ==> forall i :: 0 <= i < n - 1 ==> !m.eog(TokenOf(log[i])))
    && (n < |log| ==> EndExplained(m, r, log, n, log[n]))
  }

  ghost predicate EndExplained(m: Model, r: Request, log: seq<Event>, n: nat, e: Event)
    requires n <= |log|
  {
    && e.Terminal?
    && (e.reason == Stopped ==> e.status == 200 && n > 0 && m.eog(TokenOf(log[n - 1])) && !r.ignoreEos)
    && (e.reason == Length ==>
          e.status == 200 && n == r.maxTokens && (r.ignoreEos || forall i :: 0 <= i < n ==> !m.eog(TokenOf(log[i]))))
    && ((e.reason, e.status) in
        {(Stopped, 200), (Length, 200), (Cancelled, 409), (Cancelled, 503), (Timeout, 408), (Backpressure, 429),
         (BackendFailure, 500)})
    && e.usage.prompt == |r.prompt| && n <= e.usage.completion <= n + 1
    && (e.status == 200 ==> e.usage.completion == n)
  }

  lemma LogMeans(m: Model, r: Request, log: seq<Event>)
    requires LogOk(m, r, log)
    ensures Explained(m, r, log)
  {
    hide Stops, TerminalOk, EndExplained, IsGreedy, TokensIn, TokensUpTo;
    var tokens := TokensIn(log);
    var n := if Finished(log) then |log| - 1 else |log|;
    TokensAre(log, n);
    assert n == |log| ==> log[..n] == log;
    GreedyTokens(m, r, log, tokens, n);
    NotStopped(m, r, tokens);
    if n < |log| {
      EndMeans(m, r, log, tokens, n, log[n]);
    }
  }

  lemma GreedyTokens(m: Model, r: Request, log: seq<Event>, tokens: seq<int>, n: nat)
    requires n == |tokens| <= |log| && tokens == TokensUpTo(log, n) && IsGreedy(m, r.prompt, tokens)
    requires forall i :: 0 <= i < n ==> log[i].Token?
    ensures forall i :: 0 <= i < n ==>
              TokenOf(log[i]) == tokens[i] && log[i].token == m.next(r.prompt + TokensUpTo(log, i))
  {
    forall i | 0 <= i < n
      ensures TokenOf(log[i]) == tokens[i] && log[i].token == m.next(r.prompt + TokensUpTo(log, i))
    {
      assert tokens[..i] == TokensUpTo(log, i);
    }
  }

  lemma NotStopped(m: Model, r: Request, tokens: seq<int>)
    requires forall i :: 0 <= i < |tokens| - 1 ==> !Stops(m, r, tokens[i])
    ensures !r.ignoreEos ==> forall i :: 0 <= i < |tokens| - 1 ==> !m.eog(tokens[i])
  {
  }

  lemma EndMeans(m: Model, r: Request, log: seq<Event>, tokens: seq<int>, n: nat, e: Event)
    requires n == |tokens| <= |log| && forall i :: 0 <= i < n ==> TokenOf(log[i]) == tokens[i]
    requires !r.ignoreEos ==> forall i :: 0 <= i < n - 1 ==> !m.eog(tokens[i])
    requires e.Terminal? && TerminalOk(m, r, tokens, e.reason, e.status, e.usage)
    ensures EndExplained(m, r, log, n, e)
  {
  }

  /** The continuation, likewise: greedy tokens up to the limit, ending early exactly at the first end-of-generation
      token that is not ignored. */
  lemma ContinuationMeans(m: Model, r: Request)
    requires r.maxTokens > 0
    ensures var all := Continuation(m, r, []);
      && 0 < |all| <= r.maxTokens
      && (forall i :: 0 <= i < |all| ==> all[i] == m.next(r.prompt + all[..i]))
      && (!r.ignoreEos ==> forall i :: 0 <= i < |all| - 1 ==> !m.eog(all[i]))
      && (|all| < r.maxTokens ==> m.eog(all[|all| - 1]) && !r.ignoreEos)
      && (r.ignoreEos ==> |all| == r.maxTokens)
  {
    ContinuationFrom(m, r, []);
  }

  lemma {:induction false} ContinuationFrom(m: Model, r: Request, sofar: seq<int>)
    requires |sofar| < r.maxTokens && forall i :: 0 <= i < |sofar| ==> sofar[i] == m.next(r.prompt + sofar[..i])
    requires !r.ignoreEos ==> forall i :: 0 <= i < |sofar| ==> !m.eog(sofar[i])
    ensures var all := Continuation(m, r, sofar);
      && 0 < |all| <= r.maxTokens
      && (forall i :: 0 <= i < |all| ==> all[i] == m.next(r.prompt + all[..i]))
      && (!r.ignoreEos ==> forall i :: 0 <= i < |all| - 1 ==> !m.eog(all[i]))
      && (|all| < r.maxTokens ==> m.eog(all[|all| - 1]) && !r.ignoreEos)
    decreases r.maxTokens - |sofar|
  {
    var next := sofar + [m.next(r.prompt + sofar)];
    forall i | 0 <= i < |next| ensures next[i] == m.next(r.prompt + next[..i]) {
      assert i < |sofar| ==> next[..i] == sofar[..i];
      assert i == |sofar| ==> next[..i] == sofar;
    }
    if Stops(m, r, next[|sofar|]) || |next| == r.maxTokens {
    } else {
      ContinuationFrom(m, r, next);
    }
  }

  // ---- the handle ---------------------------------------------------------------------

  /** The client's end: a bounded queue of events that closes with the terminal one. Both its operations are those the
      engine's records use, Emitted and Received. */
  class RequestHandle {
    const capacity: nat
    var events: seq<Event>
    var finished: bool
    ghost const request: Request
    ghost var log: seq<Event>

    ghost predicate Valid()
      reads this
    {
      && |events| <= |log| && events == log[|log| - |events|..]
      && finished == Finished(log)
    }

    ghost function Value(): Handle
      reads this
      requires Valid()
    {
      Handle(request, log, |log| - |events|)
    }

    constructor (request: Request, capacity: nat)
      ensures Valid() && Value() == Handle(request, [], 0) && this.capacity == capacity
    {
      this.request := request;
      this.capacity := capacity;
      hide RequestHandle.Valid, RequestHandle.Value;
      events := [];
      finished := false;
      log := [];
      new;
      Unused();
    }

    lemma Unused()
      requires events == [] && log == [] && !finished
      ensures Valid() && Value() == Handle(request, [], 0)
    {
    }

    method Emit(e: Event) returns (accepted: bool)
      requires Valid()
      modifies this
      ensures Valid() && (Value(), accepted) == Emitted(old(Value()), e, capacity)
      ensures accepted <==> !old(finished) && (e.Terminal? || |old(events)| < capacity)
      ensures log == old(log) + (if accepted then [e] else [])
      ensures events == old(events) + (if accepted then [e] else []) && finished == (old(finished) || e.Terminal?)
    {
      if finished {
        return false;
      }
      if e.Token? && |events| >= capacity {
        return false;
      }
      events := events + [e];
      log := log + [e];
      finished := e.Terminal?;
      return true;
    }

    /** The oldest event not yet taken, if one has arrived. */
    method Next() returns (e: Option<Event>)
      requires Valid()
      modifies `events
      ensures Valid() && (Value(), e) == Received(old(Value()))
      ensures if old(events) == [] then e == None && events == [] else old(events) == [e.value] + events
    {
      if events == [] {
        return None;
      }
      e := Some(events[0]);
      events := events[1..];
    }
  }
}

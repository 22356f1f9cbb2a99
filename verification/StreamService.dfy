/** The streaming retry and failover loop (internal/gateway/service.go), and the
    whole path from an upstream to what the client receives. Breaker decisions,
    deadlines and provider behaviour are an oracle indexed by candidate and try. */
module StreamService {
  import opened Common
  import opened Streams
  import O = OpenAIStream
  import Chat = ChatEncoder
  import R = ResponsesEncoder

  /** What one try meets: the backoff wait, the breaker, the provider, and whether
      the request's deadline has passed afterwards. */
  datatype Turn = Turn(waits: bool, permit: bool, attempt: Attempt, expired: bool)

  /** What happens to a route, in order: its breaker grants a permit, its provider
      is called, the outcome is recorded. */
  datatype Permit = Admit(name: string) | Invoke(name: string) | Record(name: string, ok: bool)

  datatype Failure = Upstream(class_: ErrClass) | NoRoute

  /** last is the provider call whose events the consumer saw last, if any call was
      made. */
  datatype Served = Served(events: seq<Event>, provider: string, error: Option<Failure>, log: seq<Permit>,
                           last: Option<Attempt>)

  /** candidates by provider name, in priority order. */
  datatype Plan = Plan(names: seq<string>, retries: int) {
    function Primary(): string {
      if names == [] then "" else names[0]
    }

    /** Bounded retries on the primary only. */
    function Tries(i: nat): int {
      if i == 0 then 1 + retries else 1
    }
  }

  /** The event of one call that a consumer which has seen nothing yet refuses. */
  type Limits = Attempt -> Option<nat>

  function Refuses(accepts: Taste): (limits: Limits)
    ensures forall a :: limits(a) == FirstRefused(accepts, [], a.events)
  {
    (a: Attempt) => FirstRefused(accepts, [], a.events)
  }

  function Exhausted(p: Plan, last: Option<ErrClass>, seen: Option<Attempt>): Served {
    Served([], p.Primary(), Some(if last.Some? then Upstream(last.value) else NoRoute), [], seen)
  }

  /** One try that reaches its provider. */
  function Attempted(name: string, ok: bool): seq<Permit> {
    [Admit(name), Invoke(name), Record(name, ok)]
  }

  /** The loops from candidate i, try t on; attempts calls were made before, the
      last of which failed with last. */
  function Serve(p: Plan, turns: (nat, nat) -> Turn, limits: Limits, i: nat, t: nat, attempts: nat,
                 last: Option<ErrClass>, seen: Option<Attempt>): Served
    requires i <= |p.names|
    decreases |p.names| - i, p.Tries(i) - t
  {
    if i == |p.names| then Exhausted(p, last, seen)
    else if t >= p.Tries(i) then Serve(p, turns, limits, i + 1, 0, attempts, last, seen)
    else
      var name := p.names[i];
      var turn := turns(i, t);
      if attempts > 0 && !turn.waits then Served([], name, Some(Upstream(Timeout)), [], seen)
      else if !turn.permit then Serve(p, turns, limits, i + 1, 0, attempts, last, seen)
      else
        var taken := Take(turn.attempt, limits(turn.attempt));
        var log := Attempted(name, taken.error.None?);
        if taken.error.None? then Served(taken.events, name, None, log, Some(turn.attempt))
        else if taken.events != [] || turn.expired || !RetryEligible(taken.error.value) then
          Served(taken.events, name, Some(Upstream(taken.error.value)), log, Some(turn.attempt))
        else
          var rest := Serve(p, turns, limits, i, t + 1, attempts + 1, taken.error, Some(turn.attempt));
          rest.(log := log + rest.log)
  }

  function Run(p: Plan, turns: (nat, nat) -> Turn, limits: Limits): Served {
    Serve(p, turns, limits, 0, 0, 0, None, None)
  }

  // ---- One attempt reaches the client ----

  /** The result is what one call of the plan left with the consumer. */
  predicate FromOneAttempt(p: Plan, turns: (nat, nat) -> Turn, limits: Limits, i: nat, t: nat, r: Served) {
    && i < |p.names| && t < p.Tries(i) && turns(i, t).permit
    && r.last == Some(turns(i, t).attempt) && r.provider == p.names[i]
    && r.events == Take(turns(i, t).attempt, limits(turns(i, t).attempt)).events
    && (r.error.None? <==> Take(turns(i, t).attempt, limits(turns(i, t).attempt)).error.None?)
  }

  /** No call delivered anything, and an error is returned; the last call, if any,
      failed by itself before its first event. */
  predicate NothingDelivered(r: Served) {
    r.events == [] && r.error.Some? && FailedSilently(r.last)
  }

  predicate FailedSilently(last: Option<Attempt>) {
    last.Some? ==> last.value.events == [] && last.value.error.Some?
  }

  lemma {:induction false} ServeOneAttempt(p: Plan, turns: (nat, nat) -> Turn, limits: Limits, i: nat, t: nat,
                                           attempts: nat,
                                           last: Option<ErrClass>, seen: Option<Attempt>)
    requires i <= |p.names|
    requires FailedSilently(seen)
    ensures var r := Serve(p, turns, limits, i, t, attempts, last, seen);
      NothingDelivered(r) || exists j: nat, u: nat :: FromOneAttempt(p, turns, limits, j, u, r)
    decreases |p.names| - i, p.Tries(i) - t
  {
    var r := Serve(p, turns, limits, i, t, attempts, last, seen);
    if i < |p.names| {
      if t >= p.Tries(i) {
        ServeOneAttempt(p, turns, limits, i + 1, 0, attempts, last, seen);
      } else {
        var turn := turns(i, t);
        if !(attempts > 0 && !turn.waits) {
          if !turn.permit {
            ServeOneAttempt(p, turns, limits, i + 1, 0, attempts, last, seen);
          } else {
            var taken := Take(turn.attempt, limits(turn.attempt));
            if taken.error.None? || taken.events != [] || turn.expired || !RetryEligible(taken.error.value) {
              assert FromOneAttempt(p, turns, limits, i, t, r);
            } else {
              ServeOneAttempt(p, turns, limits, i, t + 1, attempts + 1, taken.error, Some(turn.attempt));
              var rest := Serve(p, turns, limits, i, t + 1, attempts + 1, taken.error, Some(turn.attempt));
              if j: nat, u: nat :| FromOneAttempt(p, turns, limits, j, u, rest) {
                assert FromOneAttempt(p, turns, limits, j, u, r);
              }
            }
          }
        }
      }
    }
  }

  /** All events the client is given come from a single provider call, whatever the
      chunk sequences, breaker states, deadlines and refusals; and success means
      that this very call completed with every event delivered. */
  lemma SingleAttempt(p: Plan, turns: (nat, nat) -> Turn, limits: Limits)
    ensures var r := Run(p, turns, limits);
      NothingDelivered(r) || exists j: nat, u: nat :: FromOneAttempt(p, turns, limits, j, u, r)
  {
    ServeOneAttempt(p, turns, limits, 0, 0, 0, None, None);
  }

  // ---- Permits ----

  /** The permit in hand: none, one not used yet, one whose call was made. Broken is
      any other order: a permit on top of another, a call without a permit, a permit
      used twice, an outcome of nothing. */
  datatype Hand = Free | Holding(name: string) | Spent(name: string) | Broken

  function OnPermit(h: Hand, p: Permit): Hand {
    match p
    case Admit(name) => if h.Free? then Holding(name) else Broken
    case Invoke(name) => if h == Holding(name) then Spent(name) else Broken
    case Record(name, _) => if h == Spent(name) then Free else Broken
  }

  function InHand(log: seq<Permit>): Hand {
    if log == [] then Free else OnPermit(InHand(log[..|log| - 1]), log[|log| - 1])
  }

  lemma HandSnoc(log: seq<Permit>, p: Permit)
    ensures InHand(log + [p]) == OnPermit(InHand(log), p)
  {
    assert (log + [p])[..|log|] == log;
  }

  lemma PermitTaken(log: seq<Permit>, name: string)
    requires InHand(log) == Free
    ensures InHand(log + [Admit(name)]) == Holding(name)
  {
    HandSnoc(log, Admit(name));
  }

  lemma {:induction false} HandConcat(a: seq<Permit>, b: seq<Permit>)
    requires InHand(a) == Free
    ensures InHand(a + b) == InHand(b)
  {
    if b == [] {
      assert a + b == a;
    } else {
      var n := |b| - 1;
      HandConcat(a, b[..n]);
      HandSnoc(a + b[..n], b[n]);
      assert a + b[..n] + [b[n]] == a + b;
    }
  }

  lemma AttemptReturnsPermit(name: string, ok: bool)
    ensures InHand(Attempted(name, ok)) == Free
  {
    HandSnoc([], Admit(name));
    HandSnoc([Admit(name)], Invoke(name));
    HandSnoc([Admit(name), Invoke(name)], Record(name, ok));
    assert [] + [Admit(name)] == [Admit(name)] && [Admit(name)] + [Invoke(name)] == [Admit(name), Invoke(name)];
    assert [Admit(name), Invoke(name)] + [Record(name, ok)] == Attempted(name, ok);
  }

  function Calls(log: seq<Permit>): nat {
    if log == [] then 0 else Calls(log[..|log| - 1]) + if log[|log| - 1].Invoke? then 1 else 0
  }

  lemma {:induction false} CallsConcat(a: seq<Permit>, b: seq<Permit>)
    ensures Calls(a + b) == Calls(a) + Calls(b)
  {
    if b == [] {
      assert a + b == a;
    } else {
      var n := |b| - 1;
      CallsConcat(a, b[..n]);
      assert (a + b)[..|a| + n] == a + b[..n];
    }
  }

  lemma AttemptIsOneCall(name: string, ok: bool)
    ensures Calls(Attempted(name, ok)) == 1
  {
    assert Attempted(name, ok)[..2] == [Admit(name), Invoke(name)];
    assert [Admit(name), Invoke(name)][..1] == [Admit(name)] && [Admit(name)][..0] == [];
    assert Calls([Admit(name)]) == 0 && Calls([Admit(name), Invoke(name)]) == 1;
  }

  /** Only the last outcome can be a success. */
  predicate SuccessLast(log: seq<Permit>, success: bool) {
    && (success ==> log != [] && log[|log| - 1].Record?)
    && forall k :: 0 <= k < |log| && log[k].Record? ==> (log[k].ok <==> success && k == |log| - 1)
  }

  lemma SuccessAfterFailure(name: string, rest: seq<Permit>, success: bool)
    requires SuccessLast(rest, success)
    ensures SuccessLast(Attempted(name, false) + rest, success)
  {
  }

  function Budget(p: Plan, i: nat, t: nat): int
    requires i <= |p.names|
  {
    if i == |p.names| then 0
    else (if p.Tries(i) > t then p.Tries(i) - t else 0) + |p.names| - i - 1
  }

  /** Permits balance over every path through the loops: each is used for exactly
      one call of its own provider and returned by that call's outcome before
      anything else happens, and none is in hand at the end. Success is recorded once
      and last, exactly when no error is returned; and no more calls are made than
      the primary's tries plus one per remaining candidate. */
  lemma {:induction false} PermitsBalance(p: Plan, turns: (nat, nat) -> Turn, limits: Limits, i: nat, t: nat,
                                          attempts: nat,
                                          last: Option<ErrClass>, seen: Option<Attempt>)
    requires i <= |p.names|
    ensures var r := Serve(p, turns, limits, i, t, attempts, last, seen);
      InHand(r.log) == Free && SuccessLast(r.log, r.error.None?) && Calls(r.log) <= Budget(p, i, t)
    decreases |p.names| - i, p.Tries(i) - t
  {
    if i < |p.names| {
      if t >= p.Tries(i) {
        PermitsBalance(p, turns, limits, i + 1, 0, attempts, last, seen);
      } else {
        var turn := turns(i, t);
        if !(attempts > 0 && !turn.waits) {
          if !turn.permit {
            PermitsBalance(p, turns, limits, i + 1, 0, attempts, last, seen);
          } else {
            var taken := Take(turn.attempt, limits(turn.attempt));
            var log := Attempted(p.names[i], taken.error.None?);
            AttemptReturnsPermit(p.names[i], taken.error.None?);
            AttemptIsOneCall(p.names[i], taken.error.None?);
            assert SuccessLast(log, taken.error.None?);
            hide InHand, Calls, Take, Attempted, SuccessLast;
            if !(taken.error.None? || taken.events != [] || turn.expired || !RetryEligible(taken.error.value)) {
              PermitsBalance(p, turns, limits, i, t + 1, attempts + 1, taken.error, Some(turn.attempt));
              var rest := Serve(p, turns, limits, i, t + 1, attempts + 1, taken.error, Some(turn.attempt));
              HandConcat(log, rest.log);
              CallsConcat(log, rest.log);
              SuccessAfterFailure(p.names[i], rest.log, rest.error.None?);
            }
          }
        }
      }
    }
  }

  // ---- End to end ----

  /** Every provider of the plan is the OpenAI adapter on some upstream. */
  predicate OpenAiPlan(turns: (nat, nat) -> Turn, upstreams: (nat, nat) -> O.Upstream, j: nat, u: nat) {
    turns(j, u).attempt == O.Script(upstreams(j, u))
  }

  /** Chat, end to end, whatever the consumer refuses: if the service succeeds, one
      upstream completed, and what the encoder assembled is that adapter's response,
      which is also what the client can put together from the chunks, with one finish
      reason at the end. */
  lemma ChatEndToEnd(p: Plan, turns: (nat, nat) -> Turn, upstreams: (nat, nat) -> O.Upstream, limits: Limits)
    requires forall j: nat, u: nat :: OpenAiPlan(turns, upstreams, j, u)
    requires Run(p, turns, limits).error.None?
    ensures exists j: nat, u: nat ::
      ChatDelivered(upstreams(j, u), Run(p, turns, limits).events)
  {
    SingleAttempt(p, turns, limits);
    var r := Run(p, turns, limits);
    var j: nat, u: nat :| FromOneAttempt(p, turns, limits, j, u, r);
    assert OpenAiPlan(turns, upstreams, j, u);
    Chat.ChatStreamIsExact(upstreams(j, u));
    hide O.Script, Run, Chat.Fold;
    assert ChatDelivered(upstreams(j, u), r.events);
  }

  ghost predicate ChatDelivered(up: O.Upstream, events: seq<Event>) {
    var s := Chat.Fold(Chat.BEGIN, events);
    && O.Script(up) == Attempt(events, None)
    && events != [] && events[|events| - 1].Completed? && events[|events| - 1].response.Some?
    && var r := events[|events| - 1].response.value;
    && Chat.SameContent(Chat.FinalResponse(s), r)
    && Chat.ContentOf(s.chunks) == TextOf(r.output)
    && |CallsOf(r.output)| == |Indices(events)|
    && (forall k :: 0 <= k < |Indices(events)| ==>
          Chat.Assembled(s.chunks, Indices(events)[k]).arguments == CallsOf(r.output)[k].arguments)
    && Chat.FinishedLast(s.chunks)
  }

  /** The Responses encoder as consumer: having handled some events, it handles the
      next one without an error. */
  function Encoder(c: R.Checks, wire: Option<nat>): (accepts: Taste)
    ensures forall given, e :: accepts(given, e) == !R.Deliver(c, R.Begin(wire), given + [e]).refused
  {
    (given: seq<Event>, e: Event) => !R.Deliver(c, R.Begin(wire), given + [e]).refused
  }

  lemma {:induction false} EncoderRefuses(c: R.Checks, wire: Option<nat>, es: seq<Event>)
    ensures var d := R.Deliver(c, R.Begin(wire), es);
      FirstRefused(Encoder(c, wire), [], es) == if d.refused then Some(d.taken) else None
  {
    if es != [] {
      var n := |es| - 1;
      EncoderRefuses(c, wire, es[..n]);
      hide R.Handle, Encoder;
      assert [] + es[..n] == es[..n] && es[..n] + [es[n]] == es;
    }
  }

  /** What the client of the Responses stream ends up with. */
  function ClientState(c: R.Checks, wire: Option<nat>, r: Served, code: string): R.State {
    var s := if r.last.None? then R.Begin(wire) else R.Deliver(c, R.Begin(wire), r.last.value.events).state;
    if r.error.Some? then R.WriteFailed(s, code) else s
  }

  predicate KeepsContract(turns: (nat, nat) -> Turn, j: nat, u: nat) {
    WellEnded(turns(j, u).attempt)
  }

  /** Responses, end to end: whatever the providers, retries and failovers do, as
      long as adapters keep their contract and the connection holds, the client
      gets exactly one terminal frame, last, and it is response.completed exactly
      when the service returns no error; and a completed stream is a valid one. */
  lemma ResponsesEndToEnd(p: Plan, turns: (nat, nat) -> Turn, c: R.Checks, code: string)
    requires forall j: nat, u: nat :: KeepsContract(turns, j, u)
    ensures var r := Run(p, turns, Refuses(Encoder(c, None)));
      var frames := ClientState(c, None, r, code).frames;
      && R.OneTerminal(frames)
      && (frames[|frames| - 1].CompletedFrame? <==> r.error.None?)
      && R.AllHonest(c, frames)
  {
    var limits := Refuses(Encoder(c, None));
    var r := Run(p, turns, limits);
    hide Run, R.Deliver, R.OneTerminal, R.AllHonest, Serve;
    SingleAttempt(p, turns, limits);
    if NothingDelivered(r) {
      SilentState(c, r, code);
    } else {
      var j: nat, u: nat :| FromOneAttempt(p, turns, limits, j, u, r);
      assert KeepsContract(turns, j, u);
      var a := turns(j, u).attempt;
      TakenShape(c, a);
      R.ExactlyOneTerminal(c, a, None, code);
      R.CompletedMeansValid(c, a, None, code);
      assert ClientState(c, None, r, code) == R.Respond(c, R.Begin(None), a, code);
    }
  }

  lemma TakenShape(c: R.Checks, a: Attempt)
    ensures Take(a, Refuses(Encoder(c, None))(a)).error.None? <==>
      !R.Deliver(c, R.Begin(None), a.events).refused && a.error.None?
  {
    DeliverTaken(c, R.Begin(None), a.events);
    EncoderRefuses(c, None, a.events);
    hide R.Deliver, FirstRefused, Encoder;
  }

  lemma {:induction false} DeliverTaken(c: R.Checks, s: R.State, es: seq<Event>)
    ensures var d := R.Deliver(c, s, es); d.taken <= |es| && (d.refused ==> d.taken < |es|)
    ensures es != [] && R.Deliver(c, s, es).taken == 0 ==> R.Deliver(c, s, es).refused
  {
    if es != [] {
      DeliverTaken(c, s, es[..|es| - 1]);
      hide R.Handle;
    }
  }

  /** When nothing was delivered the failure frame is the only one. */
  lemma SilentState(c: R.Checks, r: Served, code: string)
    requires NothingDelivered(r)
    ensures var frames := ClientState(c, None, r, code).frames;
      && R.OneTerminal(frames) && frames[|frames| - 1].FailedFrame? && R.AllHonest(c, frames)
  {
    assert ClientState(c, None, r, code).frames == [R.FailedFrame(code)];
  }

  // ---- The loops ----

  /** One provider call plays its events into the consumer. */
  method Play(a: Attempt, sink: Sink) returns (error: Option<ErrClass>)
    modifies sink
    ensures var t := Take(a, FirstRefused(sink.accepts, old(sink.delivered), a.events));
      sink.delivered == old(sink.delivered) + t.events && error == t.error
  {
    ghost var base := sink.delivered;
    var n := 0;
    while n < |a.events|
      invariant 0 <= n <= |a.events| && sink.delivered == base + a.events[..n]
      invariant FirstRefused(sink.accepts, base, a.events[..n]).None?
    {
      assert a.events[..n + 1] == a.events[..n] + [a.events[n]];
      assert base + a.events[..n] + [a.events[n]] == base + a.events[..n + 1];
      RefusedSnoc(sink.accepts, base, a.events[..n], a.events[n]);
      var ok := sink.Emit(a.events[n]);
      if !ok {
        RefusedPrefix(sink.accepts, base, a.events[..n + 1], a.events);
        return Some(Internal);
      }
      n := n + 1;
    }
    assert a.events[..n] == a.events;
    return a.error;
  }

  /** A provider call under a permit, and the outcome recorded once it has
      returned. */
  method Call(name: string, a: Attempt, sink: Sink, before: seq<Permit>)
      returns (error: Option<ErrClass>, log: seq<Permit>)
    requires InHand(before) == Holding(name)
    modifies sink
    ensures var t := Take(a, FirstRefused(sink.accepts, old(sink.delivered), a.events));
      sink.delivered == old(sink.delivered) + t.events && error == t.error
    ensures log == before + [Invoke(name)] + [Record(name, error.None?)] && InHand(log) == Free
  {
    HandSnoc(before, Invoke(name));
    log := before + [Invoke(name)];
    error := Play(a, sink);
    HandSnoc(log, Record(name, error.None?));
    log := log + [Record(name, error.None?)];
  }

  /** How one candidate's tries ended the request, if they did. */
  datatype Result = Result(provider: string, error: Option<Failure>)

  /** The tries of one candidate: a permit is logged where it is taken, its outcome
      once the call has returned. */
  method TryCandidate(p: Plan, turns: (nat, nat) -> Turn, sink: Sink, i: nat, made: nat, failed: Option<ErrClass>,
                      before: seq<Permit>, ghost saw: Option<Attempt>)
    returns (result: Option<Result>, attempts: nat, lastErr: Option<ErrClass>, log: seq<Permit>,
             ghost seen: Option<Attempt>)
    requires i < |p.names| && sink.delivered == [] && InHand(before) == Free
    modifies sink
    ensures InHand(log) == Free
    ensures var goal := Continue(before, Serve(p, turns, Refuses(sink.accepts), i, 0, made, failed, saw));
      match result
      case Some(r) => sink.delivered == goal.events && r.provider == goal.provider && r.error == goal.error
          && log == goal.log
      case None =>
        && sink.delivered == []
        && goal == Continue(log, Serve(p, turns, Refuses(sink.accepts), i + 1, 0, attempts, lastErr, seen))
  {
    hide Serve, Take, Continue, Logged, Refuses, FirstRefused, InHand, OnPermit;
    ghost var limits := Refuses(sink.accepts);
    ghost var goal := Continue(before, Serve(p, turns, limits, i, 0, made, failed, saw));
    attempts, lastErr, log, seen := made, failed, before, saw;
    var name := p.names[i];
    var maxTries := 1;
    if i == 0 {
      maxTries := 1 + p.retries;
    }
    var outputStarted := false;
    var try := 0;
    while try < maxTries
      invariant 0 <= try && maxTries == p.Tries(i) && sink.delivered == [] && !outputStarted
      invariant InHand(log) == Free
      invariant goal == Continue(log, Serve(p, turns, limits, i, try, attempts, lastErr, seen))
      decreases maxTries - try
    {
      var turn := turns(i, try);
      ServeTry(p, turns, limits, i, try, attempts, lastErr, seen, log);
      if attempts > 0 && !turn.waits {
        return Some(Result(name, Some(Upstream(Timeout)))), attempts, lastErr, log, seen;
      }
      if !turn.permit {
        return None, attempts, lastErr, log, seen;
      }
      ghost var start := log;
      PermitTaken(log, name);
      log := log + [Admit(name)];
      attempts := attempts + 1;
      var err;
      err, log := Call(name, turn.attempt, sink, log);
      LoggedInOrder(start, name, err.None?);
      outputStarted := outputStarted || sink.delivered != [];
      if err.None? {
        return Some(Result(name, None)), attempts, lastErr, log, seen;
      }
      if outputStarted || turn.expired || !RetryEligible(err.value) {
        return Some(Result(name, Some(Upstream(err.value)))), attempts, lastErr, log, seen;
      }
      lastErr := err;
      seen := Some(turn.attempt);
      try := try + 1;
    }
    ServeEnd(p, turns, limits, i, try, attempts, lastErr, seen, log);
    return None, attempts, lastErr, log, seen;
  }

  /** The nested loops against a consumer that may refuse any event, by whatever it
      has been given so far; with Encoder this is the run of ResponsesEndToEnd. */
  method Stream(p: Plan, turns: (nat, nat) -> Turn, sink: Sink)
      returns (provider: string, error: Option<Failure>, log: seq<Permit>)
    requires sink.delivered == []
    modifies sink
    ensures var r := Run(p, turns, Refuses(sink.accepts));
      sink.delivered == r.events && provider == r.provider && error == r.error && log == r.log
    ensures InHand(log) == Free
  {
    ghost var limits := Refuses(sink.accepts);
    ghost var goal := Run(p, turns, limits);
    assert [] + goal.log == goal.log;
    assert goal == Continue([], Serve(p, turns, limits, 0, 0, 0, None, None));
    log := [];
    assert InHand(log) == Free;
    hide Serve, Take, Continue, Run, InHand, Refuses, FirstRefused;
    var lastErr: Option<ErrClass> := None;
    ghost var seen: Option<Attempt> := None;
    var attempts := 0;
    var i := 0;
    while i < |p.names|
      invariant 0 <= i <= |p.names| && sink.delivered == [] && InHand(log) == Free
      invariant goal == Continue(log, Serve(p, turns, limits, i, 0, attempts, lastErr, seen))
      decreases |p.names| - i
    {
      var result;
      result, attempts, lastErr, log, seen := TryCandidate(p, turns, sink, i, attempts, lastErr, log, seen);
      if result.Some? {
        return result.value.provider, result.value.error, log;
      }
      i := i + 1;
    }
    ServeEnd(p, turns, limits, i, 0, attempts, lastErr, seen, log);
    return p.Primary(), Some(if lastErr.Some? then Upstream(lastErr.value) else NoRoute), log;
  }

  /** The log after one more try that reached its provider. */
  function Logged(log: seq<Permit>, name: string, ok: bool): seq<Permit> {
    log + Attempted(name, ok)
  }

  lemma LoggedInOrder(log: seq<Permit>, name: string, ok: bool)
    ensures log + [Admit(name)] + [Invoke(name)] + [Record(name, ok)] == Logged(log, name, ok)
  {
  }

  function Continue(log: seq<Permit>, r: Served): Served {
    r.(log := log + r.log)
  }

  /** One try of the loops, by how it ends. */
  lemma ServeTry(p: Plan, turns: (nat, nat) -> Turn, limits: Limits, i: nat, t: nat, attempts: nat,
                 last: Option<ErrClass>, seen: Option<Attempt>, log: seq<Permit>)
    requires i < |p.names| && t < p.Tries(i)
    ensures var turn := turns(i, t);
      var taken := Take(turn.attempt, limits(turn.attempt));
      var log' := Logged(log, p.names[i], taken.error.None?);
      Continue(log, Serve(p, turns, limits, i, t, attempts, last, seen))
      == if attempts > 0 && !turn.waits then Served([], p.names[i], Some(Upstream(Timeout)), log, seen)
         else if !turn.permit then Continue(log, Serve(p, turns, limits, i + 1, 0, attempts, last, seen))
         else if taken.error.None? then Served(taken.events, p.names[i], None, log', Some(turn.attempt))
         else if taken.events != [] || turn.expired || !RetryEligible(taken.error.value) then
           Served(taken.events, p.names[i], Some(Upstream(taken.error.value)), log', Some(turn.attempt))
         else Continue(log', Serve(p, turns, limits, i, t + 1, attempts + 1, taken.error, Some(turn.attempt)))
  {
    var taken := Take(turns(i, t).attempt, limits(turns(i, t).attempt));
    var own := Attempted(p.names[i], taken.error.None?);
    var rest := Serve(p, turns, limits, i, t + 1, attempts + 1, taken.error, Some(turns(i, t).attempt));
    assert log + (own + rest.log) == log + own + rest.log;
    assert log + [] == log;
    hide Take;
  }

  lemma ServeEnd(p: Plan, turns: (nat, nat) -> Turn, limits: Limits, i: nat, t: nat, attempts: nat,
                 last: Option<ErrClass>, seen: Option<Attempt>, log: seq<Permit>)
    requires i <= |p.names|
    ensures i < |p.names| && t >= p.Tries(i) ==>
              Serve(p, turns, limits, i, t, attempts, last, seen) ==
                  Serve(p, turns, limits, i + 1, 0, attempts, last, seen)
    ensures i == |p.names| ==>
      Continue(log, Serve(p, turns, limits, i, t, attempts, last, seen)) == Exhausted(p, last, seen).(log := log)
  {
    assert log + [] == log;
  }
}

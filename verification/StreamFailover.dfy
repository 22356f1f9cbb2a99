/** When the streaming loop goes on and when it stops (internal/gateway/service.go,
    internal/provider/provider.go), with the error classes written out. */
module StreamFailover {
  import opened Common
  import opened Streams
  import opened StreamService

  /** What the call of a turn delivers, and its error. */
  function TakenOf(turn: Turn, limits: Limits): Taken {
    Take(turn.attempt, limits(turn.attempt))
  }

  /** A failure behind which the next try or candidate may be used: nothing reached
      the consumer, the deadline has not passed, and the class is an outage of that
      upstream. */
  predicate Silent(turn: Turn, limits: Limits) {
    var taken := TakenOf(turn, limits);
    && taken.events == [] && taken.error.Some? && !turn.expired
    && (taken.error.value == Network || taken.error.value == RateLimited || taken.error.value == Server
        || taken.error.value == Timeout)
  }

  /** Some call came before try t of candidate i; if t is the first one of the
      candidate, some earlier candidate's breaker granted a permit. */
  ghost predicate CalledBefore(p: Plan, turns: (nat, nat) -> Turn, i: nat, t: nat) {
    t > 0 || exists j: nat :: j < i && p.Tries(j) > 0 && turns(j, 0).permit
  }

  /** The backoff wait, which every try but the very first call needs. */
  ghost predicate WaitHolds(p: Plan, turns: (nat, nat) -> Turn, i: nat, t: nat) {
    CalledBefore(p, turns, i, t) ==> turns(i, t).waits
  }

  /** The try was made and failed silently. */
  ghost predicate Passed(p: Plan, turns: (nat, nat) -> Turn, limits: Limits, i: nat, t: nat) {
    WaitHolds(p, turns, i, t) && turns(i, t).permit && Silent(turns(i, t), limits)
  }

  /** The candidate's first n tries failed silently and no further one is due: they
      are all it has, or its breaker then refuses. */
  ghost predicate GivesWayAfter(p: Plan, turns: (nat, nat) -> Turn, limits: Limits, i: nat, n: nat) {
    && (n == 0 || n <= p.Tries(i))
    && (forall u: nat :: u < n ==> Passed(p, turns, limits, i, u))
    && (n >= p.Tries(i) || (WaitHolds(p, turns, i, n) && !turns(i, n).permit))
  }

  ghost predicate GivesWay(p: Plan, turns: (nat, nat) -> Turn, limits: Limits, i: nat) {
    exists n: nat :: GivesWayAfter(p, turns, limits, i, n)
  }

  /** All candidates before i gave way and all tries before t of i failed silently.
      Try t of i is then due if there is one. */
  ghost predicate Reaches(p: Plan, turns: (nat, nat) -> Turn, limits: Limits, i: nat, t: nat) {
    && i <= |p.names| && (t == 0 || (i < |p.names| && t <= p.Tries(i)))
    && (forall j: nat :: j < i ==> GivesWay(p, turns, limits, j))
    && (forall u: nat :: u < t ==> Passed(p, turns, limits, i, u))
  }

  /** Where the loop stands then: what it logged, and what failed last. */
  datatype Standing = Standing(attempts: nat, last: Option<ErrClass>, seen: Option<Attempt>, log: seq<Permit>)

  ghost predicate StandsAt(p: Plan, turns: (nat, nat) -> Turn, limits: Limits, i: nat, t: nat, s: Standing)
    requires i <= |p.names|
  {
    && Run(p, turns, limits) == Continue(s.log, Serve(p, turns, limits, i, t, s.attempts, s.last, s.seen))
    && (s.attempts > 0 <==> CalledBefore(p, turns, i, t))
    && (s.last.Some? <==> s.attempts > 0) && (s.seen.Some? <==> s.attempts > 0)
    && (s.attempts > 0 ==> s.last == Take(s.seen.value, limits(s.seen.value)).error)
  }

  lemma {:induction false} Reached(p: Plan, turns: (nat, nat) -> Turn, limits: Limits, i: nat, t: nat)
      returns (s: Standing)
    requires Reaches(p, turns, limits, i, t)
    ensures StandsAt(p, turns, limits, i, t, s)
    decreases i, t
  {
    hide Serve, Take, Continue, Run;
    if t > 0 {
      s := Reached(p, turns, limits, i, t - 1);
      assert Passed(p, turns, limits, i, t - 1);
      s := OneMore(p, turns, limits, i, t - 1, s);
    } else if i > 0 {
      var j := i - 1;
      assert GivesWay(p, turns, limits, j);
      var n: nat :| GivesWayAfter(p, turns, limits, j, n);
      s := Reached(p, turns, limits, j, n);
      NextCandidate(p, turns, limits, j, n, s);
    } else {
      s := Standing(0, None, None, []);
      ServeStart(p, turns, limits);
    }
  }

  lemma ServeStart(p: Plan, turns: (nat, nat) -> Turn, limits: Limits)
    ensures Run(p, turns, limits) == Continue([], Serve(p, turns, limits, 0, 0, 0, None, None))
  {
    hide Serve;
    var r := Serve(p, turns, limits, 0, 0, 0, None, None);
    assert [] + r.log == r.log;
  }

  /** After a silent failure the next try is due. */
  lemma OneMore(p: Plan, turns: (nat, nat) -> Turn, limits: Limits, i: nat, t: nat, s: Standing)
      returns (s': Standing)
    requires i < |p.names| && t < p.Tries(i) && StandsAt(p, turns, limits, i, t, s)
    requires Passed(p, turns, limits, i, t)
    ensures StandsAt(p, turns, limits, i, t + 1, s')
    ensures s' == Standing(s.attempts + 1, TakenOf(turns(i, t), limits).error, Some(turns(i, t).attempt),
                           Logged(s.log, p.names[i], false))
  {
    hide Serve, Take, Continue, Run, Logged;
    ServeTry(p, turns, limits, i, t, s.attempts, s.last, s.seen, s.log);
    var error := TakenOf(turns(i, t), limits).error;
    s' := Standing(s.attempts + 1, error, Some(turns(i, t).attempt), Logged(s.log, p.names[i], false));
  }

  /** After a candidate's tries, or its breaker's refusal, the next candidate. */
  lemma NextCandidate(p: Plan, turns: (nat, nat) -> Turn, limits: Limits, i: nat, t: nat, s: Standing)
    requires i < |p.names| && StandsAt(p, turns, limits, i, t, s)
    requires GivesWayAfter(p, turns, limits, i, t)
    ensures StandsAt(p, turns, limits, i + 1, 0, s)
  {
    hide Serve, Take, Continue, Run, Silent;
    if t < p.Tries(i) {
      ServeTry(p, turns, limits, i, t, s.attempts, s.last, s.seen, s.log);
    } else {
      ServeEnd(p, turns, limits, i, t, s.attempts, s.last, s.seen, s.log);
    }
    assert CalledBefore(p, turns, i + 1, 0) <==> CalledBefore(p, turns, i, t) by {
      if t > 0 {
        assert Passed(p, turns, limits, i, 0);
      } else if t < p.Tries(i) {
        assert !turns(i, 0).permit;
      }
    }
  }

  /** The wait failed. */
  lemma WaitStops(p: Plan, turns: (nat, nat) -> Turn, limits: Limits, i: nat, t: nat)
    requires Reaches(p, turns, limits, i, t) && i < |p.names| && t < p.Tries(i)
    requires !WaitHolds(p, turns, i, t)
    ensures var r := Run(p, turns, limits);
      r.events == [] && r.provider == p.names[i] && r.error == Some(Upstream(Timeout))
  {
    hide Serve, Take, Run;
    var s := Reached(p, turns, limits, i, t);
    ServeTry(p, turns, limits, i, t, s.attempts, s.last, s.seen, s.log);
  }

  /** The call of this try ends the request: its result, the events it delivered, and
      the provider's own name. */
  ghost predicate EndsWith(p: Plan, turns: (nat, nat) -> Turn, limits: Limits, i: nat, t: nat)
    requires i < |p.names|
  {
    var r, taken := Run(p, turns, limits), TakenOf(turns(i, t), limits);
    && r.provider == p.names[i] && r.events == taken.events && r.last == Some(turns(i, t).attempt)
    && r.error == (if taken.error.None? then None else Some(Upstream(taken.error.value)))
  }

  /** The log has a call of this provider under a permit, with this outcome recorded. */
  ghost predicate Logs(log: seq<Permit>, name: string, ok: bool) {
    exists n :: 0 <= n < |log| - 2
                && log[n] == Admit(name) && log[n + 1] == Invoke(name) && log[n + 2] == Record(name, ok)
  }

  lemma AttemptLogged(before: seq<Permit>, full: seq<Permit>, name: string, ok: bool)
    requires Logged(before, name, ok) <= full
    ensures Logs(full, name, ok)
  {
    var log := Logged(before, name, ok);
    assert log[|before|] == Admit(name) && log[|before| + 1] == Invoke(name) && log[|before| + 2] == Record(name, ok);
    assert forall n :: 0 <= n < |log| ==> full[n] == log[n];
    assert full[|before|] == Admit(name);
  }

  lemma ReachesNextTry(p: Plan, turns: (nat, nat) -> Turn, limits: Limits, i: nat, t: nat)
    requires Reaches(p, turns, limits, i, t) && i < |p.names| && t < p.Tries(i) && Passed(p, turns, limits, i, t)
    ensures Reaches(p, turns, limits, i, t + 1)
    ensures t + 1 == p.Tries(i) ==> Reaches(p, turns, limits, i + 1, 0)
  {
    hide Passed;
    if t + 1 == p.Tries(i) {
      assert GivesWayAfter(p, turns, limits, i, t + 1);
    }
  }

  lemma ReachesNextCandidate(p: Plan, turns: (nat, nat) -> Turn, limits: Limits, i: nat, t: nat)
    requires Reaches(p, turns, limits, i, t) && i < |p.names| && t < p.Tries(i)
    requires WaitHolds(p, turns, i, t) && !turns(i, t).permit
    ensures Reaches(p, turns, limits, i + 1, 0)
  {
    hide Passed, WaitHolds;
    assert GivesWayAfter(p, turns, limits, i, t);
  }

  /** A try that is due, whose wait holds and whose breaker permits, is called
      and its outcome recorded, a success exactly when it returned no error; an error
      then ends the request if and only if the call delivered an event, the
      deadline has passed, or the class is invalid or internal. Otherwise the next
      try is due, or after the last one the next candidate. */
  lemma StopsExactlyWhen(p: Plan, turns: (nat, nat) -> Turn, limits: Limits, i: nat, t: nat)
    requires Reaches(p, turns, limits, i, t) && i < |p.names| && t < p.Tries(i)
    requires WaitHolds(p, turns, i, t) && turns(i, t).permit
    ensures var taken := TakenOf(turns(i, t), limits);
      && Logs(Run(p, turns, limits).log, p.names[i], taken.error.None?)
      && (taken.error.None? ==> EndsWith(p, turns, limits, i, t))
      && (taken.error.Some? ==>
            if taken.events != [] || turns(i, t).expired || taken.error.value == Invalid
               || taken.error.value == Internal
            then EndsWith(p, turns, limits, i, t)
            else Reaches(p, turns, limits, i, t + 1) && (t + 1 == p.Tries(i) ==> Reaches(p, turns, limits, i + 1, 0)))
  {
    hide Serve, Take, Run, Reaches;
    var s := Reached(p, turns, limits, i, t);
    ServeTry(p, turns, limits, i, t, s.attempts, s.last, s.seen, s.log);
    var taken := TakenOf(turns(i, t), limits);
    var log := Logged(s.log, p.names[i], taken.error.None?);
    var full := Run(p, turns, limits).log;
    assert log <= full;
    AttemptLogged(s.log, full, p.names[i], taken.error.None?);
    if Silent(turns(i, t), limits) {
      assert Passed(p, turns, limits, i, t);
      ReachesNextTry(p, turns, limits, i, t);
    }
  }

  /** An event the consumer refuses ends the request: the client keeps the events before
      it, the error is internal, and no other call follows. */
  lemma RefusalEndsTheRequest(p: Plan, turns: (nat, nat) -> Turn, limits: Limits, i: nat, t: nat, n: nat)
    requires Reaches(p, turns, limits, i, t) && i < |p.names| && t < p.Tries(i)
    requires WaitHolds(p, turns, i, t) && turns(i, t).permit
    requires limits(turns(i, t).attempt) == Some(n) && n < |turns(i, t).attempt.events|
    ensures var r := Run(p, turns, limits);
      && r.error == Some(Upstream(Internal)) && r.provider == p.names[i]
      && r.events == turns(i, t).attempt.events[..n]
      && |r.log| >= 2 && r.log[|r.log| - 2..] == [Invoke(p.names[i]), Record(p.names[i], false)]
  {
    hide Serve, Run, Reaches;
    var s := Reached(p, turns, limits, i, t);
    ServeTry(p, turns, limits, i, t, s.attempts, s.last, s.seen, s.log);
    assert Logged(s.log, p.names[i], false)
        == s.log + [Admit(p.names[i])] + [Invoke(p.names[i]), Record(p.names[i], false)];
  }

  /** When every candidate gave way, nothing was delivered and the answer is under the
      first candidate's name: the last call's error, or no route exactly when no call
      was ever permitted. */
  lemma ExhaustedExactlyWhen(p: Plan, turns: (nat, nat) -> Turn, limits: Limits)
    requires Reaches(p, turns, limits, |p.names|, 0)
    ensures var r := Run(p, turns, limits);
      && r.events == [] && r.provider == (if p.names == [] then "" else p.names[0])
      && (r.error == Some(NoRoute) <==> !CalledBefore(p, turns, |p.names|, 0))
      && (r.error != Some(NoRoute) ==>
            r.last.Some? && Take(r.last.value, limits(r.last.value)).error.Some?
            && r.error == Some(Upstream(Take(r.last.value, limits(r.last.value)).error.value)))
  {
    hide Serve, Take, Run, Reaches;
    var s := Reached(p, turns, limits, |p.names|, 0);
    ServeEnd(p, turns, limits, |p.names|, 0, s.attempts, s.last, s.seen, s.log);
  }

  /** Failover does its job: if the waits hold and every earlier permitted call fails
      silently, then the first permitted call that completes within the tries serves
      the request, with all its events, under its own name and with no error. */
  lemma FirstCompletingCallServes(p: Plan, turns: (nat, nat) -> Turn, limits: Limits, i: nat, t: nat)
    requires i < |p.names| && t < p.Tries(i) && TakenOf(turns(i, t), limits).error.None?
    requires forall j: nat, u: nat :: turns(j, u).waits
    requires forall j: nat, u: nat :: j < i && u < p.Tries(j) && turns(j, u).permit ==> Silent(turns(j, u), limits)
    requires forall u: nat :: u < t ==> turns(i, u).permit && Silent(turns(i, u), limits)
    requires turns(i, t).permit
    ensures var r := Run(p, turns, limits);
      r.error.None? && r.provider == p.names[i] && r.events == turns(i, t).attempt.events
  {
    forall j: nat | j < i ensures GivesWay(p, turns, limits, j) {
      PermittedRun(p, turns, limits, j, 0);
    }
    StopsExactlyWhen(p, turns, limits, i, t);
  }

  lemma PermittedRun(p: Plan, turns: (nat, nat) -> Turn, limits: Limits, j: nat, n: nat)
    requires n == 0 || n <= p.Tries(j)
    requires forall u: nat :: u < n ==> Passed(p, turns, limits, j, u)
    requires forall u: nat :: turns(j, u).waits
    requires forall u: nat :: u < p.Tries(j) && turns(j, u).permit ==> Silent(turns(j, u), limits)
    ensures GivesWay(p, turns, limits, j)
    decreases p.Tries(j) - n
  {
    if n < p.Tries(j) && turns(j, n).permit {
      assert Passed(p, turns, limits, j, n);
      PermittedRun(p, turns, limits, j, n + 1);
    } else {
      assert GivesWayAfter(p, turns, limits, j, n);
    }
  }
}

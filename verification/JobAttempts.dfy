/** Attempt accounting for the whole protocol: the bound holds when executions in
    flight have distinct owners, and a concrete run shows that it does not when
    the loops of one pool share their owner string. */
module JobAttempts {
  import opened Common
  import opened JobStore
  import opened JobRuns
  import P = JobProtocol
  import A = Accounting

  // ---- The store's view of a system run ----

  /** The statements a run commits, in order. */
  ghost function Trace(sys: P.Sys, evs: seq<P.Event>, maxAttempts: int): seq<Op>
    requires Filed(sys.store)
    decreases |evs|
  {
    if evs == [] then []
    else
      P.StepKeepsFiled(sys, evs[0], maxAttempts);
      StatementsOf(sys, evs[0], maxAttempts) + Trace(P.Step(sys, evs[0], maxAttempts), evs[1..], maxAttempts)
  }

  function StatementsOf(sys: P.Sys, ev: P.Event, maxAttempts: int): seq<Op> {
    if P.Enabled(sys, ev, maxAttempts) && P.Effect(sys, ev, maxAttempts).Some?
        then [P.Effect(sys, ev, maxAttempts).value] else []
  }

  /** Whatever holds of every run of the store holds of the system's store. */
  lemma {:induction false} StoreFollowsTrace(sys: P.Sys, evs: seq<P.Event>, maxAttempts: int)
    requires Filed(sys.store)
    ensures P.Run(sys, evs, maxAttempts).store == JobStore.Run(sys.store, Trace(sys, evs, maxAttempts))
    decreases |evs|
  {
    if evs != [] {
      P.StepKeepsFiled(sys, evs[0], maxAttempts);
      var sys' := P.Step(sys, evs[0], maxAttempts);
      StoreFollowsTrace(sys', evs[1..], maxAttempts);
      var rest := Trace(sys', evs[1..], maxAttempts);
      var ops := StatementsOf(sys, evs[0], maxAttempts);
      hide JobStore.Step, P.NextBooks, P.NextExecs, P.Ended, P.Enabled, P.Effect;
      if ops == [] {
        assert ops + rest == rest;
      } else {
        assert (ops + rest)[0] == ops[0] && (ops + rest)[1..] == rest;
      }
    }
  }

  // ---- Distinct owners ----

  predicate InFlight(e: P.Exec) {
    !e.phase.Done?
  }

  /** A claim by an owner no execution in flight uses. */
  predicate FreshOwner(sys: P.Sys, ev: P.Event) {
    ev.Claim? ==> forall i :: 0 <= i < |sys.execs| && InFlight(sys.execs[i]) ==> sys.execs[i].job.owner != ev.owner
  }

  ghost predicate DistinctOwners(sys: P.Sys, evs: seq<P.Event>, maxAttempts: int)
    requires Filed(sys.store)
    decreases |evs|
  {
    evs == [] ||
    (P.StepKeepsFiled(sys, evs[0], maxAttempts);
     FreshOwner(sys, evs[0]) && DistinctOwners(P.Step(sys, evs[0], maxAttempts), evs[1..], maxAttempts))
  }

  /** As long as an execution still owns its job, its snapshot is current; and a
      charged return in progress passed the guard. */
  predicate Current(s: State, e: P.Exec, maxAttempts: int) {
    && (InFlight(e) && Owned(s, e.job.id, e.job.owner) ==> s.jobs[e.job.id].job.attempts == e.job.attempts)
    && (e.phase == P.Returning(true) ==> e.job.attempts + 1 < maxAttempts)
  }

  predicate AllCurrent(s: State, execs: seq<P.Exec>, maxAttempts: int) {
    forall i :: 0 <= i < |execs| ==> Current(s, execs[i], maxAttempts)
  }

  /** Ownership only begins with a claim, and while it lasts no attempt is spent. */
  lemma OwnedAfter(s: State, op: Op, id: JobId, owner: string)
    requires Filed(s) && Owned(JobStore.Step(s, op), id, owner)
    ensures || (Owned(s, id, owner) && JobStore.Step(s, op).jobs[id].job.attempts == s.jobs[id].job.attempts)
            || (op.OpClaim? && op.owner == owner && Next(s, op.now) == Some(id))
  {
    if id !in s.jobs {
      NewJobsAreQueued(s, op, id);
    }
  }

  lemma CurrentStep(s: State, op: Op, e: P.Exec, maxAttempts: int)
    requires Filed(s) && Current(s, e, maxAttempts)
    requires op.OpClaim? ==> !InFlight(e) || e.job.owner != op.owner
    ensures Current(JobStore.Step(s, op), e, maxAttempts)
  {
    if Owned(JobStore.Step(s, op), e.job.id, e.job.owner) {
      OwnedAfter(s, op, e.job.id, e.job.owner);
    }
    hide JobStore.Step;
  }

  lemma ActCurrent(s: State, after: State, b: A.Books, e: P.Exec, act: P.Act, maxAttempts: int)
    requires P.Held(b, e) && P.Allowed(maxAttempts, e, act)
    ensures var e' := P.ActExec(s, after, b, e, act);
      e'.job == e.job && (e'.phase == P.Returning(true) ==> e.job.attempts + 1 < maxAttempts)
  {
    hide P.Admission, P.Refunded, P.Settlement, P.JobCancelled, Owned, A.CostOf, P.Observation;
  }

  lemma StepCurrent(sys: P.Sys, ev: P.Event, maxAttempts: int)
    requires Filed(sys.store) && AllCurrent(sys.store, sys.execs, maxAttempts)
    requires FreshOwner(sys, ev) && P.Enabled(sys, ev, maxAttempts)
    ensures AllCurrent(P.NextStore(sys, ev, maxAttempts), P.NextExecs(sys, ev, maxAttempts), maxAttempts)
  {
    var after := P.NextStore(sys, ev, maxAttempts);
    forall j | 0 <= j < |sys.execs| ensures Current(after, sys.execs[j], maxAttempts) {
      if P.Effect(sys, ev, maxAttempts).Some? {
        CurrentStep(sys.store, P.Effect(sys, ev, maxAttempts).value, sys.execs[j], maxAttempts);
      }
    }
    match ev {
      case Execute(i, act) =>
        ActCurrent(sys.store, after, sys.books, sys.execs[i], act, maxAttempts);
        hide JobStore.Step, P.ActExec, P.NextStore, P.Allowed;
        assert InFlight(sys.execs[i]) by { ActsInFlight(maxAttempts, sys.execs[i], act); }
      case _ =>
    }
  }

  lemma ActsInFlight(maxAttempts: int, e: P.Exec, act: P.Act)
    requires P.Allowed(maxAttempts, e, act)
    ensures InFlight(e)
  {
  }

  /** The guard on the snapshot is a guard on the stored count. */
  lemma StepGuarded(sys: P.Sys, ev: P.Event, maxAttempts: int)
    requires Filed(sys.store) && AllCurrent(sys.store, sys.execs, maxAttempts) && P.Enabled(sys, ev, maxAttempts)
    requires P.Effect(sys, ev, maxAttempts).Some?
    ensures Guarded(sys.store, P.Effect(sys, ev, maxAttempts).value, maxAttempts)
  {
    if ev.Execute? {
      assert Current(sys.store, sys.execs[ev.i], maxAttempts);
    }
  }

  // ---- The exact condition ----

  /** A charged return that lands meets a stored count that leaves an attempt. */
  predicate ReturnPasses(sys: P.Sys, ev: P.Event, maxAttempts: int) {
    P.Enabled(sys, ev, maxAttempts) && P.Effect(sys, ev, maxAttempts).Some? ==>
      var op := P.Effect(sys, ev, maxAttempts).value;
      op.OpRequeue? && op.bump && Owned(sys.store, op.id, op.owner) ==>
        sys.store.jobs[op.id].job.attempts + 1 < maxAttempts
  }

  ghost predicate ReturnsPass(sys: P.Sys, evs: seq<P.Event>, maxAttempts: int)
    requires Filed(sys.store)
    decreases |evs|
  {
    evs == [] ||
    (P.StepKeepsFiled(sys, evs[0], maxAttempts);
     ReturnPasses(sys, evs[0], maxAttempts) && ReturnsPass(P.Step(sys, evs[0], maxAttempts), evs[1..], maxAttempts))
  }

  ghost predicate AlwaysBounded(sys: P.Sys, evs: seq<P.Event>, maxAttempts: int)
    requires Filed(sys.store)
    decreases |evs|
  {
    Bounded(sys.store, maxAttempts) &&
    (evs == [] ||
     (P.StepKeepsFiled(sys, evs[0], maxAttempts);
      AlwaysBounded(P.Step(sys, evs[0], maxAttempts), evs[1..], maxAttempts)))
  }

  lemma StepBoundedIff(sys: P.Sys, ev: P.Event, maxAttempts: int)
    requires Filed(sys.store) && maxAttempts >= 1 && Bounded(sys.store, maxAttempts)
    ensures Bounded(P.Step(sys, ev, maxAttempts).store, maxAttempts) <==> ReturnPasses(sys, ev, maxAttempts)
  {
    if P.Enabled(sys, ev, maxAttempts) && P.Effect(sys, ev, maxAttempts).Some? {
      var op := P.Effect(sys, ev, maxAttempts).value;
      assert op.OpRecover? ==> op.maxAttempts == maxAttempts;
      hide JobStore.Step, P.NextBooks, P.NextExecs, P.Ended, P.Enabled, P.Effect, Bounded;
      if op.OpRequeue? && op.bump && Owned(sys.store, op.id, op.owner) {
        ChargedReturnKeepsBoundIff(sys.store, op.id, op.owner, op.notBefore, op.now, maxAttempts);
      } else {
        StepBounded(sys.store, op, maxAttempts);
      }
    }
  }

  /** With owners shared or not: no live job ever reaches the maximum of attempts, at
      any moment of the run, if and only if every charged return that lands meets a
      stored count that leaves an attempt. */
  lemma {:induction false} BoundedIff(sys: P.Sys, evs: seq<P.Event>, maxAttempts: int)
    requires Filed(sys.store) && maxAttempts >= 1 && Bounded(sys.store, maxAttempts)
    ensures AlwaysBounded(sys, evs, maxAttempts) <==> ReturnsPass(sys, evs, maxAttempts)
    decreases |evs|
  {
    if evs != [] {
      P.StepKeepsFiled(sys, evs[0], maxAttempts);
      StepBoundedIff(sys, evs[0], maxAttempts);
      hide P.Step, Bounded, ReturnPasses;
      if Bounded(P.Step(sys, evs[0], maxAttempts).store, maxAttempts) {
        BoundedIff(P.Step(sys, evs[0], maxAttempts), evs[1..], maxAttempts);
      }
    }
  }

  /** Distinct owners are one way to get there. */
  lemma {:induction false} DistinctOwnersPass(sys: P.Sys, evs: seq<P.Event>, maxAttempts: int)
    requires Filed(sys.store) && AllCurrent(sys.store, sys.execs, maxAttempts) && DistinctOwners(sys, evs, maxAttempts)
    ensures ReturnsPass(sys, evs, maxAttempts)
    decreases |evs|
  {
    if evs != [] {
      var ev := evs[0];
      P.StepKeepsFiled(sys, ev, maxAttempts);
      if P.Enabled(sys, ev, maxAttempts) {
        StepCurrent(sys, ev, maxAttempts);
        if P.Effect(sys, ev, maxAttempts).Some? {
          StepGuarded(sys, ev, maxAttempts);
        }
      }
      hide JobStore.Step, P.NextBooks, P.NextExecs, P.Ended, P.Enabled, P.Effect, AllCurrent;
      DistinctOwnersPass(P.Step(sys, ev, maxAttempts), evs[1..], maxAttempts);
    }
  }

  lemma {:induction false} AlwaysThenLast(sys: P.Sys, evs: seq<P.Event>, maxAttempts: int)
    requires Filed(sys.store) && AlwaysBounded(sys, evs, maxAttempts)
    ensures Bounded(P.Run(sys, evs, maxAttempts).store, maxAttempts)
    decreases |evs|
  {
    if evs != [] {
      P.StepKeepsFiled(sys, evs[0], maxAttempts);
      hide P.Step, Bounded;
      AlwaysThenLast(P.Step(sys, evs[0], maxAttempts), evs[1..], maxAttempts);
    }
  }

  /** So with distinct owners in flight no live job reaches the maximum. */
  lemma RunBounded(sys: P.Sys, evs: seq<P.Event>, maxAttempts: int)
    requires Filed(sys.store) && maxAttempts >= 1 && Bounded(sys.store, maxAttempts)
    requires AllCurrent(sys.store, sys.execs, maxAttempts) && DistinctOwners(sys, evs, maxAttempts)
    ensures Bounded(P.Run(sys, evs, maxAttempts).store, maxAttempts)
  {
    DistinctOwnersPass(sys, evs, maxAttempts);
    BoundedIff(sys, evs, maxAttempts);
    AlwaysThenLast(sys, evs, maxAttempts);
  }

  /** Attempt accounting over every run with distinct owners in flight: a queued or
      running job has spent fewer attempts than the maximum, exactly as many as it
      was returned charged; its claims are its charged and free returns plus the
      claim it holds or ended with; and no job ever exceeds the maximum. */
  lemma AttemptAccounting(evs: seq<P.Event>, maxAttempts: int, id: JobId)
    requires maxAttempts >= 1 && DistinctOwners(P.START, evs, maxAttempts)
    ensures var s := P.Run(P.START, evs, maxAttempts).store;
      var ops := Trace(P.START, evs, maxAttempts);
      && Attempts(s, id) <= maxAttempts
      && (P.Live(s, id) ==> Attempts(s, id) == Tally(EMPTY, ops, id, ChargedReturn) < maxAttempts)
      && Tally(EMPTY, ops, id, Claimed)
         == Tally(EMPTY, ops, id, ChargedReturn) + Tally(EMPTY, ops, id, FreeReturn)
            + Tally(EMPTY, ops, id, EndedRunning)
            + Indicator(IsRunning(s, id))
  {
    RunBounded(P.START, evs, maxAttempts);
    StoreFollowsTrace(P.START, evs, maxAttempts);
    RunAccounts(EMPTY, Trace(P.START, evs, maxAttempts), id);
  }

  // ---- Shared owners ----

  /** The only job of a store, with the given record. */
  predicate Only(s: State, r: Rec) {
    s.jobs == map[0 := r] && r.job.id == 0
  }

  lemma RunSnoc(sys: P.Sys, evs: seq<P.Event>, ev: P.Event, maxAttempts: int)
    requires Filed(sys.store)
    ensures P.Run(sys, evs + [ev], maxAttempts) == P.Step(P.Run(sys, evs, maxAttempts), ev, maxAttempts)
    decreases |evs|
  {
    hide P.Step;
    if evs == [] {
      assert evs + [ev] == [ev];
      P.StepKeepsFiled(sys, ev, maxAttempts);
      assert P.Run(sys, [ev], maxAttempts) == P.Run(P.Step(sys, ev, maxAttempts), [], maxAttempts);
    } else {
      P.StepKeepsFiled(sys, evs[0], maxAttempts);
      assert (evs + [ev])[0] == evs[0] && (evs + [ev])[1..] == evs[1..] + [ev];
      RunSnoc(P.Step(sys, evs[0], maxAttempts), evs[1..], ev, maxAttempts);
    }
  }

  lemma ClaimOnly(sys: P.Sys, r: Rec, now: int)
    requires Filed(sys.store) && Only(sys.store, r) && Visible(r, now)
    ensures var sys' := P.Step(sys, P.Claim("w", 1, now), 2);
      && Only(sys'.store, ClaimRec(r, "w", 1, now))
      && sys'.execs == sys.execs + [P.Exec(ClaimRec(r, "w", 1, now).job, P.Phase.Claimed, None, P.Undecided, None)]
  {
    assert IsNext(sys.store, now, 0);
    NextIsUnique(sys.store, now, Next(sys.store, now).value, 0);
    assert P.NextStore(sys, P.Claim("w", 1, now), 2).jobs == map[0 := ClaimRec(r, "w", 1, now)];
  }

  lemma SweepOnly(sys: P.Sys, r: Rec, now: int)
    requires Filed(sys.store) && Only(sys.store, r) && Lapsed(r, now)
    ensures var sys' := P.Step(sys, P.Sweep("", now, P.Clean), 2);
      Only(sys'.store, RecoverRec(r, 2, "", now)) && sys'.execs == sys.execs
  {
    assert P.NextStore(sys, P.Sweep("", now, P.Clean), 2).jobs == map[0 := RecoverRec(r, 2, "", now)];
  }

  lemma ReturnOnly(sys: P.Sys, r: Rec, now: int)
    requires Filed(sys.store) && Only(sys.store, r) && r.job.status == Running && r.job.owner == "w"
    requires |sys.execs| > 0 && sys.execs[0].phase.Claimed? && sys.execs[0].handle.None?
    requires sys.execs[0].job.id == 0 && sys.execs[0].job.owner == "w" && sys.execs[0].job.attempts == 0
    ensures var sys' := P.Step(sys, P.Execute(0, P.HandBack(true, None, P.Clean, now)), 2);
      Only(sys'.store, RequeueRec(r, true, None, now))
  {
    var ev := P.Execute(0, P.HandBack(true, None, P.Clean, now));
    assert P.Enabled(sys, ev, 2);
    assert P.NextStore(sys, ev, 2).jobs == map[0 := RequeueRec(r, true, None, now)];
  }

  function StaleReturn(): seq<P.Event> {
    [P.Client(OpCreate(CreateInput(0, "s", "d", "r", "", 0, 0))), P.Claim("w", 1, 0), P.Sweep("", 2, P.Clean),
     P.Claim("w", 1, 2), P.Execute(0, P.HandBack(true, None, P.Clean, 3))]
  }

  /** When two executions in flight share an owner string, the stale one's charged
      return passes the compare-and-set and its own outdated guard: with two
      attempts allowed the job is queued again with both already spent. */
  lemma SharedOwnerBreaksBound()
    ensures var s := P.Run(P.START, StaleReturn(), 2).store;
      P.Live(s, 0) && Attempts(s, 0) == 2 && !Bounded(s, 2)
    ensures !DistinctOwners(P.START, StaleReturn(), 2)
  {
    hide P.Step, P.Run, DistinctOwners;
    var evs := StaleReturn();
    var input := CreateInput(0, "s", "d", "r", "", 0, 0);
    var r0 := Rec(NewJob(input), "r", None, None);
    var sys0 := P.Run(P.START, [], 2);
    assert sys0 == P.START by { EmptyRun(); }
    var sys1 := P.Step(sys0, evs[0], 2);
    CreateOnly(input);
    var r1 := ClaimRec(r0, "w", 1, 0);
    ClaimOnly(sys1, r0, 0);
    var sys2 := P.Step(sys1, evs[1], 2);
    P.StepKeepsFiled(sys1, evs[1], 2);
    SweepOnly(sys2, r1, 2);
    var sys3 := P.Step(sys2, evs[2], 2);
    P.StepKeepsFiled(sys2, evs[2], 2);
    var r2 := RecoverRec(r1, 2, "", 2);
    ClaimOnly(sys3, r2, 2);
    var sys4 := P.Step(sys3, evs[3], 2);
    P.StepKeepsFiled(sys3, evs[3], 2);
    ReturnOnly(sys4, ClaimRec(r2, "w", 1, 2), 3);
    RunSnoc(P.START, [], evs[0], 2);
    RunSnoc(P.START, evs[..1], evs[1], 2);
    RunSnoc(P.START, evs[..2], evs[2], 2);
    RunSnoc(P.START, evs[..3], evs[3], 2);
    RunSnoc(P.START, evs[..4], evs[4], 2);
    assert evs[..1] == [] + [evs[0]] && evs[..2] == evs[..1] + [evs[1]] && evs[..3] == evs[..2] + [evs[2]];
    assert evs[..4] == evs[..3] + [evs[3]] && evs == evs[..4] + [evs[4]];
    if DistinctOwners(P.START, evs, 2) {
      AttemptAccounting(evs, 2, 0);
    }
  }

  lemma EmptyRun()
    ensures P.Run(P.START, [], 2) == P.START
  {
  }

  lemma CreateOnly(input: CreateInput)
    requires input.jobId == 0 && input.keyHash == ""
    ensures var sys' := P.Step(P.START, P.Client(OpCreate(input)), 2);
      Filed(sys'.store) && Only(sys'.store, Rec(NewJob(input), input.request, None, None)) && sys'.execs == []
  {
  }
}

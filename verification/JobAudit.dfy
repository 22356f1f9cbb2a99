/** One audit record per terminal transition, over every interleaving of
    executions, sweeps, cancellations and other traffic, store faults included. */
module JobAudit {
  import opened Common
  import opened JobStore
  import opened JobRuns
  import P = JobProtocol
  import A = Accounting

  /** Commit winners that have yet to write their record. */
  predicate Winning(e: P.Exec) {
    e.verdict.Won? && (e.phase.Settling? || e.phase.Auditing?)
  }

  function Wins(execs: seq<P.Exec>, id: JobId): nat {
    P.CountExecs(execs, id, Winning)
  }

  /** Every terminal transition is accounted for: recorded, still owed by its
      winner, or lost with the answer that would have told the winner. */
  ghost predicate Balanced(sys: P.Sys) {
    forall id :: Records(sys, id) == Indicator(IsTerminal(sys.store, id))
  }

  function Records(sys: P.Sys, id: JobId): nat {
    sys.audit[id] + sys.owed[id] + sys.lost[id] + Wins(sys.execs, id)
  }

  predicate VerdictsMatchPhases(sys: P.Sys) {
    forall i :: 0 <= i < |sys.execs| ==> Staged(sys.execs[i])
  }

  predicate Staged(e: P.Exec) {
    && (e.phase.Auditing? ==> e.verdict.Won?)
    && (e.phase.Settling? ==> !e.verdict.Undecided?)
    && (e.phase.Claimed? || e.phase.Refused? || e.phase.Executing? || e.phase.Returning? || e.phase.Racing?
        || e.phase.Dropping?
        ==> e.verdict.Undecided?)
  }

  /** Which statements end which jobs. */
  predicate Ends(s: State, op: Op, id: JobId) {
    match op
    case OpCancel(k, _) => id == k && P.Live(s, k)
    case OpSucceed(k, owner, _, _) => id == k && Owned(s, k, owner)
    case OpFail(k, owner, _, _) => id == k && Owned(s, k, owner)
    case OpRecover(maxAttempts, _, now) => id in P.Failing(s, now, maxAttempts)
    case _ => false
  }

  lemma TerminalChange(s: State, op: Op, id: JobId)
    requires Filed(s)
    ensures Indicator(IsTerminal(JobStore.Step(s, op), id)) == Indicator(IsTerminal(s, id)) + Indicator(Ends(s, op, id))
  {
    if id in s.jobs {
      StepEdges(s, op, id);
    } else if id in JobStore.Step(s, op).jobs {
      NewJobsAreQueued(s, op, id);
    }
  }

  lemma StoreChange(sys: P.Sys, ev: P.Event, maxAttempts: int, id: JobId)
    requires Filed(sys.store) && P.Enabled(sys, ev, maxAttempts)
    ensures Indicator(IsTerminal(P.NextStore(sys, ev, maxAttempts), id))
         == Indicator(IsTerminal(sys.store, id))
            + (if P.EventReply(ev).LostBefore? then 0 else P.Ended(sys, ev, maxAttempts)[id])
  {
    var op := P.Effect(sys, ev, maxAttempts);
    if op.Some? {
      TerminalChange(sys.store, op.value, id);
    }
    hide JobStore.Step, IsTerminal;
  }

  lemma ExecWins(s: State, after: State, b: A.Books, e: P.Exec, act: P.Act, maxAttempts: int)
    requires P.Held(b, e) && P.Allowed(maxAttempts, e, act) && Staged(e)
    ensures var e' := P.ActExec(s, after, b, e, act);
      && e'.job == e.job && Staged(e')
      && Indicator(Winning(e')) + Indicator(act.WriteAudit?)
         == Indicator(Winning(e)) + Indicator(P.Commits(act) && P.ReplyOf(act).Clean?
                                              && Owned(s, e.job.id, e.job.owner))
  {
    hide P.Admission, P.Refunded, P.Settlement, P.JobCancelled, Owned, A.CostOf, P.Observation;
  }

  lemma WinsChange(sys: P.Sys, ev: P.Event, maxAttempts: int, id: JobId)
    requires Filed(sys.store) && P.Enabled(sys, ev, maxAttempts) && VerdictsMatchPhases(sys)
    ensures Wins(P.NextExecs(sys, ev, maxAttempts), id) + (if ev.Execute? && ev.act.WriteAudit?
                                                           then multiset{sys.execs[ev.i].job.id}[id] else 0)
         == Wins(sys.execs, id)
            + (if ev.Execute? && P.EventReply(ev).Clean? then P.Ended(sys, ev, maxAttempts)[id] else 0)
    ensures forall i :: 0 <= i < |P.NextExecs(sys, ev, maxAttempts)| ==> Staged(P.NextExecs(sys, ev, maxAttempts)[i])
  {
    hide P.ActExec, P.NextStore, Next, ClaimRec, P.CountExecs, Staged;
    match ev {
      case Claim(owner, lease, now) =>
        if Next(sys.store, now).Some? {
          var e := P.Exec(ClaimRec(sys.store.jobs[Next(sys.store, now).value], owner, lease, now).job, P.Phase.Claimed,
                          None, P.Undecided, None);
          assert Staged(e) by { NewExecStaged(e); }
          P.CountSnoc(sys.execs, e, id, Winning);
        }
      case Execute(i, act) =>
        ExecWins(sys.store, P.NextStore(sys, ev, maxAttempts), sys.books, sys.execs[i], act, maxAttempts);
        P.CountUpdate(sys.execs, i, P.ActExec(sys.store, P.NextStore(sys, ev, maxAttempts), sys.books, sys.execs[i],
                                              act), id, Winning);
      case _ =>
    }
  }

  lemma NewExecStaged(e: P.Exec)
    requires e.phase.Claimed? && e.verdict.Undecided?
    ensures Staged(e)
  {
  }

  lemma StepRecords(sys: P.Sys, ev: P.Event, maxAttempts: int, id: JobId)
    requires Filed(sys.store) && VerdictsMatchPhases(sys) && P.Enabled(sys, ev, maxAttempts)
    requires Records(sys, id) == Indicator(IsTerminal(sys.store, id))
    ensures Records(P.Step(sys, ev, maxAttempts), id) == Indicator(IsTerminal(P.Step(sys, ev, maxAttempts).store, id))
    ensures VerdictsMatchPhases(P.Step(sys, ev, maxAttempts))
  {
    hide P.NextStore, P.NextBooks, P.NextExecs, P.Ended, IsTerminal, Wins, P.Allowed, Staged;
    StoreChange(sys, ev, maxAttempts, id);
    WinsChange(sys, ev, maxAttempts, id);
  }

  lemma StepBalanced(sys: P.Sys, ev: P.Event, maxAttempts: int)
    requires Filed(sys.store) && Balanced(sys) && VerdictsMatchPhases(sys)
    ensures Balanced(P.Step(sys, ev, maxAttempts)) && VerdictsMatchPhases(P.Step(sys, ev, maxAttempts))
  {
    if P.Enabled(sys, ev, maxAttempts) {
      hide P.Step, IsTerminal, P.Enabled, Records, VerdictsMatchPhases;
      forall id ensures Records(P.Step(sys, ev, maxAttempts), id) ==
          Indicator(IsTerminal(P.Step(sys, ev, maxAttempts).store, id)) {
        StepRecords(sys, ev, maxAttempts, id);
      }
      StepRecords(sys, ev, maxAttempts, 0);
    }
  }

  lemma {:induction false} RunBalanced(sys: P.Sys, evs: seq<P.Event>, maxAttempts: int)
    requires Filed(sys.store) && Balanced(sys) && VerdictsMatchPhases(sys)
    ensures Balanced(P.Run(sys, evs, maxAttempts))
    decreases |evs|
  {
    if evs != [] {
      P.StepKeepsFiled(sys, evs[0], maxAttempts);
      StepBalanced(sys, evs[0], maxAttempts);
      hide P.Step, Balanced, VerdictsMatchPhases;
      RunBalanced(P.Step(sys, evs[0], maxAttempts), evs[1..], maxAttempts);
    }
  }

  predicate NoAnswerLost(evs: seq<P.Event>) {
    forall ev :: ev in evs ==> !P.EventReply(ev).LostAfter?
  }

  lemma {:induction false} NothingLost(sys: P.Sys, evs: seq<P.Event>, maxAttempts: int)
    requires Filed(sys.store) && sys.lost == multiset{} && NoAnswerLost(evs)
    ensures P.Run(sys, evs, maxAttempts).lost == multiset{}
    decreases |evs|
  {
    if evs != [] {
      assert evs[0] in evs;
      P.StepKeepsFiled(sys, evs[0], maxAttempts);
      hide P.NextStore, P.NextBooks, P.NextExecs, P.Ended, P.Enabled;
      NothingLost(P.Step(sys, evs[0], maxAttempts), evs[1..], maxAttempts);
    }
  }

  /** Nobody has a record left to write. */
  predicate Quiet(sys: P.Sys) {
    && sys.owed == multiset{}
    && forall i :: 0 <= i < |sys.execs| ==> !Winning(sys.execs[i])
  }

  /** The audit trail, for every run from an empty system. A job never has two
      records, and never has one before it reached completed, failed or cancelled.
      If no store answer was lost and every winner has taken its steps, each job
      that ended has exactly one record and no other job has any. */
  lemma AuditedExactlyOnce(evs: seq<P.Event>, maxAttempts: int, id: JobId)
    ensures var sys := P.Run(P.START, evs, maxAttempts);
      && sys.audit[id] <= 1
      && (sys.audit[id] == 1 ==> IsTerminal(sys.store, id))
      && (NoAnswerLost(evs) && Quiet(sys) ==> sys.audit[id] == Indicator(IsTerminal(sys.store, id)))
  {
    var sys := P.Run(P.START, evs, maxAttempts);
    RunBalanced(P.START, evs, maxAttempts);
    assert Records(sys, id) == Indicator(IsTerminal(sys.store, id));
    if NoAnswerLost(evs) && Quiet(sys) {
      NothingLost(P.START, evs, maxAttempts);
      P.CountNone(sys.execs, id, Winning);
    }
  }
}

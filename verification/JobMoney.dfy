/** Money across retries: what the executions of one job leave on the budget
    counters, over every interleaving and with ledger faults anywhere. */
module JobMoney {
  import opened Common
  import opened JobStore
  import opened JobRuns
  import opened JobAudit
  import P = JobProtocol
  import A = Accounting
  import B = Budget
  import L = Ledger
  import Cost
  import Int64

  // ---- What one execution has on the counters ----

  /** The counter reservation an execution charged, if any. */
  function Number(e: P.Exec): Option<nat> {
    if e.handle.Some? then e.handle.value.charged else None
  }

  predicate Booked(b: A.Books, e: P.Exec) {
    Number(e).Some? ==> B.Known(b.budget, Number(e).value)
  }

  function EntryOf(b: A.Books, e: P.Exec): B.Entry
    requires Booked(b, e) && Number(e).Some?
  {
    b.budget.log[Number(e).value - 1]
  }

  /** The amount its reservation holds on each of its counters. */
  function OnCounters(b: A.Books, e: P.Exec): int
    requires Booked(b, e)
  {
    if Number(e).None? then 0 else EntryOf(b, e).estimate + EntryOf(b, e).fin.GetOr(0)
  }

  /** What a settled outcome should cost: exactly the reported usage when that
      could be priced, otherwise the reserved estimate. */
  function Billing(b: A.Books, e: P.Exec): int
    requires Booked(b, e)
  {
    if Number(e).None? then 0 else e.billed.GetOr(EntryOf(b, e).estimate)
  }

  predicate Open(e: P.Exec) {
    e.phase.Executing? || e.phase.Racing? || e.phase.Dropping? || e.phase.Settling?
  }

  /** The money invariant of one execution. */
  predicate Sound(b: A.Books, e: P.Exec) {
    && Staged(e)
    && Booked(b, e)
    && (Number(e).Some? ==> 0 < EntryOf(b, e).estimate <= Int64.MAX)
    && (e.phase.Claimed? || e.phase.Refused? ==> e.handle.None? && e.billed.None?)
    && (Open(e) ==>
      e.billed.None? && (e.handle.Some? ==> e.handle.value.Open()) && (Number(e).Some? ==> EntryOf(b, e).fin.None?))
    && (e.phase.Returning? ==> OnCounters(b, e) == 0)
    && (e.phase.Auditing? ==> OnCounters(b, e) == Billing(b, e))
    && (e.phase.Done? ==> OnCounters(b, e) == if e.verdict.Undecided? then 0 else Billing(b, e))
  }

  lemma SoundFrame(b: A.Books, b': A.Books, e: P.Exec)
    requires Sound(b, e)
    requires Number(e).Some? ==> B.Known(b'.budget, Number(e).value) && EntryOf(b', e) == EntryOf(b, e)
    ensures Sound(b', e)
  {
  }

  // ---- What the accounting calls do to log entries ----

  /** The log only grows, and entry n is untouched. */
  predicate Keeps(g: B.Gate, g': B.Gate, n: nat) {
    |g.log| <= |g'.log| && (B.Known(g, n) ==> g'.log[n - 1] == g.log[n - 1])
  }

  lemma RefundEffect(b: A.Books, e: P.Exec, fault: bool, n: nat)
    requires Sound(b, e) && Open(e)
    ensures var b' := P.Refund(b, e, fault);
      && |b'.budget.log| == |b.budget.log|
      && (Number(e) != Some(n) ==> Keeps(b.budget, b'.budget, n))
      && (Number(e).Some? ==>
            b'.budget.log[Number(e).value - 1] == EntryOf(b, e).(fin := Some(-EntryOf(b, e).estimate)))
    ensures P.Refunded(b, e, fault).Some? <==> e.handle.Some?
    ensures e.handle.Some? ==> P.Refunded(b, e, fault).value.charged == e.handle.value.charged
  {
  }

  lemma AdmissionEffect(b: A.Books, e: P.Exec, t: P.Terms, n: nat)
    ensures var a := P.Admission(b, e, t);
      && Keeps(b.budget, a.books.budget, n)
      && (a.outcome.Admitted? ==>
            var h := a.outcome.handle;
            && h.Open()
            && (h.charged.Some? ==>
                  && h.charged.value == |b.budget.log| + 1 == |a.books.budget.log|
                  && a.books.budget.log[h.charged.value - 1].fin.None?
                  && 0 < a.books.budget.log[h.charged.value - 1].estimate <= Int64.MAX))
  {
    var a := P.Admission(b, e, t);
    if a.outcome.Admitted? {
      A.AdmissionIsCharged(b, t.wired, t.enforcement, t.policy, t.price,
                           A.Request(P.JobKey(e.job.id), t.subject, t.tenant, t.stamp, t.at, t.estimate),
                           t.ledgerFault);
      if a.outcome.handle.charged.Some? {
        A.CostIsAnAmount(t.price.value.value, t.estimate);
      }
    }
    hide Cost.Cost, B.BudgetKeys, B.Capped, B.Charge, B.FirstRefusal;
  }

  lemma SettlementEffect(b: A.Books, e: P.Exec, act: P.Act, n: nat)
    requires Sound(b, e) && act.SettleCall? && e.phase.Settling? && e.handle.Some?
    ensures var step := P.Settlement(b, e, act);
      var p := if P.Observation(e).Reported() && act.price.Got? then act.price.value else None;
      && |step.books.budget.log| == |b.budget.log|
      && (Number(e) != Some(n) ==> Keeps(b.budget, step.books.budget, n))
      && step.handle.charged == e.handle.value.charged
      && (!step.ok ==> step.books == b && step.handle == e.handle.value)
      && (step.ok && Number(e).Some? ==>
            var entry := step.books.budget.log[Number(e).value - 1];
            && entry.estimate == EntryOf(b, e).estimate
            && entry.estimate + entry.fin.GetOr(0) == A.CostOf(P.Observation(e), p).GetOr(entry.estimate))
  {
    var p := if P.Observation(e).Reported() && act.price.Got? then act.price.value else None;
    if p.Some? {
      A.CostIsAnAmount(p.value, P.Observation(e));
    }
    hide Cost.Cost, A.FinalOf;
  }

  // ---- One act ----

  /** An execution reserves for its own job, subject and tenant. */
  lemma ReservesForItsJob(b: A.Books, e: P.Exec, t: P.Terms)
    requires P.Admission(b, e, t).outcome.Admitted?
    ensures var a := P.Admission(b, e, t);
      && |a.books.ledger| == |b.ledger| + 1
      && var row := a.books.ledger[|b.ledger|];
      && row.requestId.None? && row.jobId == Some("resp_" + P.Digits(e.job.id)) && row.subject == t.subject
      && row.createdAt == t.at
      && (a.outcome.handle.charged.Some? ==>
            && t.policy.Got? && B.Known(a.books.budget, a.outcome.handle.charged.value)
            && var keys, caps := a.books.budget.log[a.outcome.handle.charged.value - 1].keys, t.policy.value.limits;
            && (B.SubjectDay(t.subject, t.stamp) in keys <==> caps.subjectDaily > 0)
            && (B.SubjectMonth(t.subject, t.stamp) in keys <==> caps.subjectMonthly > 0)
            && (B.TenantDay(t.tenant, t.stamp) in keys <==> caps.tenantDaily > 0)
            && (B.TenantMonth(t.tenant, t.stamp) in keys <==> caps.tenantMonthly > 0))
  {
    A.AdmissionIsItsOwn(b, t.wired, t.enforcement, t.policy, t.price,
                        A.Request(P.JobKey(e.job.id), t.subject, t.tenant, t.stamp, t.at, t.estimate), t.ledgerFault);
    hide A.Admit, P.Digits, B.SubjectDay, B.SubjectMonth, B.TenantDay, B.TenantMonth;
  }

  /** What an execution pays, by what it saw. A settlement that lands leaves on the
      counters, and on the row, the exact cost of the usage the provider reported at
      the price then in force; when none was reported, or it cannot be priced, the
      counters keep the estimate and the row has no cost. One that fails changes
      nothing. */
  lemma PaysForWhatItSaw(s: State, after: State, b: A.Books, e: P.Exec, act: P.Act)
    requires Sound(b, e) && P.Held(b, e) && act.SettleCall? && e.phase.Settling? && Number(e).Some?
    requires act.price.Got? && act.price.value.Some? ==> Cost.Listed(act.price.value.value)
    requires e.phase.usage.Some? ==>
      var u := e.phase.usage.value;
      Cost.Countable(u) && Cost.NonNegative(u.prompt) && Cost.NonNegative(u.completion) && Cost.NonNegative(u.reasoning)
    ensures var e', b' := P.ActExec(s, after, b, e, act), P.ActBooks(b, e, act);
      var u := if e.phase.usage.Some? then e.phase.usage.value else Cost.Usage(None, None, None, None);
      var reported := u.prompt.Some? || u.completion.Some? || u.reasoning.Some? || u.cached.Some?;
      var cost := if reported && act.price.Got? && act.price.value.Some?
                     && Cost.Chargeable(act.price.value.value, u)
                     && Cost.ExactTotal(act.price.value.value, u) <= Int64.MAX
                  then Some(Cost.ExactTotal(act.price.value.value, u)) else None;
      && e'.handle.Some? && Booked(b', e')
      && (e'.handle.value.settled ==>
            && e'.billed == cost && OnCounters(b', e') == cost.GetOr(EntryOf(b, e).estimate)
            && |b'.ledger| == |b.ledger|
            && forall n :: 0 <= n < |b.ledger| && b'.ledger[n] != b.ledger[n] ==>
                 b'.ledger[n].final.Some? && b'.ledger[n].final.value.usage == u
                 && b'.ledger[n].final.value.cost == cost)
      && (!e'.handle.value.settled ==> b' == b && e'.billed.None?)
  {
    var u := if e.phase.usage.Some? then e.phase.usage.value else Cost.Usage(None, None, None, None);
    assert P.Observation(e) == u;
    A.SettlementCharges(b, e.handle.value, u, act.price, act.at, act.fault);
    if u.Reported() && act.price.Got? && act.price.value.Some? {
      Cost.CostIsExact(act.price.value.value, u);
    }
    SettledLength(b, e.handle.value, u, act);
    hide A.SettleOn, P.Observation, Cost.Cost, Cost.ExactTotal, Cost.Chargeable, Cost.Listed, Cost.Countable;
  }

  lemma SettledLength(b: A.Books, h: A.Handle, u: Cost.Usage, act: P.Act)
    requires A.Held(b, h) && act.SettleCall?
    ensures |A.SettleOn(b, h, u, act.price, act.at, act.fault).books.ledger| == |b.ledger|
  {
    hide Cost.Cost, A.FinalOf, A.CostOf;
  }

  /** An act keeps its own execution's money invariant and every other
      reservation's entry, and only ever acquires a brand-new reservation. */
  predicate KeepsSound(b: A.Books, e: P.Exec, b': A.Books, e': P.Exec) {
    Sound(b', e') && (Number(e') == Number(e) || Number(e') == Some(|b.budget.log| + 1))
  }

  lemma SettleSound(s: State, after: State, b: A.Books, e: P.Exec, act: P.Act)
    requires Sound(b, e) && P.Held(b, e) && act.SettleCall? && e.phase.Settling?
    ensures KeepsSound(b, e, P.ActBooks(b, e, act), P.ActExec(s, after, b, e, act))
  {
    if e.handle.Some? {
      SettlementEffect(b, e, act, 0);
    }
    hide P.Settlement, A.CostOf, P.Observation;
  }

  lemma RefundSound(s: State, after: State, b: A.Books, e: P.Exec, act: P.Act, maxAttempts: int)
    requires Sound(b, e) && P.Held(b, e) && P.Allowed(maxAttempts, e, act)
    requires act.Surrender? || act.Drop? || act.Unencodable?
    ensures KeepsSound(b, e, P.ActBooks(b, e, act), P.ActExec(s, after, b, e, act))
  {
    if Open(e) {
      RefundEffect(b, e, act.fault, 0);
    }
    hide P.Refund, P.Refunded;
  }

  lemma ReserveSound(s: State, after: State, b: A.Books, e: P.Exec, t: P.Terms)
    requires Sound(b, e) && P.Held(b, e) && e.phase.Claimed?
    ensures KeepsSound(b, e, P.ActBooks(b, e, P.Reserve(t)), P.ActExec(s, after, b, e, P.Reserve(t)))
  {
    AdmissionEffect(b, e, t, 0);
    hide P.Admission;
  }

  lemma ActSound(s: State, after: State, b: A.Books, e: P.Exec, act: P.Act, maxAttempts: int)
    requires Sound(b, e) && P.Held(b, e) && P.Allowed(maxAttempts, e, act)
    ensures KeepsSound(b, e, P.ActBooks(b, e, act), P.ActExec(s, after, b, e, act))
  {
    match act {
      case Reserve(t) => ReserveSound(s, after, b, e, t);
      case Unencodable(_) => RefundSound(s, after, b, e, act, maxAttempts);
      case Surrender(_, _) => RefundSound(s, after, b, e, act, maxAttempts);
      case Drop(_) => RefundSound(s, after, b, e, act, maxAttempts);
      case SettleCall(_, _, _) => SettleSound(s, after, b, e, act);
      case _ =>
    }
    hide P.Admission, P.Refund, P.Refunded, P.Settlement, P.AfterSettle, P.JobCancelled, Owned;
  }

  lemma ActFrame(b: A.Books, e: P.Exec, act: P.Act, maxAttempts: int, n: nat)
    requires Sound(b, e) && P.Held(b, e) && P.Allowed(maxAttempts, e, act) && Number(e) != Some(n)
    ensures Keeps(b.budget, P.ActBooks(b, e, act).budget, n)
  {
    match act {
      case Reserve(t) => AdmissionEffect(b, e, t, n);
      case Unencodable(fault) => if e.phase.Executing? { RefundEffect(b, e, fault, n); }
      case Surrender(_, fault) => RefundEffect(b, e, fault, n);
      case Drop(fault) => RefundEffect(b, e, fault, n);
      case SettleCall(_, _, _) => if e.handle.Some? { SettlementEffect(b, e, act, n); }
      case _ =>
    }
    hide P.Admission, P.Refund, P.Settlement, A.CostOf, P.Observation, Staged;
  }

  lemma TrafficFrame(g: B.Gate, op: B.Op, n: nat)
    requires op.OpReserve? || op.id != n
    ensures Keeps(g, B.Step(g, op), n)
  {
    hide B.BudgetKeys, B.Capped, B.Charge, B.FirstRefusal, B.Adjust;
  }

  // ---- The system invariant ----

  predicate AllSound(b: A.Books, execs: seq<P.Exec>) {
    forall i :: 0 <= i < |execs| ==> Sound(b, execs[i])
  }

  /** No two executions share a reservation. */
  predicate Separate(execs: seq<P.Exec>) {
    forall i, j :: 0 <= i < j < |execs| && Number(execs[i]).Some? ==> Number(execs[i]) != Number(execs[j])
  }

  /** A winner's job ended in completed or failed (and may have expired since); an
      observer's job was cancelled. */
  predicate Vindicated(s: State, e: P.Exec) {
    && e.job.id in s.jobs
    && (e.verdict.Won? ==> Finished(s, e.job.id))
    && (e.verdict.Observed? ==> P.JobCancelled(s, e.job.id))
  }

  predicate Finished(s: State, id: JobId) {
    id in s.jobs && (s.jobs[id].job.status == Completed || s.jobs[id].job.status == Failed
                     || s.jobs[id].job.status == Expired)
  }

  predicate OneWinner(execs: seq<P.Exec>) {
    forall i, j :: 0 <= i < j < |execs| && execs[i].verdict.Won? && execs[j].verdict.Won?
        ==> execs[i].job.id != execs[j].job.id
  }

  predicate AllVindicated(s: State, execs: seq<P.Exec>) {
    forall i :: 0 <= i < |execs| ==> Vindicated(s, execs[i])
  }

  ghost predicate Inv(sys: P.Sys) {
    && Filed(sys.store)
    && AllSound(sys.books, sys.execs) && Separate(sys.execs)
    && AllVindicated(sys.store, sys.execs) && OneWinner(sys.execs)
  }

  lemma MoneyStep(sys: P.Sys, ev: P.Event, maxAttempts: int)
    requires Filed(sys.store) && P.Enabled(sys, ev, maxAttempts)
    requires AllSound(sys.books, sys.execs) && Separate(sys.execs)
    ensures AllSound(P.NextBooks(sys, ev, maxAttempts), P.NextExecs(sys, ev, maxAttempts))
    ensures Separate(P.NextExecs(sys, ev, maxAttempts))
  {
    hide P.ActExec, P.ActBooks, P.NextStore, Sound, P.Held, B.Step, L.Step;
    var execs' := P.NextExecs(sys, ev, maxAttempts);
    var b' := P.NextBooks(sys, ev, maxAttempts);
    match ev {
      case Execute(i, act) =>
        var e := sys.execs[i];
        SoundNumbers(sys.books, sys.execs);
        ActSound(sys.store, P.NextStore(sys, ev, maxAttempts), sys.books, e, act, maxAttempts);
        forall j | 0 <= j < |execs'| ensures Sound(b', execs'[j]) {
          if j != i && Number(sys.execs[j]).Some? {
            ActFrame(sys.books, e, act, maxAttempts, Number(sys.execs[j]).value);
          }
          if j != i {
            SoundFrame(sys.books, b', sys.execs[j]);
          }
        }
      case Traffic(op, row) =>
        forall j | 0 <= j < |execs'| ensures Sound(b', execs'[j]) {
          if Number(execs'[j]).Some? {
            assert P.Holds(execs'[j], Number(execs'[j]).value);
            TrafficFrame(sys.books.budget, op, Number(execs'[j]).value);
          }
          SoundNumbers(sys.books, sys.execs);
          SoundFrame(sys.books, b', execs'[j]);
        }
      case Claim(owner, lease, now) =>
        if Next(sys.store, now).Some? {
          NewExecSound(sys.books, execs'[|sys.execs|]);
        }
      case _ =>
    }
  }

  lemma NewExecSound(b: A.Books, e: P.Exec)
    requires e.phase.Claimed? && e.handle.None? && e.verdict.Undecided? && e.billed.None?
    ensures Sound(b, e)
  {
  }

  lemma SoundNumbers(b: A.Books, execs: seq<P.Exec>)
    requires AllSound(b, execs)
    ensures forall i :: 0 <= i < |execs| ==> Booked(b, execs[i])
  {
  }

  // ---- Verdicts and the store ----

  /** Terminal facts survive every statement. */
  lemma VindicatedStep(s: State, op: Op, e: P.Exec)
    requires Filed(s) && Vindicated(s, e)
    ensures Vindicated(JobStore.Step(s, op), e)
  {
    StepFiled(s, op);
    StepEdges(s, op, e.job.id);
    hide JobStore.Step;
  }

  /** The statement of a winning commit ends its job in completed or failed. */
  lemma CommitFinishes(s: State, op: Op, id: JobId, owner: string)
    requires Filed(s) && Owned(s, id, owner)
    requires (op.OpSucceed? || op.OpFail?) && op.id == id && op.owner == owner
    ensures Finished(JobStore.Step(s, op), id)
  {
  }

  lemma NewVerdict(s: State, after: State, b: A.Books, e: P.Exec, act: P.Act, maxAttempts: int)
    requires P.Held(b, e) && P.Allowed(maxAttempts, e, act)
    ensures var e' := P.ActExec(s, after, b, e, act);
      && (e'.verdict == e.verdict
          || (e'.verdict.Won? && P.Commits(act) && P.ReplyOf(act).Clean? && Owned(s, e.job.id, e.job.owner))
          || (e'.verdict.Observed? && P.JobCancelled(after, e.job.id)))
  {
    hide P.Admission, P.Refunded, P.Settlement, P.JobCancelled, Owned, A.CostOf, P.Observation;
  }

  lemma ActVindicated(sys: P.Sys, i: nat, act: P.Act, maxAttempts: int)
    requires Filed(sys.store) && P.Enabled(sys, P.Execute(i, act), maxAttempts)
    requires AllVindicated(sys.store, sys.execs) && AllSound(sys.books, sys.execs)
    ensures var after := P.NextStore(sys, P.Execute(i, act), maxAttempts);
      var e' := P.ActExec(sys.store, after, sys.books, sys.execs[i], act);
      && Vindicated(after, e')
      && (e'.verdict.Won? ==> sys.execs[i].verdict.Won? || Owned(sys.store, e'.job.id, sys.execs[i].job.owner))
  {
    var ev := P.Execute(i, act);
    var e := sys.execs[i];
    var after := P.NextStore(sys, ev, maxAttempts);
    var op := P.Effect(sys, ev, maxAttempts);
    assert Vindicated(sys.store, e) && Sound(sys.books, e);
    ExecWins(sys.store, after, sys.books, e, act, maxAttempts);
    NewVerdict(sys.store, after, sys.books, e, act, maxAttempts);
    if op.Some? {
      VindicatedStep(sys.store, op.value, e);
      if P.Commits(act) && Owned(sys.store, e.job.id, e.job.owner) {
        CommitFinishes(sys.store, op.value, e.job.id, e.job.owner);
      }
    }
    hide JobStore.Step, P.ActExec, Sound;
  }

  lemma VerdictStep(sys: P.Sys, ev: P.Event, maxAttempts: int)
    requires Inv(sys) && P.Enabled(sys, ev, maxAttempts)
    ensures AllVindicated(P.NextStore(sys, ev, maxAttempts), P.NextExecs(sys, ev, maxAttempts))
  {
    var after := P.NextStore(sys, ev, maxAttempts);
    forall j | 0 <= j < |sys.execs| ensures Vindicated(after, sys.execs[j]) {
      if P.Effect(sys, ev, maxAttempts).Some? {
        VindicatedStep(sys.store, P.Effect(sys, ev, maxAttempts).value, sys.execs[j]);
      }
    }
    match ev {
      case Execute(i, act) => ActVindicated(sys, i, act, maxAttempts);
      case Claim(owner, lease, now) => P.StepKeepsFiled(sys, ev, maxAttempts);
      case _ =>
    }
    hide JobStore.Step, P.ActExec, P.ActBooks, P.NextStore, P.Allowed, Sound, Separate, OneWinner, P.Ended, P.NextBooks,
        P.Effect;
  }

  lemma OneWinnerStep(sys: P.Sys, ev: P.Event, maxAttempts: int)
    requires Inv(sys) && P.Enabled(sys, ev, maxAttempts)
    ensures OneWinner(P.NextExecs(sys, ev, maxAttempts))
  {
    var execs' := P.NextExecs(sys, ev, maxAttempts);
    match ev {
      case Execute(i, act) =>
        ActVindicated(sys, i, act, maxAttempts);
        assert Vindicated(sys.store, sys.execs[i]);
        forall j | 0 <= j < |execs'| && j != i && execs'[j].verdict.Won? && execs'[i].verdict.Won?
          ensures execs'[j].job.id != execs'[i].job.id
        {
          assert Vindicated(sys.store, sys.execs[j]);
        }
      case _ =>
    }
    hide JobStore.Step, P.ActExec, P.ActBooks, P.NextStore, P.Allowed, Sound, Separate, P.Ended, P.NextBooks, P.Effect;
  }

  lemma StepInv(sys: P.Sys, ev: P.Event, maxAttempts: int)
    requires Inv(sys)
    ensures Inv(P.Step(sys, ev, maxAttempts))
  {
    P.StepKeepsFiled(sys, ev, maxAttempts);
    if P.Enabled(sys, ev, maxAttempts) {
      VerdictStep(sys, ev, maxAttempts);
      OneWinnerStep(sys, ev, maxAttempts);
      MoneyStep(sys, ev, maxAttempts);
    }
    hide P.NextStore, P.NextBooks, P.NextExecs, P.Ended, P.Enabled, AllSound, AllVindicated, Separate, OneWinner;
  }

  lemma {:induction false} RunInv(sys: P.Sys, evs: seq<P.Event>, maxAttempts: int)
    requires Inv(sys)
    ensures Inv(P.Run(sys, evs, maxAttempts))
    decreases |evs|
  {
    if evs != [] {
      StepInv(sys, evs[0], maxAttempts);
      hide P.Step;
      RunInv(P.Step(sys, evs[0], maxAttempts), evs[1..], maxAttempts);
    }
  }

  // ---- The theorem ----

  /** Everything the executions of one job hold on the counters. */
  function JobCharge(b: A.Books, execs: seq<P.Exec>, id: JobId): int
    requires forall i :: 0 <= i < |execs| ==> Booked(b, execs[i])
  {
    if execs == [] then 0
    else
      var n := |execs| - 1;
      JobCharge(b, execs[..n], id) + if execs[n].job.id == id then OnCounters(b, execs[n]) else 0
  }

  /** The commit winner of a job, if one of the executions is it. */
  predicate WinnerOf(execs: seq<P.Exec>, id: JobId, w: int) {
    0 <= w < |execs| && execs[w].job.id == id && execs[w].verdict.Won?
  }

  predicate AllDone(execs: seq<P.Exec>, id: JobId) {
    forall i :: 0 <= i < |execs| && execs[i].job.id == id ==> execs[i].phase.Done?
  }

  lemma {:induction false} OnlyWinnerCharged(b: A.Books, execs: seq<P.Exec>, id: JobId)
    requires forall i :: 0 <= i < |execs| ==> Booked(b, execs[i])
    requires forall i ::
      0 <= i < |execs| && execs[i].job.id == id && !execs[i].verdict.Won? ==> OnCounters(b, execs[i]) == 0
    requires OneWinner(execs)
    ensures forall w :: WinnerOf(execs, id, w) ==> JobCharge(b, execs, id) == OnCounters(b, execs[w])
    ensures (forall w :: !WinnerOf(execs, id, w)) ==> JobCharge(b, execs, id) == 0
  {
    if execs != [] {
      var n := |execs| - 1;
      var init := execs[..n];
      OnlyWinnerCharged(b, init, id);
      assert forall w :: w < n ==> (WinnerOf(init, id, w) <==> WinnerOf(execs, id, w));
      if WinnerOf(execs, id, n) {
        assert forall w :: !WinnerOf(init, id, w);
      }
      forall w | WinnerOf(execs, id, w) ensures JobCharge(b, execs, id) == OnCounters(b, execs[w]) {
        if w < n {
          assert WinnerOf(init, id, w) && init[w] == execs[w];
        }
      }
    }
  }

  /** What one ended execution of a finished job holds. */
  lemma DoneCharge(sys: P.Sys, i: nat)
    requires Inv(sys) && i < |sys.execs| && sys.execs[i].phase.Done? && Finished(sys.store, sys.execs[i].job.id)
    ensures Booked(sys.books, sys.execs[i])
    ensures OnCounters(sys.books, sys.execs[i]) == if sys.execs[i].verdict.Won? then Billing(sys.books, sys.execs[i])
        else 0
  {
    assert Sound(sys.books, sys.execs[i]) && Vindicated(sys.store, sys.execs[i]);
  }

  /** Money conservation across retries. In every run from an empty system, with
      accounting and store faults anywhere: once a job is completed, failed or
      expired and its executions have ended, what they hold together on the budget
      counters is the commit winner's exact cost if it is known, the winner's
      estimate if it is not, and nothing if no execution won the commit. */
  lemma JobIsChargedOnce(evs: seq<P.Event>, maxAttempts: int, id: JobId)
    ensures var sys := P.Run(P.START, evs, maxAttempts);
      && (forall i :: 0 <= i < |sys.execs| ==> Booked(sys.books, sys.execs[i]))
      && (Finished(sys.store, id) && AllDone(sys.execs, id) ==>
            && (forall w :: WinnerOf(sys.execs, id, w) ==>
              JobCharge(sys.books, sys.execs, id) == Billing(sys.books, sys.execs[w]))
            && ((forall w :: !WinnerOf(sys.execs, id, w)) ==> JobCharge(sys.books, sys.execs, id) == 0))
  {
    var sys := P.Run(P.START, evs, maxAttempts);
    RunInv(P.START, evs, maxAttempts);
    assert Inv(sys) && OneWinner(sys.execs);
    SoundNumbers(sys.books, sys.execs);
    hide P.Run, Sound, Inv, Finished, Billing, OnCounters;
    if Finished(sys.store, id) && AllDone(sys.execs, id) {
      forall i | 0 <= i < |sys.execs| && sys.execs[i].job.id == id
        ensures OnCounters(sys.books, sys.execs[i]) == if sys.execs[i].verdict.Won?
            then Billing(sys.books, sys.execs[i]) else 0
      {
        DoneCharge(sys, i);
      }
      OnlyWinnerCharged(sys.books, sys.execs, id);
    }
  }

  /** While a job is still queued or running, every execution of it that has ended
      was refunded in full. */
  lemma LosersAreRefunded(evs: seq<P.Event>, maxAttempts: int, i: nat)
    requires i < |P.Run(P.START, evs, maxAttempts).execs|
    ensures var sys := P.Run(P.START, evs, maxAttempts);
      var e := sys.execs[i];
      && Booked(sys.books, e)
      && (e.phase.Done? && P.Live(sys.store, e.job.id) ==> OnCounters(sys.books, e) == 0)
  {
    var sys := P.Run(P.START, evs, maxAttempts);
    RunInv(P.START, evs, maxAttempts);
    assert Sound(sys.books, sys.execs[i]) && Vindicated(sys.store, sys.execs[i]);
  }

  // ---- The counters themselves ----

  /** Synchronous traffic carries int64 estimates and non-negative costs, as
      executions do. */
  predicate Amounts(ev: P.Event) {
    ev.Traffic? ==> B.Amounts(ev.charge)
  }

  /** Admission is a reservation, perhaps followed by its own release. */
  lemma AdmissionConserves(b: A.Books, e: P.Exec, t: P.Terms)
    requires B.Conserved(b.budget)
    ensures var g' := P.Admission(b, e, t).books.budget;
      B.Conserved(g') <==> B.TotalsFit(g'.log)
  {
    hide B.Conserved, B.TotalsFit, B.ReserveOn, B.ReleaseOn, B.BudgetKeys;
    B.ConservedFits(b.budget);
    if t.policy.Got? && t.price.Got? && A.EstimateMicros(t.policy.value, t.price.value, t.estimate).Some? {
      var micros := A.EstimateMicros(t.policy.value, t.price.value, t.estimate).value;
      A.CostIsAnAmount(t.price.value.value, t.estimate);
      var keys := B.BudgetKeys("", t.subject, t.tenant, t.stamp);
      var limits := t.policy.value.limits.InOrder();
      B.StepConservesIfFits(b.budget, B.OpReserve(t.subject, t.tenant, t.stamp, t.policy.value.limits, micros));
      if B.ReserveOn(b.budget, keys, limits, micros).1.Granted? {
        B.KeysDistinct("", t.subject, t.tenant, t.stamp);
        B.RollbackConserves(b.budget, keys, limits, micros);
        var g1 := B.ReserveOn(b.budget, keys, limits, micros).0;
        B.ConservedFits(B.ReleaseOn(g1, |g1.log|));
      }
    }
    ReservedNumber(b.budget, t);
    hide A.EstimateMicros;
  }

  lemma ReservedNumber(g: B.Gate, t: P.Terms)
    ensures forall keys, limits, micros :: |keys| == |limits| && B.ReserveOn(g, keys, limits, micros).1.Granted? ==>
              B.ReserveOn(g, keys, limits, micros).1.id == |g.log| + 1 == |B.ReserveOn(g, keys, limits, micros).0.log|
  {
  }

  /** The cost a settlement computes is an amount. */
  lemma SettledAmount(n: nat, usage: Cost.Usage, price: Option<Cost.Price>)
    ensures B.Amounts(B.OpSettle(n, A.CostOf(usage, price)))
  {
    if price.Some? {
      A.CostIsAnAmount(price.value, usage);
    }
    hide Cost.Cost;
  }

  /** An event keeps the counters right exactly when what is then charged to each
      counter still fits in int64. */
  lemma StepConserved(sys: P.Sys, ev: P.Event, maxAttempts: int)
    requires Inv(sys) && B.Conserved(sys.books.budget) && Amounts(ev)
    ensures var g' := P.Step(sys, ev, maxAttempts).books.budget;
      B.Conserved(g') <==> B.TotalsFit(g'.log)
  {
    hide B.Conserved, B.TotalsFit, B.ReleaseOn, B.SettleOn, B.Amounts, A.Admit, A.CostOf, P.NextStore, P.NextExecs,
         P.Ended, P.Observation;
    B.ConservedFits(sys.books.budget);
    if P.Enabled(sys, ev, maxAttempts) {
      var g := sys.books.budget;
      match ev {
        case Traffic(op, _) => B.StepConservesIfFits(g, op);
        case Execute(i, act) =>
          var e := sys.execs[i];
          assert Sound(sys.books, e);
          if act.Reserve? {
            AdmissionConserves(sys.books, e, act.terms);
          }
          if Number(e).Some? {
            ReleaseAmount(Number(e).value);
            B.StepConservesIfFits(g, B.OpRelease(Number(e).value));
            if act.SettleCall? && e.phase.Settling? {
              var price := if P.Observation(e).Reported() && act.price.Got? then act.price.value else None;
              SettledAmount(Number(e).value, P.Observation(e), price);
              B.StepConservesIfFits(g, B.OpSettle(Number(e).value, A.CostOf(P.Observation(e), price)));
            }
          }
        case _ =>
      }
    }
  }

  lemma ReleaseAmount(n: nat)
    ensures B.Amounts(B.OpRelease(n))
  {
  }

  ghost predicate AlwaysConserved(sys: P.Sys, evs: seq<P.Event>, maxAttempts: int)
    requires Filed(sys.store)
    decreases |evs|
  {
    B.Conserved(sys.books.budget) &&
    (evs == [] ||
     (P.StepKeepsFiled(sys, evs[0], maxAttempts);
      AlwaysConserved(P.Step(sys, evs[0], maxAttempts), evs[1..], maxAttempts)))
  }

  ghost predicate AlwaysFit(sys: P.Sys, evs: seq<P.Event>, maxAttempts: int)
    requires Filed(sys.store)
    decreases |evs|
  {
    B.TotalsFit(sys.books.budget.log) &&
    (evs == [] ||
     (P.StepKeepsFiled(sys, evs[0], maxAttempts);
      AlwaysFit(P.Step(sys, evs[0], maxAttempts), evs[1..], maxAttempts)))
  }

  /** Through all of it, with synchronous traffic on the same counters, every
      counter equals at every moment the live estimates plus settled costs charged
      to it, if and only if those never add up to more than int64 holds. */
  lemma {:induction false} CountersConserved(sys: P.Sys, evs: seq<P.Event>, maxAttempts: int)
    requires Inv(sys) && B.Conserved(sys.books.budget) && forall ev :: ev in evs ==> Amounts(ev)
    ensures AlwaysConserved(sys, evs, maxAttempts) <==> AlwaysFit(sys, evs, maxAttempts)
    ensures AlwaysFit(sys, evs, maxAttempts) ==> B.Conserved(P.Run(sys, evs, maxAttempts).books.budget)
    decreases |evs|
  {
    B.ConservedFits(sys.books.budget);
    if evs != [] {
      assert evs[0] in evs && forall ev :: ev in evs[1..] ==> ev in evs;
      StepInv(sys, evs[0], maxAttempts);
      StepConserved(sys, evs[0], maxAttempts);
      hide P.Step, Amounts, B.Conserved, B.TotalsFit, Inv;
      var next := P.Step(sys, evs[0], maxAttempts);
      if B.Conserved(next.books.budget) {
        CountersConserved(next, evs[1..], maxAttempts);
      }
    }
  }
}

/** The pool's code, step by step (internal/async/worker.go) with the cancel handler
    (internal/httpapi/async.go): every store or accounting call is one atomic step
    of the protocol, and anything else may happen between two of them. Each method
    is proved to take only steps the protocol allows and to end its execution, so
    what is proved of all protocol runs holds of this code. */
module WorkerPool {
  import opened Common
  import S = JobStore
  import opened JobProtocol
  import A = Accounting
  import M = JobMoney
  import F = JobFields
  import Cost

  datatype Readmission = Fine | Transient | Fatal
  datatype Gate = Passed | Refusing | Faulty

  /** How the provider call ended: aborted, failed, or answered with the class of a
      response that cannot be delivered ("" when it can). */
  datatype Ending = Aborted | Errored(retryEligible: bool) | Answered(class_: string, usage: Option<Cost.Usage>)

  /** What one execution meets, in the order the code asks. */
  datatype Fate = Fate(
    decodes: bool, readmission: Readmission, limiter: Gate, limitsFault: bool, quota: Gate, metered: bool, terms: Terms,
    ending: Ending, encodes: bool, notBefore: Option<int>, commit: S.Commit, reply: Reply, now: int,
    lookFault: bool, refundFault: bool, settlePrice: A.Fetch<Option<Cost.Price>>, settleFault: bool, retryFault: bool,
    noise: nat -> seq<Event>)

  /** A claim that may still be failed or handed back without a reservation. */
  predicate PreExecution(p: Phase) {
    p.Claimed? || (p.Refused? && !Outage(p.error))
  }

  // ---- What the code does, as a list of steps ----

  /** What the execution learns on the way: the money gate's refusal, whether its
      commit won, whether a cancellation was found, whether settling was retried. */
  datatype Seen = Seen(error: Option<A.ReserveError>, won: bool, cancelled: bool, retried: bool)

  function VerdictOf(s: Seen): Verdict {
    if s.won then Won else if s.cancelled then Observed else Undecided
  }

  function SettleActs(f: Fate, retried: bool): seq<Act> {
    [SettleCall(f.settlePrice, f.now, f.settleFault)] + if retried
        then [SettleCall(f.settlePrice, f.now, f.retryFault)] else []
  }

  function HandoffActs(f: Fate, usage: Option<Cost.Usage>, s: Seen): seq<Act> {
    if !f.reply.Clean? then [Drop(f.refundFault)]
    else if s.won then SettleActs(f, s.retried) + [WriteAudit]
    else if usage.None? then [Drop(f.refundFault)]
    else [Look(f.now, f.now, f.lookFault)] + if s.cancelled then SettleActs(f, s.retried) else [Drop(f.refundFault)]
  }

  function FailureActs(f: Fate, s: Seen): seq<Act> {
    if !f.encodes then [Unencodable(false)]
    else [Reject(f.commit.(bump := true), f.reply, f.now)] + HandoffActs(f, None, s)
  }

  function ReturnActs(f: Fate, bump: bool): seq<Act> {
    [HandBack(bump, f.notBefore, f.reply, f.now)]
  }

  function RetryActs(f: Fate, attempts: nat, maxAttempts: int, s: Seen): seq<Act> {
    if attempts + 1 >= maxAttempts then FailureActs(f, s) else ReturnActs(f, true)
  }

  /** None when every gate lets the execution through. */
  function GateActs(f: Fate, attempts: nat, maxAttempts: int, s: Seen): Option<seq<Act>> {
    if !f.decodes || f.readmission.Fatal? then Some(FailureActs(f, s))
    else if f.readmission.Transient? then Some(RetryActs(f, attempts, maxAttempts, s))
    else if f.limiter.Faulty? then Some(ReturnActs(f, false))
    else if f.limiter.Refusing? then Some(RetryActs(f, attempts, maxAttempts, s))
    else if f.limitsFault then Some(ReturnActs(f, false))
    else if f.quota.Refusing? then Some(FailureActs(f, s))
    else if f.quota.Faulty? then Some(ReturnActs(f, false))
    else None
  }

  function MoneyActs(f: Fate, s: Seen): seq<Act> {
    if !f.metered then [Unmetered]
    else [Reserve(f.terms)] + if s.error.None? then [] else if Outage(s.error.value) then ReturnActs(f, false)
        else FailureActs(f, s)
  }

  function GiveBackActs(f: Fate, bump: bool): seq<Act> {
    [Surrender(bump, f.refundFault)] + ReturnActs(f, bump)
  }

  function FinishActs(f: Fate, completed: bool, usage: Option<Cost.Usage>, s: Seen): seq<Act> {
    if !completed && !f.encodes then [Unencodable(f.refundFault)]
    else [Outcome(completed, usage, f.commit.(bump := true), f.reply, f.now)] + HandoffActs(f, usage, s)
  }

  function EndingActs(f: Fate, attempts: nat, maxAttempts: int, s: Seen): seq<Act> {
    match f.ending
    case Aborted => GiveBackActs(f, false)
    case Errored(retryEligible) =>
      if retryEligible && attempts + 1 < maxAttempts then GiveBackActs(f, true) else FinishActs(f, false, None, s)
    case Answered(class_, usage) => FinishActs(f, class_ == "", usage, s)
  }

  function RunActs(f: Fate, attempts: nat, maxAttempts: int, s: Seen): seq<Act> {
    match GateActs(f, attempts, maxAttempts, s)
    case Some(acts) => acts
    case None => MoneyActs(f, s) + if f.metered && s.error.Some? then [] else EndingActs(f, attempts, maxAttempts, s)
  }

  // ---- What those lists promise ----

  function Count(acts: seq<Act>, p: Act -> bool): nat {
    if acts == [] then 0 else Count(acts[..|acts| - 1], p) + if p(acts[|acts| - 1]) then 1 else 0
  }

  lemma {:induction false} CountJoin(a: seq<Act>, b: seq<Act>, p: Act -> bool)
    ensures Count(a + b, p) == Count(a, p) + Count(b, p)
  {
    if b == [] {
      assert a + b == a;
    } else {
      var n := |b| - 1;
      CountJoin(a, b[..n], p);
      assert (a + b)[..|a + b| - 1] == a + b[..n];
    }
  }

  lemma CountOne(act: Act, p: Act -> bool)
    ensures Count([act], p) == if p(act) then 1 else 0
  {
    assert [act][..0] == [];
  }

  /** Ends the execution at the store: a commit, a hand-back, or giving up because
      no failure envelope can be built. */
  predicate Decides(act: Act) {
    act.Reject? || act.Outcome? || act.HandBack? || act.Unencodable?
  }

  /** Gives the reservations back. */
  predicate Refunds(act: Act) {
    act.Surrender? || act.Drop? || act.Unencodable?
  }

  predicate Settles(act: Act) {
    act.SettleCall?
  }

  predicate Audits(act: Act) {
    act.WriteAudit?
  }

  lemma HandoffCounts(f: Fate, usage: Option<Cost.Usage>, s: Seen)
    ensures var acts := HandoffActs(f, usage, s);
      && Count(acts, Decides) == 0
      && Count(acts, Audits) == (if f.reply.Clean? && s.won then 1 else 0)
      && Count(acts, Refunds) + (if Count(acts, Settles) > 0 then 1 else 0) == 1
      && Count(acts, Settles) <= 2
  {
    var first := SettleCall(f.settlePrice, f.now, f.settleFault);
    var second := SettleCall(f.settlePrice, f.now, f.retryFault);
    CountAll(first);
    CountAll(second);
    CountAll(WriteAudit);
    CountAll(Drop(f.refundFault));
    CountAll(Look(f.now, f.now, f.lookFault));
    JoinAll([first], if s.retried then [second] else []);
    JoinAll(SettleActs(f, s.retried), [WriteAudit]);
    JoinAll([Look(f.now, f.now, f.lookFault)], if s.cancelled then SettleActs(f, s.retried) else [Drop(f.refundFault)]);
    hide Count;
  }

  lemma CountAll(act: Act)
    ensures Count([act], Decides) == (if Decides(act) then 1 else 0)
        && Count([act], Refunds) == (if Refunds(act) then 1 else 0)
    ensures Count([act], Settles) == (if Settles(act) then 1 else 0)
        && Count([act], Audits) == (if Audits(act) then 1 else 0)
    ensures Count([], Decides) == Count([], Refunds) == Count([], Settles) == Count([], Audits) == 0
  {
    CountOne(act, Decides);
    CountOne(act, Refunds);
    CountOne(act, Settles);
    CountOne(act, Audits);
  }

  lemma JoinAll(a: seq<Act>, b: seq<Act>)
    ensures Count(a + b, Decides) == Count(a, Decides) + Count(b, Decides)
    ensures Count(a + b, Refunds) == Count(a, Refunds) + Count(b, Refunds)
    ensures Count(a + b, Settles) == Count(a, Settles) + Count(b, Settles)
    ensures Count(a + b, Audits) == Count(a, Audits) + Count(b, Audits)
  {
    CountJoin(a, b, Decides);
    CountJoin(a, b, Refunds);
    CountJoin(a, b, Settles);
    CountJoin(a, b, Audits);
  }

  /** One store decision, and no audit record without a won commit. */
  predicate Tidy(acts: seq<Act>, s: Seen) {
    Count(acts, Decides) == 1 && Count(acts, Audits) <= (if s.won then 1 else 0)
  }

  /** The reservations are finalized once: refunded once, or settled (in at most two
      calls) and never refunded. */
  predicate FinalizesOnce(acts: seq<Act>) {
    Count(acts, Settles) <= 2 && Count(acts, Refunds) + (if Count(acts, Settles) > 0 then 1 else 0) == 1
  }

  lemma FailureCounts(f: Fate, s: Seen)
    ensures Tidy(FailureActs(f, s), s)
  {
    hide Count;
    HandoffCounts(f, None, s);
    CountAll(Unencodable(false));
    CountAll(Reject(f.commit.(bump := true), f.reply, f.now));
    JoinAll([Reject(f.commit.(bump := true), f.reply, f.now)], HandoffActs(f, None, s));
  }

  lemma EndingCounts(f: Fate, attempts: nat, maxAttempts: int, s: Seen)
    ensures var acts := EndingActs(f, attempts, maxAttempts, s);
      Tidy(acts, s) && FinalizesOnce(acts)
  {
    hide Count;
    var usage := if f.ending.Answered? then f.ending.usage else None;
    var completed := f.ending.Answered? && f.ending.class_ == "";
    var outcome := Outcome(completed, usage, f.commit.(bump := true), f.reply, f.now);
    HandoffCounts(f, usage, s);
    CountAll(outcome);
    JoinAll([outcome], HandoffActs(f, usage, s));
    CountAll(Unencodable(f.refundFault));
    GiveBackCounts(f, true);
    GiveBackCounts(f, false);
    hide HandoffActs, GiveBackActs;
  }

  lemma GiveBackCounts(f: Fate, bump: bool)
    ensures var acts := GiveBackActs(f, bump);
      Count(acts, Decides) == 1 && Count(acts, Audits) == 0 && FinalizesOnce(acts)
  {
    hide Count;
    CountAll(Surrender(bump, f.refundFault));
    CountAll(HandBack(bump, f.notBefore, f.reply, f.now));
    JoinAll([Surrender(bump, f.refundFault)], ReturnActs(f, bump));
  }

  /** Every path through one execution, whatever it meets: exactly one store decision,
      an audit record only after a won commit, and once past the money gate its
      reservations finalized exactly once. */
  lemma EveryPathFinalizesOnce(f: Fate, attempts: nat, maxAttempts: int, s: Seen)
    ensures var acts := RunActs(f, attempts, maxAttempts, s);
      && Tidy(acts, s)
      && (GateActs(f, attempts, maxAttempts, s).None? && !(f.metered && s.error.Some?) ==> FinalizesOnce(acts))
  {
    hide Count;
    FailureCounts(f, s);
    EndingCounts(f, attempts, maxAttempts, s);
    CountAll(Unmetered);
    CountAll(Reserve(f.terms));
    CountAll(HandBack(false, f.notBefore, f.reply, f.now));
    CountAll(HandBack(true, f.notBefore, f.reply, f.now));
    JoinAll([Reserve(f.terms)], if s.error.None? then [] else if Outage(s.error.value) then ReturnActs(f, false)
            else FailureActs(f, s));
    JoinAll(MoneyActs(f, s), if f.metered && s.error.Some? then [] else EndingActs(f, attempts, maxAttempts, s));
    hide HandoffActs;
  }

  /** An attempt is only spent on a return while another one is left, and a job with
      no attempt left is never handed back charged. */
  lemma ChargedReturnsAreGuarded(f: Fate, attempts: nat, maxAttempts: int, s: Seen)
    ensures forall a ::
      a in RunActs(f, attempts, maxAttempts, s) && a.HandBack? && a.bump ==> attempts + 1 < maxAttempts
  {
    HandoffDecidesNothing(f, None, s);
    HandoffDecidesNothing(f, if f.ending.Answered? then f.ending.usage else None, s);
    hide HandoffActs;
  }

  // ---- Which decision, by what the execution meets ----

  lemma HandoffDecidesNothing(f: Fate, usage: Option<Cost.Usage>, s: Seen)
    ensures forall a :: a in HandoffActs(f, usage, s) ==> !Decides(a)
  {
  }

  /** After the commit: its winner settles and audits; a clean loser that saw usage
      looks for a cancellation and settles if it finds one; everyone else refunds.
      Settling is tried twice exactly when the first try failed. */
  lemma HandoffFollowsTheCommit(f: Fate, usage: Option<Cost.Usage>, s: Seen)
    ensures var acts := HandoffActs(f, usage, s);
      var lost := f.reply.Clean? && !s.won;
      var settles := f.reply.Clean? && (s.won || (usage.Some? && s.cancelled));
      && ((exists a :: a in acts && a.WriteAudit?) <==> f.reply.Clean? && s.won)
      && ((exists a :: a in acts && a.Look?) <==> lost && usage.Some?)
      && ((exists a :: a in acts && a.SettleCall?) <==> settles)
      && ((exists a :: a in acts && a.Drop?) <==> !settles)
      && Count(acts, Settles) == (if !settles then 0 else if s.retried then 2 else 1)
  {
    var acts := HandoffActs(f, usage, s);
    var first := SettleCall(f.settlePrice, f.now, f.settleFault);
    var second := SettleCall(f.settlePrice, f.now, f.retryFault);
    var settling := SettleActs(f, s.retried);
    CountAll(first);
    CountAll(second);
    CountAll(WriteAudit);
    CountAll(Drop(f.refundFault));
    CountAll(Look(f.now, f.now, f.lookFault));
    JoinAll([first], if s.retried then [second] else []);
    JoinAll(settling, [WriteAudit]);
    JoinAll([Look(f.now, f.now, f.lookFault)], if s.cancelled then settling else [Drop(f.refundFault)]);
    hide Count;
    assert settling[0] == first;
    assert acts[0] in acts && acts[|acts| - 1] in acts;
    if |acts| > 1 {
      assert acts[1] in acts;
    }
  }

  lemma EndingDecides(f: Fate, attempts: nat, maxAttempts: int, s: Seen)
    ensures var acts := EndingActs(f, attempts, maxAttempts, s);
      var answered := f.ending.Answered? && f.ending.class_ == "";
      var retries := f.ending == Errored(true) && attempts + 1 < maxAttempts;
      var usage := if f.ending.Answered? then f.ending.usage else None;
      exists d :: d in acts && Decides(d) && (forall a :: a in acts && Decides(a) ==> a == d)
        && d == if retries then HandBack(true, f.notBefore, f.reply, f.now)
                else if f.ending.Aborted? then HandBack(false, f.notBefore, f.reply, f.now)
                else if answered || f.encodes
                then Outcome(answered, usage, f.commit.(bump := true), f.reply, f.now)
                else Unencodable(f.refundFault)
  {
    HandoffDecidesNothing(f, if f.ending.Answered? then f.ending.usage else None, s);
    hide HandoffActs;
    var acts := EndingActs(f, attempts, maxAttempts, s);
    assert acts[if acts[0].Surrender? then 1 else 0] in acts;
  }

  /** Past every gate and the money: a terminal outcome is a completion if and only
      if the provider's answer can be delivered, with the usage it reported; the job
      goes back charged if and only if the error may be retried and an attempt is
      left, and free if and only if the execution was aborted. */
  lemma OutcomeFollowsAnswer(f: Fate, attempts: nat, maxAttempts: int, s: Seen)
    requires f.decodes && f.readmission.Fine? && f.limiter.Passed? && !f.limitsFault && f.quota.Passed?
    requires f.metered ==> s.error.None?
    ensures var acts := RunActs(f, attempts, maxAttempts, s);
      var answered := f.ending.Answered? && f.ending.class_ == "";
      var retries := f.ending == Errored(true) && attempts + 1 < maxAttempts;
      && (forall a :: a in acts && a.Outcome? ==>
            && (a.completed <==> answered)
            && a.usage == (if f.ending.Answered? then f.ending.usage else None)
            && a.commit == f.commit.(bump := true))
      && ((exists a :: a in acts && a.Outcome?) <==> !f.ending.Aborted? && !retries && (answered || f.encodes))
      && ((exists a :: a in acts && a.HandBack? && a.bump) <==> retries)
      && ((exists a :: a in acts && a.HandBack? && !a.bump) <==> f.ending.Aborted?)
      && !(exists a :: a in acts && a.Reject?)
  {
    EndingDecides(f, attempts, maxAttempts, s);
    var acts := RunActs(f, attempts, maxAttempts, s);
    var ending := EndingActs(f, attempts, maxAttempts, s);
    assert acts == MoneyActs(f, s) + ending;
    assert forall a :: a in acts && Decides(a) <==> a in ending && Decides(a);
    hide EndingActs, GateActs, MoneyActs, RunActs;
  }

  /** Before that: the first gate in the way decides. A condition that may pass (the
      model or its route is off, the caller's rate limit) spends an attempt if one is
      left; an outage of a gate or of the books returns the job free; everything else
      fails it. Nothing completes. */
  lemma GatesDecide(f: Fate, attempts: nat, maxAttempts: int, s: Seen)
    requires !(f.decodes && f.readmission.Fine? && f.limiter.Passed? && !f.limitsFault && f.quota.Passed?)
        || (f.metered && s.error.Some?)
    ensures var acts := RunActs(f, attempts, maxAttempts, s);
      var passing := f.decodes && (f.readmission.Transient? || (f.readmission.Fine? && f.limiter.Refusing?));
      var outage := f.decodes && f.readmission.Fine? && (f.limiter.Faulty? || (f.limiter.Passed? &&
              (f.limitsFault || f.quota.Faulty? || (f.quota.Passed? && Outage(s.error.value)))));
      && !(exists a :: a in acts && a.Outcome?)
      && ((exists a :: a in acts && a.HandBack? && a.bump) <==> passing && attempts + 1 < maxAttempts)
      && ((exists a :: a in acts && a.HandBack? && !a.bump) <==> outage)
      && ((exists a :: a in acts && a.Reject?) <==>
            f.encodes && !outage && !(passing && attempts + 1 < maxAttempts))
      && (forall a :: a in acts && a.Reject? ==> a.commit == f.commit.(bump := true))
  {
    HandoffDecidesNothing(f, None, s);
    hide HandoffActs;
    var acts := RunActs(f, attempts, maxAttempts, s);
    var money := MoneyActs(f, s);
    if GateActs(f, attempts, maxAttempts, s).None? {
      assert acts == money + [] && money[1] in acts;
    } else {
      assert acts[0] in acts;
    }
  }

  // ---- The record a won commit leaves ----

  /** The job as its winning commit stores it. */
  predicate DecidedAs(s: S.State, id: S.JobId, f: Fate, completed: bool) {
    && id in s.jobs
    && var r := s.jobs[id];
    && r.job.status == (if completed then S.Completed else S.Failed)
    && r.job.owner == "" && r.job.leaseExpires.None?
    && r.job.finalRequest == f.commit.finalRequest && r.job.resultExpires == Some(f.commit.resultExpires)
    && r.result == Some(S.Result(f.commit.response, if completed then "" else f.commit.errorClass,
                                 f.commit.resultExpires, f.now))
  }

  /** Some moment of the trace, later than the first from events, stores it so. */
  ghost predicate DecidedSince(origin: Sys, trace: seq<Event>, from: nat, maxAttempts: int, id: S.JobId, f: Fate,
                               completed: bool)
    requires S.Filed(origin.store)
  {
    exists n :: from < n <= |trace| && DecidedAs(Run(origin, trace[..n], maxAttempts).store, id, f, completed)
  }

  lemma DecidedGrows(origin: Sys, trace: seq<Event>, more: seq<Event>, from: nat, since: nat, maxAttempts: int,
                     id: S.JobId, f: Fate, completed: bool)
    requires S.Filed(origin.store) && trace <= more && since <= from
    requires DecidedSince(origin, trace, from, maxAttempts, id, f, completed)
    ensures DecidedSince(origin, more, since, maxAttempts, id, f, completed)
  {
    hide Run, DecidedAs;
    var n :| from < n <= |trace| && DecidedAs(Run(origin, trace[..n], maxAttempts).store, id, f, completed);
    assert more[..n] == trace[..n];
  }

  /** A commit that meets its own lease. */
  lemma CommitDecides(sys: Sys, i: nat, act: Act, maxAttempts: int, f: Fate)
    requires S.Filed(sys.store) && Enabled(sys, Execute(i, act), maxAttempts) && Commits(act) && act.reply.Clean?
    requires S.Owned(sys.store, sys.execs[i].job.id, sys.execs[i].job.owner)
    requires act.commit == f.commit.(bump := true) && act.now == f.now
    ensures DecidedAs(Step(sys, Execute(i, act), maxAttempts).store, sys.execs[i].job.id, f,
                      act.Outcome? && act.completed)
  {
    hide NextBooks, NextExecs, Ended;
  }

  // ---- The store after a sweep and after a cancel request ----

  function RecoveredStore(s: S.State, body: string, now: int, reply: Reply, maxAttempts: int): (r: S.State)
    requires S.Filed(s)
    ensures S.Filed(r)
  {
    S.StepFiled(s, S.OpRecover(maxAttempts, body, now));
    if reply.LostBefore? then s else S.Step(s, S.OpRecover(maxAttempts, body, now))
  }

  /** Recovery, then due results, then idempotency keys. */
  function SweptStore(s: S.State, body: string, now: int, reply: Reply, maxAttempts: int): S.State
    requires S.Filed(s)
  {
    var recovered := RecoveredStore(s, body, now, reply, maxAttempts);
    S.StepFiled(recovered, S.OpExpireDue(now));
    S.Step(S.Step(recovered, S.OpExpireDue(now)), S.OpSweepKeys(now))
  }

  /** The read expires lazily; an absent or expired job is not cancelled. */
  function CancelledStore(s: S.State, id: S.JobId, now: int, reply: Reply): S.State
    requires S.Filed(s)
  {
    S.StepFiled(s, S.OpGet(id, now, now));
    var read := S.Step(s, S.OpGet(id, now, now));
    if id !in read.jobs || read.jobs[id].job.status == S.Expired || reply.LostBefore? then read
    else S.Step(read, S.OpCancel(id, now))
  }

  /** What one pass does to a job, recovery having reached the store: a lease that
      ended is recovered, a result past its retention is dropped, nothing else is
      touched; and exactly the mappings past their expiry go. */
  lemma SweepDoesAllThree(s: S.State, body: string, now: int, reply: Reply, maxAttempts: int, id: S.JobId, key: string)
    requires S.Filed(s) && id in s.jobs && !reply.LostBefore?
    ensures var s' := SweptStore(s, body, now, reply, maxAttempts);
      && id in s'.jobs
      && var a, b := s.jobs[id], s'.jobs[id];
      var lapsed := a.job.status == S.Running && a.job.leaseExpires.Some? && a.job.leaseExpires.value < now;
      var due := (a.job.status == S.Completed || a.job.status == S.Failed)
          && a.job.resultExpires.Some? && a.job.resultExpires.value < now;
      && (lapsed ==> b.job.status == (if a.job.attempts + 1 >= maxAttempts then S.Failed else S.Queued)
                     && b.job.attempts == a.job.attempts + 1)
      && (due ==> b.job.status == S.Expired && b.result.None?)
      && (!lapsed && !due ==> b == a)
      && (key in s'.idem <==> key in s.idem && now <= s.idem[key].expiresAt)
  {
    var recover := S.OpRecover(maxAttempts, body, now);
    S.StepFiled(s, recover);
    var recovered := S.Step(s, recover);
    S.StepFiled(recovered, S.OpExpireDue(now));
    var expired := S.Step(recovered, S.OpExpireDue(now));
    assert recovered.idem == s.idem && expired.idem == s.idem;
    hide S.Step;
    F.SweepTakesEndedLeases(s, id, maxAttempts, body, now);
    F.ExpiryIsByRetention(recovered, id, now, now);
    F.KeysLiveUntilTheirExpiry(expired, key, now);
  }

  /** What a cancel request does to its job, having reached the store: a result past
      its retention is dropped by the read, and a job that still runs or waits is
      cancelled. */
  lemma CancelReadsFirst(s: S.State, id: S.JobId, now: int, reply: Reply)
    requires S.Filed(s) && id in s.jobs && !reply.LostBefore?
    ensures var s' := CancelledStore(s, id, now, reply);
      && id in s'.jobs
      && var a, b := s.jobs[id], s'.jobs[id];
      var due := (a.job.status == S.Completed || a.job.status == S.Failed)
          && a.job.resultExpires.Some? && a.job.resultExpires.value < now;
      && (a.job.status == S.Queued || a.job.status == S.Running <==> b.job.status == S.Cancelled && b != a)
      && (due ==> b.job.status == S.Expired && b.result.None?)
      && (a.job.status != S.Queued && a.job.status != S.Running && !due ==> b == a)
  {
    S.StepFiled(s, S.OpGet(id, now, now));
  }

  // ---- Own steps in a trace ----

  function Acts(trace: seq<Event>, i: nat): seq<Act> {
    if trace == [] then []
    else
      var last := trace[|trace| - 1];
      Acts(trace[..|trace| - 1], i) + if last.Execute? && last.i == i then [last.act] else []
  }

  lemma ActsSnoc(trace: seq<Event>, ev: Event, i: nat)
    ensures Acts(trace + [ev], i) == Acts(trace, i) + if ev.Execute? && ev.i == i then [ev.act] else []
  {
    assert (trace + [ev])[..|trace|] == trace;
  }

  class Pool {
    var sys: Sys
    const maxAttempts: int
    ghost var trace: seq<Event>
    ghost const origin: Sys

    constructor (maxAttempts: int)
      ensures Valid() && sys == origin == START && this.maxAttempts == maxAttempts && trace == []
    {
      sys, this.maxAttempts, origin, trace := START, maxAttempts, START, [];
      new;
      StartSound();
    }

    /** Everything so far is a run of the protocol. */
    ghost predicate Valid()
      reads this
    {
      S.Filed(origin.store) && sys == Run(origin, trace, maxAttempts) && M.Inv(sys)
    }

    predicate Mine(i: nat)
      reads this
    {
      i < |sys.execs|
    }

    /** The steps execution i has taken so far. */
    ghost function Own(i: nat): seq<Act>
      reads this
    {
      Acts(trace, i)
    }

    method Apply(ev: Event)
      requires Valid()
      modifies this`sys, this`trace
      ensures Valid() && sys == Step(old(sys), ev, maxAttempts) && trace == old(trace) + [ev]
    {
      hide Step, Run, M.Inv;
      M.StepInv(sys, ev, maxAttempts) by { assert M.Inv(sys); }
      RunSnoc(origin, trace, ev, maxAttempts);
      assert S.Filed(sys.store) by { InvFiled(sys); }
      sys := Step(sys, ev, maxAttempts);
      trace := trace + [ev];
    }

    /** What everybody else does meanwhile; execution i takes none of its own steps. */
    method Others(i: nat, evs: seq<Event>)
      requires Valid() && Mine(i)
      modifies this`sys, this`trace
      ensures Valid() && Mine(i) && sys.execs[i] == old(sys).execs[i] && old(trace) <= trace && Own(i) == old(Own(i))
    {
      hide Valid, Step, Acts;
      for n := 0 to |evs|
        invariant Valid() && Mine(i) && sys.execs[i] == old(sys).execs[i] && old(trace) <= trace
            && Own(i) == old(Own(i))
      {
        if !(evs[n].Execute? && evs[n].i == i) {
          ActsSnoc(trace, evs[n], i);
          OthersKeep(sys, evs[n], maxAttempts, i) by { ValidMeans(); }
          Apply(evs[n]);
        }
      }
    }

    /** DecidedSince of this trace. */
    ghost predicate DecidedNow(from: nat, id: S.JobId, f: Fate, completed: bool)
      reads this
    {
      S.Filed(origin.store) && DecidedSince(origin, trace, from, maxAttempts, id, f, completed)
    }

    lemma DecidedLater(since: nat, from: nat, id: S.JobId, f: Fate, completed: bool)
      requires DecidedNow(since, id, f, completed) && from <= since
      ensures DecidedNow(from, id, f, completed)
    {
      DecidedGrows(origin, trace, trace, since, from, maxAttempts, id, f, completed);
    }

    lemma DecidedHere(from: nat, id: S.JobId, f: Fate, completed: bool)
      requires Valid() && from < |trace| && DecidedAs(sys.store, id, f, completed)
      ensures DecidedNow(from, id, f, completed)
    {
      hide Run, DecidedAs, M.Inv;
      assert trace[..|trace|] == trace;
    }

    lemma ValidMeans()
      requires Valid()
      ensures S.Filed(sys.store) && M.Inv(sys)
    {
      InvFiled(sys);
    }

    /** One step of execution i: it must be one the protocol allows it. */
    method Take(i: nat, act: Act)
      requires Valid() && Mine(i) && Allowed(maxAttempts, sys.execs[i], act)
      modifies this`sys, this`trace
      ensures Valid() && Mine(i) && old(trace) < trace && Held(old(sys).books, old(sys).execs[i])
      ensures sys == Step(old(sys), Execute(i, act), maxAttempts) && Enabled(old(sys), Execute(i, act), maxAttempts)
      ensures S.Filed(old(sys).store) && Own(i) == old(Own(i)) + [act]
      ensures (act.SettleCall? ==> old(sys).execs[i].phase.Settling?) && (act.Look? ==> old(sys).execs[i].phase.Racing?)
      ensures sys.execs[i] == ActExec(old(sys).store, NextStore(old(sys), Execute(i, act), maxAttempts), old(sys).books,
                                      old(sys).execs[i], act)
    {
      hide Valid, Step, ActExec, M.Inv, Acts;
      ValidMeans();
      ActsSnoc(trace, Execute(i, act), i);
      SoundHeld(sys, i);
      StepTakes(sys, i, act, maxAttempts);
      Apply(Execute(i, act));
    }

    /** One settlement call; it is over unless it failed for the first time. */
    method SettleOnce(i: nat, f: Fate, fault: bool)
      requires Valid() && Mine(i) && sys.execs[i].phase.Settling?
      modifies this`sys, this`trace
      ensures Valid() && Mine(i) && old(trace) <= trace && sys.execs[i].verdict == old(sys).execs[i].verdict
      ensures || sys.execs[i].phase == (if old(sys).execs[i].verdict.Won? then Auditing else Phase.Done)
              || (!old(sys).execs[i].phase.retried && sys.execs[i].phase ==
                  Settling(old(sys).execs[i].phase.usage, true))
      ensures Own(i) == old(Own(i)) + [SettleCall(f.settlePrice, f.now, fault)]
    {
      hide Valid, Settlement, A.CostOf;
      Take(i, SettleCall(f.settlePrice, f.now, fault));
    }

    /** Finalizes the reservations, with one retry; the winner's audit record follows
        in the handoff. */
    method SettleObserved(i: nat, f: Fate) returns (ghost retried: bool)
      requires Valid() && Mine(i) && sys.execs[i].phase.Settling? && !sys.execs[i].phase.retried
      modifies this`sys, this`trace
      ensures Valid() && Mine(i) && old(trace) <= trace
      ensures sys.execs[i].phase == if old(sys).execs[i].verdict.Won? then Auditing else Phase.Done
      ensures sys.execs[i].verdict == old(sys).execs[i].verdict
      ensures Own(i) == old(Own(i)) + SettleActs(f, retried)
    {
      hide Valid, Acts;
      SettleOnce(i, f, f.settleFault);
      retried := sys.execs[i].phase.Settling?;
      if sys.execs[i].phase.Settling? {
        Others(i, f.noise(0));
        SettleOnce(i, f, f.retryFault);
      }
    }

    method Release(i: nat, f: Fate)
      requires Valid() && Mine(i) && sys.execs[i].phase.Dropping?
      modifies this`sys, this`trace
      ensures Valid() && Mine(i) && old(trace) <= trace && sys.execs[i].phase.Done?
      ensures Own(i) == old(Own(i)) + [Drop(f.refundFault)] && sys.execs[i].verdict == old(sys).execs[i].verdict
    {
      hide Valid;
      Take(i, Drop(f.refundFault));
    }

    /** Asks the store whether a cancellation won; a read error answers no. */
    method JobCancelledNow(i: nat, f: Fate) returns (cancelled: bool)
      requires Valid() && Mine(i) && sys.execs[i].phase.Racing?
      modifies this`sys, this`trace
      ensures Valid() && Mine(i) && old(trace) <= trace
      ensures if cancelled then sys.execs[i].phase == Settling(Some(old(sys).execs[i].phase.seen), false)
          && sys.execs[i].verdict.Observed?
              else sys.execs[i].phase.Dropping? && sys.execs[i].verdict == old(sys).execs[i].verdict
      ensures Own(i) == old(Own(i)) + [Look(f.now, f.now, f.lookFault)]
      ensures cancelled <==> !f.lookFault && JobCancelled(sys.store, old(sys).execs[i].job.id)
    {
      hide Valid, JobCancelled, Acts;
      Take(i, Look(f.now, f.now, f.lookFault));
      cancelled := sys.execs[i].phase.Settling?;
    }

    /** The single terminal handoff: a failed commit drops, a lost one drops unless a
        cancellation won after usage was seen, the winner settles and audits. */
    method Handoff(i: nat, won: bool, err: bool, usage: Option<Cost.Usage>, f: Fate) returns (ghost seen: Seen)
      requires Valid() && Mine(i) && err == !f.reply.Clean?
      requires err ==> sys.execs[i].phase.Dropping?
      requires !err && !won ==> sys.execs[i].phase == if usage.Some? then Racing(usage.value) else Dropping
      requires !err && won ==> sys.execs[i].phase == Settling(usage, false)
      requires sys.execs[i].verdict == if !err && won then Won else Undecided
      modifies this`sys, this`trace
      ensures Valid() && Mine(i) && old(trace) <= trace && sys.execs[i].phase.Done?
      ensures seen.error.None? && seen.won == (!err && won) && sys.execs[i].verdict == VerdictOf(seen)
      ensures Own(i) == old(Own(i)) + HandoffActs(f, usage, seen)
    {
      hide Valid, Step, ActExec, Acts;
      seen := Seen(None, !err && won, false, false);
      Others(i, f.noise(1));
      if err {
        Release(i, f);
        return;
      }
      if !won {
        if usage.Some? {
          var cancelled := JobCancelledNow(i, f);
          seen := seen.(cancelled := cancelled);
          Others(i, f.noise(2));
          if cancelled {
            ghost var again := SettleObserved(i, f);
            seen := seen.(retried := again);
            return;
          }
        }
        Release(i, f);
        return;
      }
      ghost var retried := SettleObserved(i, f);
      seen := seen.(retried := retried);
      Others(i, f.noise(3));
      WriteRecord(i);
    }

    method WriteRecord(i: nat)
      requires Valid() && Mine(i) && sys.execs[i].phase.Auditing?
      modifies this`sys, this`trace
      ensures Valid() && Mine(i) && old(trace) <= trace && sys.execs[i].phase.Done?
      ensures Own(i) == old(Own(i)) + [WriteAudit] && sys.execs[i].verdict == old(sys).execs[i].verdict
    {
      hide Valid;
      Take(i, WriteAudit);
    }

    /** A terminal commit and what its caller learns of it. */
    method Commit(i: nat, act: Act, f: Fate) returns (won: bool, err: bool)
      requires Valid() && Mine(i) && Allowed(maxAttempts, sys.execs[i], act) && Commits(act)
      requires act.commit == f.commit.(bump := true) && act.now == f.now
      modifies this`sys, this`trace
      ensures Valid() && Mine(i) && old(trace) <= trace
      ensures err == !ReplyOf(act).Clean?
      ensures !err ==> won == S.Owned(old(sys).store, old(sys).execs[i].job.id, old(sys).execs[i].job.owner)
      ensures var usage := if act.Outcome? then act.usage else None;
        && (err ==> sys.execs[i].phase.Dropping?)
        && (!err && !won ==> sys.execs[i].phase == if usage.Some? then Racing(usage.value) else Dropping)
        && (!err && won ==> sys.execs[i].phase == Settling(usage, false))
        && (sys.execs[i].verdict == if !err && won then Won else old(sys).execs[i].verdict)
        && Own(i) == old(Own(i)) + [act]
      ensures !err && won ==>
        DecidedNow(|old(trace)|, old(sys).execs[i].job.id, f, act.Outcome? && act.completed)
    {
      hide Valid, Acts, DecidedSince, DecidedAs;
      err := !ReplyOf(act).Clean?;
      won := S.Owned(sys.store, sys.execs[i].job.id, sys.execs[i].job.owner);
      ghost var before := sys;
      Take(i, act);
      if !err && won {
        CommitDecides(before, i, act, maxAttempts, f);
        DecidedHere(|old(trace)|, before.execs[i].job.id, f, act.Outcome? && act.completed);
      }
    }

    /** A terminal failure before the provider was called: nothing is held. */
    method CommitFailure(i: nat, f: Fate) returns (ghost seen: Seen)
      requires Valid() && Mine(i) && PreExecution(sys.execs[i].phase) && sys.execs[i].verdict.Undecided?
      modifies this`sys, this`trace
      ensures Valid() && Mine(i) && old(trace) <= trace && sys.execs[i].phase.Done?
      ensures seen.error.None? && sys.execs[i].verdict == VerdictOf(seen)
          && Own(i) == old(Own(i)) + FailureActs(f, seen)
      ensures seen.won ==> DecidedNow(|old(trace)|, old(sys).execs[i].job.id, f, false)
    {
      hide Valid, Acts, DecidedSince;
      seen := Seen(None, false, false, false);
      if !f.encodes {
        Take(i, Unencodable(false));
        return;
      }
      var won, err := Commit(i, Reject(f.commit.(bump := true), f.reply, f.now), f);
      ghost var decided := trace;
      seen := Handoff(i, won, err, None, f);
      if seen.won {
        DecidedGrows(origin, decided, trace, |old(trace)|, |old(trace)|, maxAttempts, old(sys).execs[i].job.id, f,
                     false);
      }
    }

    method Requeue(i: nat, bump: bool, f: Fate)
      requires Valid() && Mine(i) && Allowed(maxAttempts, sys.execs[i], HandBack(bump, f.notBefore, f.reply, f.now))
      modifies this`sys, this`trace
      ensures Valid() && Mine(i) && old(trace) <= trace && sys.execs[i].phase.Done?
      ensures Own(i) == old(Own(i)) + ReturnActs(f, bump) && sys.execs[i].verdict == old(sys).execs[i].verdict
    {
      hide Valid, Acts;
      Take(i, HandBack(bump, f.notBefore, f.reply, f.now));
    }

    /** Spends an attempt on a retry if one is left, otherwise fails the job. */
    method RetryOrFail(i: nat, f: Fate) returns (ghost seen: Seen)
      requires Valid() && Mine(i) && sys.execs[i].phase.Claimed? && sys.execs[i].verdict.Undecided?
      modifies this`sys, this`trace
      ensures Valid() && Mine(i) && old(trace) <= trace && sys.execs[i].phase.Done?
      ensures seen.error.None? && sys.execs[i].verdict == VerdictOf(seen)
      ensures Own(i) == old(Own(i)) + RetryActs(f, old(sys).execs[i].job.attempts, maxAttempts, seen)
      ensures seen.won ==> DecidedNow(|old(trace)|, old(sys).execs[i].job.id, f, false)
    {
      hide Valid, Acts, DecidedSince;
      seen := Seen(None, false, false, false);
      if sys.execs[i].job.attempts + 1 >= maxAttempts {
        seen := CommitFailure(i, f);
      } else {
        Requeue(i, true, f);
      }
    }

    /** The gates before the reservation; true to go on. */
    method PassGates(i: nat, f: Fate) returns (pass: bool, ghost seen: Seen)
      requires Valid() && Mine(i) && sys.execs[i].phase.Claimed? && sys.execs[i].verdict.Undecided?
      modifies this`sys, this`trace
      ensures Valid() && Mine(i) && old(trace) <= trace
      ensures pass ==> sys.execs[i] == old(sys).execs[i] && Own(i) == old(Own(i))
      ensures !pass ==> sys.execs[i].phase.Done? && seen.error.None? && sys.execs[i].verdict == VerdictOf(seen)
      ensures var acts := GateActs(f, old(sys).execs[i].job.attempts, maxAttempts, seen);
        && (pass <==> acts.None?)
        && (!pass ==> Own(i) == old(Own(i)) + acts.value)
      ensures !pass && seen.won ==> DecidedNow(|old(trace)|, old(sys).execs[i].job.id, f, false)
    {
      hide Valid, Acts, FailureActs, RetryActs, DecidedSince;
      seen := Seen(None, false, false, false);
      if !f.decodes || f.readmission.Fatal? {
        seen := CommitFailure(i, f);
        return false, seen;
      }
      if f.readmission.Transient? {
        seen := RetryOrFail(i, f);
        return false, seen;
      }
      if f.limiter.Faulty? {
        Requeue(i, false, f);
        return false, seen;
      }
      if f.limiter.Refusing? {
        seen := RetryOrFail(i, f);
        return false, seen;
      }
      if f.limitsFault {
        Requeue(i, false, f);
        return false, seen;
      }
      if f.quota.Refusing? {
        seen := CommitFailure(i, f);
        return false, seen;
      }
      if f.quota.Faulty? {
        Requeue(i, false, f);
        return false, seen;
      }
      return true, seen;
    }

    /** The money reservation: an outage hands the job back free, any other refusal
        fails it. */
    method ReserveMoney(i: nat, f: Fate) returns (ok: bool, ghost seen: Seen)
      requires Valid() && Mine(i) && sys.execs[i].phase.Claimed? && sys.execs[i].verdict.Undecided?
      modifies this`sys, this`trace
      ensures Valid() && Mine(i) && old(trace) <= trace
      ensures if ok then sys.execs[i].phase.Executing? else sys.execs[i].phase.Done?
      ensures ok == !(f.metered && seen.error.Some?) && sys.execs[i].verdict == VerdictOf(seen)
      ensures ok ==> seen == Seen(None, false, false, false) && sys.execs[i].job == old(sys).execs[i].job
      ensures Own(i) == old(Own(i)) + MoneyActs(f, seen)
      ensures seen.won ==> DecidedNow(|old(trace)|, old(sys).execs[i].job.id, f, false)
    {
      hide Valid, Acts, Admission, FailureActs, DecidedSince;
      seen := Seen(None, false, false, false);
      if !f.metered {
        Take(i, Unmetered);
        return true, seen;
      }
      Take(i, Reserve(f.terms));
      if sys.execs[i].phase.Executing? {
        return true, seen;
      }
      ghost var error := sys.execs[i].phase.error;
      ghost var refused := trace;
      if Outage(sys.execs[i].phase.error) {
        Requeue(i, false, f);
      } else {
        seen := CommitFailure(i, f);
        FailureIgnoresError(f, seen, Some(error));
        if seen.won {
          DecidedGrows(origin, trace, trace, |refused|, |old(trace)|, maxAttempts, old(sys).execs[i].job.id, f, false);
        }
      }
      return false, seen.(error := Some(error));
    }

    /** Refund first, then hand the job back. */
    method GiveBack(i: nat, bump: bool, f: Fate)
      requires Valid() && Mine(i) && sys.execs[i].phase.Executing?
          && (bump ==> sys.execs[i].job.attempts + 1 < maxAttempts)
      modifies this`sys, this`trace
      ensures Valid() && Mine(i) && old(trace) <= trace && sys.execs[i].phase.Done?
      ensures Own(i) == old(Own(i)) + GiveBackActs(f, bump) && sys.execs[i].verdict == old(sys).execs[i].verdict
    {
      hide Valid, Acts;
      Take(i, Surrender(bump, f.refundFault));
      Others(i, f.noise(7));
      Requeue(i, bump, f);
    }

    /** A completed commit, or a failure whose envelope could be built. */
    method Finish(i: nat, completed: bool, usage: Option<Cost.Usage>, f: Fate) returns (ghost seen: Seen)
      requires Valid() && Mine(i) && sys.execs[i].phase.Executing? && sys.execs[i].verdict.Undecided?
      modifies this`sys, this`trace
      ensures Valid() && Mine(i) && old(trace) <= trace && sys.execs[i].phase.Done?
      ensures seen.error.None? && sys.execs[i].verdict == VerdictOf(seen)
      ensures Own(i) == old(Own(i)) + FinishActs(f, completed, usage, seen)
      ensures seen.won ==> DecidedNow(|old(trace)|, old(sys).execs[i].job.id, f, completed)
    {
      hide Valid, Acts, DecidedSince;
      seen := Seen(None, false, false, false);
      if !completed && !f.encodes {
        Take(i, Unencodable(f.refundFault));
        return;
      }
      var won, err := Commit(i, Outcome(completed, usage, f.commit.(bump := true), f.reply, f.now), f);
      ghost var decided := trace;
      seen := Handoff(i, won, err, usage, f);
      if seen.won {
        DecidedGrows(origin, decided, trace, |old(trace)|, |old(trace)|, maxAttempts, old(sys).execs[i].job.id, f,
                     completed);
      }
    }

    /** What follows the provider call. */
    method Conclude(i: nat, f: Fate) returns (ghost seen: Seen)
      requires Valid() && Mine(i) && sys.execs[i].phase.Executing? && sys.execs[i].verdict.Undecided?
      modifies this`sys, this`trace
      ensures Valid() && Mine(i) && old(trace) <= trace && sys.execs[i].phase.Done?
      ensures seen.error.None? && sys.execs[i].verdict == VerdictOf(seen)
      ensures Own(i) == old(Own(i)) + EndingActs(f, old(sys).execs[i].job.attempts, maxAttempts, seen)
      ensures seen.won ==> DecidedNow(|old(trace)|, old(sys).execs[i].job.id, f,
                                      f.ending.Answered? && f.ending.class_ == "")
    {
      hide Valid, Acts, FinishActs, GiveBackActs, DecidedSince;
      seen := Seen(None, false, false, false);
      match f.ending {
        case Aborted => GiveBack(i, false, f);
        case Errored(retryEligible) =>
          if retryEligible && sys.execs[i].job.attempts + 1 < maxAttempts {
            GiveBack(i, true, f);
          } else {
            seen := Finish(i, false, None, f);
          }
        case Answered(class_, usage) => seen := Finish(i, class_ == "", usage, f);
      }
    }

    /** One claimed job end to end: whatever it meets and whatever happens meanwhile,
        the execution ends, having taken exactly the steps its fate prescribes, each
        of them allowed by the protocol. When it won its commit, the store held the
        job, at a moment of this run, completed with the result if every gate let it
        through and its answer could be delivered, and failed otherwise. */
    method RunJob(i: nat, f: Fate) returns (ghost seen: Seen)
      requires Valid() && Mine(i) && sys.execs[i].phase.Claimed? && sys.execs[i].verdict.Undecided?
      modifies this`sys, this`trace
      ensures Valid() && Mine(i) && old(trace) <= trace && sys.execs[i].phase.Done?
      ensures sys.execs[i].verdict == VerdictOf(seen)
      ensures Own(i) == old(Own(i)) + RunActs(f, old(sys).execs[i].job.attempts, maxAttempts, seen)
      ensures seen.won ==>
        DecidedNow(|old(trace)|, old(sys).execs[i].job.id, f,
                   && f.decodes && f.readmission.Fine? && f.limiter.Passed? && !f.limitsFault && f.quota.Passed?
                   && !(f.metered && seen.error.Some?) && f.ending.Answered? && f.ending.class_ == "")
    {
      hide Valid, Step, ActExec, Acts, GateActs, EndingActs, FailureActs, DecidedSince, DecidedNow;
      ghost var attempts := sys.execs[i].job.attempts;
      ghost var id := sys.execs[i].job.id;
      GatesOnFields(f, attempts, maxAttempts);
      Others(i, f.noise(4));
      var pass;
      ghost var start := trace;
      pass, seen := PassGates(i, f);
      if !pass {
        if seen.won {
          DecidedLater(|start|, |old(trace)|, id, f, false);
        }
        return;
      }
      GatesIgnoreSeen(f, attempts, maxAttempts, seen);
      Others(i, f.noise(5));
      start := trace;
      pass, seen := ReserveMoney(i, f);
      if !pass {
        if seen.won {
          DecidedLater(|start|, |old(trace)|, id, f, false);
        }
        assert MoneyActs(f, seen) + [] == MoneyActs(f, seen);
        return;
      }
      ghost var begun := Own(i);
      Others(i, f.noise(6));
      ghost var admitted := seen;
      start := trace;
      seen := Conclude(i, f);
      if seen.won {
        DecidedLater(|start|, |old(trace)|, id, f, f.ending.Answered? && f.ending.class_ == "");
      }
      MoneyIgnoresOutcome(f, admitted, seen);
    }

    /** One claim attempt: the index of the execution it started, if any. */
    method ClaimOne(owner: string, lease: int, now: int) returns (i: Option<nat>)
      requires Valid()
      modifies this`sys, this`trace
      ensures Valid() && old(trace) <= trace
      ensures S.Filed(old(sys).store)
      ensures i.Some? <==> S.Next(old(sys).store, now).Some?
      ensures i.Some? ==> i.value == |old(sys).execs| && Mine(i.value)
      ensures i.Some? ==> sys.execs[i.value].phase.Claimed? && sys.execs[i.value].verdict.Undecided?
    {
      hide Valid, Step;
      ValidMeans();
      ClaimStep(sys, owner, lease, now, maxAttempts);
      var found := S.Next(sys.store, now).Some?;
      var n := |sys.execs|;
      Apply(Claim(owner, lease, now));
      return if found then Some(n) else None;
    }

    /** The loop body: claim, then run to the end. */
    method Work(owner: string, lease: int, now: int, f: Fate)
      requires Valid()
      modifies this`sys, this`trace
      ensures Valid() && old(trace) <= trace
    {
      hide Valid;
      var i := ClaimOne(owner, lease, now);
      if i.Some? {
        ghost var seen := RunJob(i.value, f);
      }
    }

    /** One pass of the recovery sweep: it audits every job it failed, then expires
        due results and reclaims idempotency keys. */
    method SweepOnce(body: string, now: int, reply: Reply)
      requires Valid()
      modifies this`sys, this`trace
      ensures Valid() && old(trace) <= trace
      ensures sys.owed == old(sys).owed && sys.execs == old(sys).execs
      ensures sys.audit == old(sys).audit + if reply.Clean? then multiset(Failing(old(sys).store, now, maxAttempts))
          else multiset{}
      ensures S.Filed(old(sys).store) && sys.store == SweptStore(old(sys).store, body, now, reply, maxAttempts)
    {
      hide Valid, Step, Failing, S.Step;
      var failed := Failing(sys.store, now, maxAttempts);
      ValidMeans();
      SweepStep(sys, body, now, reply, maxAttempts);
      Apply(Sweep(body, now, reply));
      var rest := if reply.Clean? then failed else {};
      while rest != {}
        invariant Valid() && old(trace) <= trace && rest <= failed && sys.execs == old(sys).execs
        invariant sys.owed == old(sys).owed + multiset(rest)
        invariant sys.store == RecoveredStore(old(sys).store, body, now, reply, maxAttempts)
        invariant sys.audit + multiset(rest) == old(sys).audit + if reply.Clean? then multiset(failed) else multiset{}
        decreases |rest|
      {
        var id :| id in rest;
        ValidMeans();
        PayStep(sys, id, maxAttempts);
        assert multiset(rest) == multiset(rest - {id}) + multiset{id};
        Apply(PayAudit(id));
        rest := rest - {id};
      }
      ValidMeans();
      ClientStep(sys, S.OpExpireDue(now), maxAttempts);
      Apply(Client(S.OpExpireDue(now)));
      ValidMeans();
      ClientStep(sys, S.OpSweepKeys(now), maxAttempts);
      Apply(Client(S.OpSweepKeys(now)));
    }

    /** The cancel handler after ownership checks: read (with lazy expiry), cancel, and
        audit exactly when the cancellation won. */
    method CancelJob(id: S.JobId, now: int, reply: Reply) returns (won: bool)
      requires Valid()
      modifies this`sys, this`trace
      ensures Valid() && old(trace) <= trace && sys.owed == old(sys).owed && sys.execs == old(sys).execs
      ensures won ==> reply.Clean? && Live(old(sys).store, id) && JobCancelled(sys.store, id)
      ensures reply.Clean? && Live(old(sys).store, id) ==> won
      ensures sys.audit == old(sys).audit + if won then multiset{id} else multiset{}
      ensures S.Filed(old(sys).store) && sys.store == CancelledStore(old(sys).store, id, now, reply)
    {
      hide Valid, Step, Live, S.Step;
      ValidMeans();
      ClientStep(sys, S.OpGet(id, now, now), maxAttempts);
      GetKeepsLive(sys, id, now, maxAttempts);
      Apply(Client(S.OpGet(id, now, now)));
      if id !in sys.store.jobs || sys.store.jobs[id].job.status == S.Expired {
        NotLive(sys.store, id);
        return false;
      }
      var live := Live(sys.store, id);
      ValidMeans();
      CancelStep(sys, id, now, reply, maxAttempts);
      Apply(Cancel(id, now, reply));
      won := reply.Clean? && live;
      if won {
        ValidMeans();
        PayStep(sys, id, maxAttempts);
        Apply(PayAudit(id));
      }
    }
  }

  lemma SweepStep(sys: Sys, body: string, now: int, reply: Reply, maxAttempts: int)
    requires S.Filed(sys.store)
    ensures var sys' := Step(sys, Sweep(body, now, reply), maxAttempts);
      sys'.execs == sys.execs && sys'.audit == sys.audit
      && sys'.store == RecoveredStore(sys.store, body, now, reply, maxAttempts)
      && sys'.owed == sys.owed + if reply.Clean? then multiset(Failing(sys.store, now, maxAttempts)) else multiset{}
  {
    hide S.Step, NextBooks, Failing;
  }

  lemma PayStep(sys: Sys, id: S.JobId, maxAttempts: int)
    requires S.Filed(sys.store)
    ensures var sys' := Step(sys, PayAudit(id), maxAttempts);
      sys.owed[id] > 0 ==>
        && sys'.execs == sys.execs && sys'.store == sys.store
        && sys'.audit == sys.audit + multiset{id} && sys'.owed == sys.owed - multiset{id}
  {
  }

  lemma ClientStep(sys: Sys, op: S.Op, maxAttempts: int)
    requires S.Filed(sys.store) && Undecisive(op)
    ensures var sys' := Step(sys, Client(op), maxAttempts);
      sys'.execs == sys.execs && sys'.audit == sys.audit && sys'.owed == sys.owed && sys'.store == S.Step(sys.store, op)
  {
    hide S.Step;
  }

  lemma GetKeepsLive(sys: Sys, id: S.JobId, now: int, maxAttempts: int)
    requires S.Filed(sys.store)
    ensures Live(S.Step(sys.store, S.OpGet(id, now, now)), id) == Live(sys.store, id)
  {
  }

  lemma NotLive(s: S.State, id: S.JobId)
    requires id !in s.jobs || s.jobs[id].job.status == S.Expired
    ensures !Live(s, id)
  {
  }

  lemma CancelStep(sys: Sys, id: S.JobId, now: int, reply: Reply, maxAttempts: int)
    requires S.Filed(sys.store)
    ensures var sys' := Step(sys, Cancel(id, now, reply), maxAttempts);
      && sys'.execs == sys.execs && sys'.audit == sys.audit
      && sys'.store == (if reply.LostBefore? then sys.store else S.Step(sys.store, S.OpCancel(id, now)))
      && sys'.owed == sys.owed + (if reply.Clean? && Live(sys.store, id) then multiset{id} else multiset{})
      && (!reply.LostBefore? && Live(sys.store, id) ==> JobCancelled(sys'.store, id))
  {
  }

  lemma ClaimStep(sys: Sys, owner: string, lease: int, now: int, maxAttempts: int)
    requires S.Filed(sys.store)
    ensures var sys' := Step(sys, Claim(owner, lease, now), maxAttempts);
      if S.Next(sys.store, now).Some? then |sys'.execs| == |sys.execs| + 1 && sys'.execs[|sys.execs|].phase.Claimed?
          && sys'.execs[|sys.execs|].verdict.Undecided?
      else sys'.execs == sys.execs
  {
    hide NextStore, NextBooks, Ended;
  }

  // ---- The lists and what was seen ----

  lemma FailureIgnoresError(f: Fate, s: Seen, error: Option<A.ReserveError>)
    ensures FailureActs(f, s.(error := error)) == FailureActs(f, s)
  {
  }

  lemma GatesIgnoreSeen(f: Fate, attempts: nat, maxAttempts: int, s: Seen)
    ensures forall t :: GateActs(f, attempts, maxAttempts, s).None? <==> GateActs(f, attempts, maxAttempts, t).None?
  {
  }

  lemma GatesOnFields(f: Fate, attempts: nat, maxAttempts: int)
    ensures forall s ::
      GateActs(f, attempts, maxAttempts, s).None? <==>
        f.decodes && f.readmission.Fine? && f.limiter.Passed? && !f.limitsFault && f.quota.Passed?
  {
  }

  lemma MoneyIgnoresOutcome(f: Fate, s: Seen, t: Seen)
    requires s.error.None? && t.error.None?
    ensures MoneyActs(f, s) == MoneyActs(f, t)
  {
  }

  // ---- Facts about one step ----

  lemma StartSound()
    ensures S.Filed(START.store) && Run(START, [], 0) == START && M.Inv(START)
    ensures forall m :: Run(START, [], m) == START
  {
  }

  lemma InvFiled(sys: Sys)
    requires M.Inv(sys)
    ensures S.Filed(sys.store)
  {
  }

  lemma {:induction false} RunSnoc(sys: Sys, evs: seq<Event>, ev: Event, maxAttempts: int)
    requires S.Filed(sys.store)
    ensures Run(sys, evs + [ev], maxAttempts) == Step(Run(sys, evs, maxAttempts), ev, maxAttempts)
    decreases |evs|
  {
    hide Step;
    StepKeepsFiled(sys, if evs == [] then ev else evs[0], maxAttempts);
    if evs == [] {
      assert evs + [ev] == [ev];
      assert Run(sys, [ev], maxAttempts) == Run(Step(sys, ev, maxAttempts), [], maxAttempts);
    } else {
      assert (evs + [ev])[0] == evs[0] && (evs + [ev])[1..] == evs[1..] + [ev];
      RunSnoc(Step(sys, evs[0], maxAttempts), evs[1..], ev, maxAttempts);
    }
  }

  /** Only its own steps change an execution. */
  lemma OthersKeep(sys: Sys, ev: Event, maxAttempts: int, i: nat)
    requires S.Filed(sys.store) && i < |sys.execs| && !(ev.Execute? && ev.i == i)
    ensures var sys' := Step(sys, ev, maxAttempts);
      i < |sys'.execs| && sys'.execs[i] == sys.execs[i]
  {
    hide NextStore, NextBooks, Ended, ActExec;
  }

  lemma SoundHeld(sys: Sys, i: nat)
    requires M.Inv(sys) && i < |sys.execs|
    ensures Held(sys.books, sys.execs[i])
  {
    assert M.Sound(sys.books, sys.execs[i]);
  }

  lemma StepTakes(sys: Sys, i: nat, act: Act, maxAttempts: int)
    requires S.Filed(sys.store) && i < |sys.execs| && Allowed(maxAttempts, sys.execs[i], act)
        && Held(sys.books, sys.execs[i])
    ensures Enabled(sys, Execute(i, act), maxAttempts)
    ensures (act.SettleCall? ==> sys.execs[i].phase.Settling?) && (act.Look? ==> sys.execs[i].phase.Racing?)
    ensures var sys' := Step(sys, Execute(i, act), maxAttempts);
      |sys'.execs| == |sys.execs|
      && sys'.execs[i] == ActExec(sys.store, NextStore(sys, Execute(i, act), maxAttempts), sys.books, sys.execs[i], act)
  {
    hide NextStore, NextBooks, Ended, ActExec;
  }
}

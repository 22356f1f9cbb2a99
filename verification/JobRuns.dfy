/** Properties of every run of the job store: arbitrary interleavings of the
    operations of any number of workers, sweeps and clients. */
module JobRuns {
  import opened Common
  import opened JobStore

  // ---- One terminal outcome ----

  /** The transitions a job may ever make. */
  predicate Edge(a: Status, b: Status) {
    || a == b
    || (a == Queued && (b == Running || b == Cancelled))
    || (a == Running && (b == Queued || b == Completed || b == Failed || b == Cancelled))
    || ((a == Completed || a == Failed) && b == Expired)
  }

  /** What never changes after creation. */
  predicate SameOrigin(a: Job, b: Job) {
    a.id == b.id && a.subject == b.subject && a.digest == b.digest && a.createdAt == b.createdAt
  }

  lemma StepEdges(s: State, op: Op, id: JobId)
    requires Filed(s) && id in s.jobs
    ensures var a, b := s.jobs[id], Step(s, op).jobs[id];
      && Edge(a.job.status, b.job.status) && SameOrigin(a.job, b.job) && a.request == b.request
      && (Terminal(a.job.status) ==> b.job.attempts == a.job.attempts && b.job.finalRequest == a.job.finalRequest)
  {
  }

  lemma NewJobsAreQueued(s: State, op: Op, id: JobId)
    requires Filed(s) && id !in s.jobs && id in Step(s, op).jobs
    ensures op.OpCreate? && Step(s, op).jobs[id].job == NewJob(op.input) && op.input.jobId == id
  {
  }

  /** How one operation moved one job. */
  datatype Move =
    | Claimed          // queued to running
    | ChargedReturn    // running to queued, an attempt spent
    | FreeReturn       // running to queued, no attempt spent
    | EndedRunning     // running to completed, failed or cancelled
    | EndedQueued      // queued to cancelled
    | Aged             // completed or failed to expired

  function MoveOf(a: Job, b: Job): Option<Move> {
    if a.status == Queued && b.status == Running then Some(Claimed)
    else if a.status == Running && b.status == Queued then
      Some(if b.attempts > a.attempts then ChargedReturn else FreeReturn)
    else if a.status == Running && Terminal(b.status) then Some(EndedRunning)
    else if a.status == Queued && Terminal(b.status) then Some(EndedQueued)
    else if a.status != Expired && b.status == Expired then Some(Aged)
    else None
  }

  /** How often a run moves job id that way. */
  ghost function Tally(s: State, ops: seq<Op>, id: JobId, m: Move): nat
    requires Filed(s)
    decreases |ops|
  {
    if ops == [] then 0
    else
      StepFiled(s, ops[0]);
      var s' := Step(s, ops[0]);
      Indicator(Moved(s, s', id, m)) + Tally(s', ops[1..], id, m)
  }

  predicate Moved(s: State, s': State, id: JobId, m: Move) {
    id in s.jobs && id in s'.jobs && MoveOf(s.jobs[id].job, s'.jobs[id].job) == Some(m)
  }

  function Indicator(b: bool): nat {
    if b then 1 else 0
  }

  /** Where a job stands: present and terminal, running, expired. */
  predicate IsTerminal(s: State, id: JobId) {
    id in s.jobs && Terminal(s.jobs[id].job.status)
  }

  predicate IsRunning(s: State, id: JobId) {
    id in s.jobs && s.jobs[id].job.status == Running
  }

  predicate IsExpired(s: State, id: JobId) {
    id in s.jobs && s.jobs[id].job.status == Expired
  }

  function Attempts(s: State, id: JobId): nat {
    if id in s.jobs then s.jobs[id].job.attempts else 0
  }

  /** The accounting identities of one operation. */
  lemma StepAccounts(s: State, op: Op, id: JobId)
    requires Filed(s)
    ensures var s' := Step(s, op);
      && Indicator(Moved(s, s', id, EndedRunning)) + Indicator(Moved(s, s', id, EndedQueued))
         + Indicator(IsTerminal(s, id))
         == Indicator(IsTerminal(s', id))
      && Indicator(Moved(s, s', id, Claimed)) + Indicator(IsRunning(s, id))
         == Indicator(Moved(s, s', id, ChargedReturn)) + Indicator(Moved(s, s', id, FreeReturn))
            + Indicator(Moved(s, s', id, EndedRunning)) + Indicator(IsRunning(s', id))
      && Indicator(Moved(s, s', id, Aged)) + Indicator(IsExpired(s, id)) == Indicator(IsExpired(s', id))
      && (!IsTerminal(s', id) ==> Attempts(s', id) == Attempts(s, id) + Indicator(Moved(s, s', id, ChargedReturn)))
  {
    if id in s.jobs {
      StepEdges(s, op, id);
      LiveAttempts(s, op, id);
    } else if id in Step(s, op).jobs {
      NewJobsAreQueued(s, op, id);
    }
    hide Step;
  }

  lemma LiveAttempts(s: State, op: Op, id: JobId)
    requires Filed(s) && id in s.jobs
    ensures var a, b := s.jobs[id].job, Step(s, op).jobs[id].job;
      !Terminal(b.status) ==> b.attempts == a.attempts + Indicator(MoveOf(a, b) == Some(ChargedReturn))
  {
  }

  /** One terminal outcome and exact attempt accounting, over every run and for
      every job: it enters completed, failed or cancelled once if it is terminal at
      the end and never otherwise, expires at most once and only after that; its
      claims are its charged returns plus its free returns plus the claim it holds
      or ended with; and while it lives its attempt count is its number of charged
      returns. Stated as differences between the two ends, so runs compose. */
  lemma {:induction false} RunAccounts(s: State, ops: seq<Op>, id: JobId)
    requires Filed(s)
    ensures var s' := Run(s, ops);
      && Tally(s, ops, id, EndedRunning) + Tally(s, ops, id, EndedQueued) + Indicator(IsTerminal(s, id))
         == Indicator(IsTerminal(s', id))
      && Tally(s, ops, id, Claimed) + Indicator(IsRunning(s, id))
         == Tally(s, ops, id, ChargedReturn) + Tally(s, ops, id, FreeReturn) + Tally(s, ops, id, EndedRunning)
            + Indicator(IsRunning(s', id))
      && Tally(s, ops, id, Aged) + Indicator(IsExpired(s, id)) == Indicator(IsExpired(s', id))
      && (!IsTerminal(s', id) ==> Attempts(s', id) == Attempts(s, id) + Tally(s, ops, id, ChargedReturn))
    decreases |ops|
  {
    if ops != [] {
      StepFiled(s, ops[0]);
      StepAccounts(s, ops[0], id);
      RunAccounts(Step(s, ops[0]), ops[1..], id);
      hide Step, Moved;
    }
  }

  /** A terminal job is never queued or running again, in any continuation. */
  lemma {:induction false} TerminalForever(s: State, ops: seq<Op>, id: JobId)
    requires Filed(s) && IsTerminal(s, id)
    ensures var s' := Run(s, ops);
      && IsTerminal(s', id)
      && (s'.jobs[id].job.status == s.jobs[id].job.status || s'.jobs[id].job.status == Expired)
      && (s.jobs[id].job.status == Cancelled ==> s'.jobs[id].job.status == Cancelled)
      && s'.jobs[id].job.attempts == s.jobs[id].job.attempts
      && s'.jobs[id].job.finalRequest == s.jobs[id].job.finalRequest
    decreases |ops|
  {
    if ops != [] {
      StepFiled(s, ops[0]);
      StepEdges(s, ops[0], id);
      hide StepRec;
      TerminalForever(Step(s, ops[0]), ops[1..], id);
    }
  }

  // ---- Attempt bound ----

  /** The guards workers and the sweep apply before spending an attempt: a charged
      return leaves at least one attempt, and the sweep uses the same maximum. */
  predicate Guarded(s: State, op: Op, maxAttempts: int) {
    match op
    case OpRequeue(id, owner, bump, _, _) => Owned(s, id, owner) && bump ==> s.jobs[id].job.attempts + 1 < maxAttempts
    case OpRecover(m, _, _) => m == maxAttempts
    case _ => true
  }

  predicate BoundedRec(j: Job, maxAttempts: int) {
    && j.attempts <= maxAttempts
    && (!Terminal(j.status) ==> j.attempts < maxAttempts)
  }

  predicate Bounded(s: State, maxAttempts: int) {
    forall id :: id in s.jobs ==> BoundedRec(s.jobs[id].job, maxAttempts)
  }

  lemma StepBoundedRec(s: State, op: Op, id: JobId, maxAttempts: int)
    requires Filed(s) && maxAttempts >= 1 && id in s.jobs
    requires BoundedRec(s.jobs[id].job, maxAttempts) && Guarded(s, op, maxAttempts)
    ensures BoundedRec(Step(s, op).jobs[id].job, maxAttempts)
  {
  }

  lemma StepBounded(s: State, op: Op, maxAttempts: int)
    requires Filed(s) && maxAttempts >= 1 && Bounded(s, maxAttempts) && Guarded(s, op, maxAttempts)
    ensures Bounded(Step(s, op), maxAttempts)
  {
    StepFiled(s, op);
    forall id | id in Step(s, op).jobs ensures BoundedRec(Step(s, op).jobs[id].job, maxAttempts) {
      if id in s.jobs {
        StepBoundedRec(s, op, id, maxAttempts);
      } else {
        NewJobsAreQueued(s, op, id);
      }
    }
  }

  /** The guard is needed step by step: a charged return keeps the bound exactly
      when the stored count, not the caller's copy of it, passes the guard. */
  lemma ChargedReturnKeepsBoundIff(s: State, id: JobId, owner: string, notBefore: Option<int>, now: int,
                                   maxAttempts: int)
    requires Filed(s) && maxAttempts >= 1 && Bounded(s, maxAttempts) && Owned(s, id, owner)
    ensures Bounded(Step(s, OpRequeue(id, owner, true, notBefore, now)), maxAttempts)
       <==> s.jobs[id].job.attempts + 1 < maxAttempts
  {
    var op := OpRequeue(id, owner, true, notBefore, now);
    if s.jobs[id].job.attempts + 1 < maxAttempts {
      StepBounded(s, op, maxAttempts);
    } else {
      var after := Step(s, op).jobs[id].job;
      assert after.status == Queued && after.attempts >= maxAttempts;
    }
  }
}

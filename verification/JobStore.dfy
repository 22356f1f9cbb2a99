/** The background-job state machine (internal/async/memory.go) on values: every
    store operation is one atomic step over the job and idempotency maps. */
module JobStore {
  import opened Common

  /** Job identifiers, represented by their rank in the store's string order. */
  type JobId = nat

  datatype Status = Queued | Running | Completed | Failed | Cancelled | Expired

  predicate Terminal(s: Status) {
    s != Queued && s != Running
  }

  datatype Result = Result(response: string, errorClass: string, retention: int, createdAt: int)

  /** None stands for Go's zero time. */
  datatype Job = Job(
    id: JobId,
    subject: string,
    digest: string,
    status: Status,
    attempts: nat,
    owner: string,
    leaseExpires: Option<int>,
    finalRequest: string,
    resultExpires: Option<int>,
    createdAt: int,
    updatedAt: int)

  datatype Rec = Rec(job: Job, request: string, result: Option<Result>, visibleAt: Option<int>)

  datatype Mapping = Mapping(jobId: JobId, expiresAt: int)

  datatype State = State(jobs: map<JobId, Rec>, idem: map<string, Mapping>)

  const EMPTY: State := State(map[], map[])

  // ---- Creation ----

  datatype CreateInput = CreateInput(jobId: JobId, subject: string, digest: string, request: string,
                                     keyHash: string, keyTTL: int, now: int)

  datatype Created = Fresh(job: Job) | Replayed(job: Job) | Conflict | MissingJob | DuplicateId

  function MapKey(subject: string, keyHash: string): string {
    subject + [0 as char] + keyHash
  }

  function NewJob(i: CreateInput): Job {
    Job(i.jobId, i.subject, i.digest, Queued, 0, "", None, "", None, i.now, i.now)
  }

  /** The mapping a lookup at time now would honour. */
  function LiveMapping(s: State, key: string, now: int): Option<Mapping> {
    if key in s.idem && now <= s.idem[key].expiresAt then Some(s.idem[key]) else None
  }

  function Create(s: State, i: CreateInput): (State, Created) {
    var key := MapKey(i.subject, i.keyHash);
    var live := if i.keyHash == "" then None else LiveMapping(s, key, i.now);
    if live.Some? then
      (s,
       if live.value.jobId !in s.jobs then MissingJob
       else if s.jobs[live.value.jobId].job.digest != i.digest then Conflict
       else Replayed(s.jobs[live.value.jobId].job))
    else
      // an expired mapping is dropped even when the creation then fails
      var idem := if i.keyHash == "" then s.idem else s.idem - {key};
      if i.jobId in s.jobs then (State(s.jobs, idem), DuplicateId)
      else
        var job := NewJob(i);
        (State(s.jobs[i.jobId := Rec(job, i.request, None, None)],
               if i.keyHash == "" then idem else idem[key := Mapping(i.jobId, i.now + i.keyTTL)]),
         Fresh(job))
  }

  // ---- Per-record transitions ----

  function Unleased(j: Job, status: Status, now: int): Job {
    j.(status := status, owner := "", leaseExpires := None, updatedAt := now)
  }

  /** The result is due: a completed or failed job past its retention. */
  predicate Due(r: Rec, now: int) {
    && (r.job.status == Completed || r.job.status == Failed)
    && r.job.resultExpires.Some? && r.job.resultExpires.value < now
  }

  function ExpireRec(r: Rec, stamp: int): Rec {
    r.(job := r.job.(status := Expired, updatedAt := stamp), result := None)
  }

  predicate Lapsed(r: Rec, now: int) {
    r.job.status == Running && r.job.leaseExpires.Some? && r.job.leaseExpires.value < now
  }

  /** The sweep's decision on one lapsed lease: the lost attempt is counted, and
      the last one fails the job. */
  function RecoverRec(r: Rec, maxAttempts: int, body: string, now: int): Rec {
    if r.job.attempts + 1 >= maxAttempts then
      r.(job := Unleased(r.job, Failed, now).(attempts := r.job.attempts + 1, resultExpires := Some(now)),
         result := Some(Result(body, "lease_lost", now, now)))
    else
      r.(job := Unleased(r.job, Queued, now).(attempts := r.job.attempts + 1), visibleAt := None)
  }

  /** The compare half of every worker transition: status and owner string only. */
  predicate Owned(s: State, id: JobId, owner: string) {
    id in s.jobs && s.jobs[id].job.status == Running && s.jobs[id].job.owner == owner
  }

  // ---- Claiming ----

  predicate Visible(r: Rec, now: int) {
    r.job.status == Queued && (r.visibleAt.None? || r.visibleAt.value <= now)
  }

  /** Oldest first, ties by identifier. */
  predicate Before(a: Job, b: Job) {
    a.createdAt < b.createdAt || (a.createdAt == b.createdAt && a.id < b.id)
  }

  predicate IsNext(s: State, now: int, id: JobId) {
    && id in s.jobs && Visible(s.jobs[id], now)
    && forall k :: k in s.jobs && Visible(s.jobs[k], now) && k != id ==> Before(s.jobs[id].job, s.jobs[k].job)
  }

  /** Records are filed under their own identifier. */
  predicate Filed(s: State) {
    forall id :: id in s.jobs ==> s.jobs[id].job.id == id
  }

  lemma NextExists(s: State, ids: set<JobId>)
    requires Filed(s) && ids != {} && forall id :: id in ids ==> id in s.jobs
    ensures exists id :: id in ids && forall k :: k in ids && k != id ==> Before(s.jobs[id].job, s.jobs[k].job)
  {
    var x :| x in ids;
    var rest := ids - {x};
    if rest != {} {
      NextExists(s, rest);
      var y :| y in rest && forall k :: k in rest && k != y ==> Before(s.jobs[y].job, s.jobs[k].job);
      var least := if Before(s.jobs[x].job, s.jobs[y].job) then x else y;
      forall k | k in ids && k != least ensures Before(s.jobs[least].job, s.jobs[k].job) {
        assert k == x || k in rest;
      }
    } else {
      assert ids == {x};
    }
  }

  function Next(s: State, now: int): (r: Option<JobId>)
    requires Filed(s)
    ensures r.Some? ==> IsNext(s, now, r.value)
    ensures r.None? ==> forall id :: id in s.jobs ==> !Visible(s.jobs[id], now)
  {
    var ids := set id | id in s.jobs && Visible(s.jobs[id], now);
    if ids == {} then
      assert forall id :: id in s.jobs && Visible(s.jobs[id], now) ==> id in ids;
      None
    else
      NextExists(s, ids);
      var id :| id in ids && forall k :: k in ids && k != id ==> Before(s.jobs[id].job, s.jobs[k].job);
      assert IsNext(s, now, id);
      Some(id)
  }

  lemma NextIsUnique(s: State, now: int, x: JobId, y: JobId)
    requires IsNext(s, now, x) && IsNext(s, now, y)
    ensures x == y
  {
  }

  function ClaimRec(r: Rec, owner: string, lease: int, now: int): Rec {
    r.(job := r.job.(status := Running, owner := owner, leaseExpires := Some(now + lease), updatedAt := now),
       visibleAt := None)
  }

  // ---- Operations ----

  datatype Commit = Commit(finalRequest: string, response: string, errorClass: string, resultExpires: int, bump: bool)

  datatype Op =
    | OpCreate(input: CreateInput)
    | OpGet(id: JobId, now: int, clock: int)
    | OpCancel(id: JobId, now: int)
    | OpClaim(owner: string, lease: int, now: int)
    | OpHeartbeat(id: JobId, owner: string, lease: int, now: int)
    | OpSucceed(id: JobId, owner: string, commit: Commit, now: int)
    | OpFail(id: JobId, owner: string, commit: Commit, now: int)
    | OpRequeue(id: JobId, owner: string, bump: bool, notBefore: Option<int>, now: int)
    | OpRecover(maxAttempts: int, body: string, now: int)
    | OpExpireDue(now: int)
    | OpSweepKeys(now: int)

  function CommitRec(r: Rec, status: Status, c: Commit, now: int): Rec {
    r.(job := Unleased(r.job, status, now).(finalRequest := c.finalRequest, resultExpires := Some(c.resultExpires),
                                            attempts := r.job.attempts + (if c.bump then 1 else 0)),
       result := Some(Result(c.response, c.errorClass, c.resultExpires, now)))
  }

  function RequeueRec(r: Rec, bump: bool, notBefore: Option<int>, now: int): Rec {
    r.(job := Unleased(r.job, Queued, now).(attempts := r.job.attempts + (if bump then 1 else 0)),
       visibleAt := notBefore)
  }

  /** Jobs after one operation: each record's own transition. */
  function StepRec(s: State, op: Op, id: JobId): Rec
    requires Filed(s) && id in s.jobs
  {
    var r := s.jobs[id];
    match op
    case OpCreate(_) => r
    case OpGet(k, now, clock) => if id == k && Due(r, now) then ExpireRec(r, clock) else r
    case OpCancel(k, now) => if id == k && !Terminal(r.job.status) then r.(job := Unleased(r.job, Cancelled, now))
        else r
    case OpClaim(owner, lease, now) => if Next(s, now) == Some(id) then ClaimRec(r, owner, lease, now) else r
    case OpHeartbeat(k, owner, lease, now) =>
      if id == k && Owned(s, id, owner) then r.(job := r.job.(leaseExpires := Some(now + lease))) else r
    case OpSucceed(k, owner, c, now) => if id == k && Owned(s, id, owner)
        then CommitRec(r, Completed, c.(errorClass := ""), now) else r
    case OpFail(k, owner, c, now) => if id == k && Owned(s, id, owner) then CommitRec(r, Failed, c, now) else r
    case OpRequeue(k, owner, bump, notBefore, now) =>
      if id == k && Owned(s, id, owner) then RequeueRec(r, bump, notBefore, now) else r
    case OpRecover(maxAttempts, body, now) => if Lapsed(r, now) then RecoverRec(r, maxAttempts, body, now) else r
    case OpExpireDue(now) => if Due(r, now) then ExpireRec(r, now) else r
    case OpSweepKeys(_) => r
  }

  function Step(s: State, op: Op): State
    requires Filed(s)
  {
    if op.OpCreate? then Create(s, op.input).0
    else
      State(map id | id in s.jobs :: StepRec(s, op, id),
            if op.OpSweepKeys? then map k | k in s.idem && op.now <= s.idem[k].expiresAt :: s.idem[k] else s.idem)
  }

  /** The time an operation is stamped with. */
  function TimeOf(op: Op): int {
    if op.OpCreate? then op.input.now else op.now
  }

  lemma StepFiled(s: State, op: Op)
    requires Filed(s)
    ensures Filed(Step(s, op))
    ensures forall id :: id in s.jobs ==> id in Step(s, op).jobs
  {
  }

  function Run(s: State, ops: seq<Op>): State
    requires Filed(s)
    ensures Filed(Run(s, ops))
    decreases |ops|
  {
    if ops == [] then s
    else
      StepFiled(s, ops[0]);
      Run(Step(s, ops[0]), ops[1..])
  }
}

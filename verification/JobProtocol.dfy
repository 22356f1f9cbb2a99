/** The execution protocol over the job store: any number of worker executions
    (internal/async/worker.go), the recovery sweep and the cancel handler
    (internal/httpapi/async.go), each taking one atomic step at a time against
    the store, the accounting books and the audit trail. A crash is an execution
    that takes no further step. */
module JobProtocol {
  import opened Common
  import opened JobStore
  import opened JobRuns
  import A = Accounting
  import B = Budget
  import L = Ledger
  import Cost

  // ---- Executions ----

  /** Where one execution of a claimed job stands. */
  datatype Phase =
    | Claimed                                               // gates before the reservation
    | Refused(error: A.ReserveError)                        // the money gate said no
    | Executing                                             // reserved, calling the provider
    | Returning(bump: bool)                                 // refunded, handing the job back
    | Racing(seen: Cost.Usage)                              // lost the commit with known usage
    | Dropping                                              // about to refund and stop
    | Settling(usage: Option<Cost.Usage>, retried: bool)    // finalizing the reservation
    | Auditing                                              // commit winner, settled
    | Done

  /** How the execution's terminal commit ended. Observed is the cancel-after-output
      exception: it lost to a cancellation but settles what it saw. */
  datatype Verdict = Undecided | Won | Observed

  /** job is the snapshot taken by the claim; billed is the exact cost its
      settlement wrote, when that was known. */
  datatype Exec = Exec(job: Job, phase: Phase, handle: Option<A.Handle>, verdict: Verdict, billed: Option<int>)

  /** A store call answers, or fails before or after the statement landed. */
  datatype Reply = Clean | LostBefore | LostAfter

  /** What the money gate is asked with, and how its sources answer. */
  datatype Terms = Terms(wired: bool, enforcement: bool, policy: A.Fetch<A.Policy>, price: A.Fetch<Option<Cost.Price>>,
                         subject: string, tenant: string, stamp: B.Stamp, at: int, estimate: Cost.Usage,
                         ledgerFault: bool)

  datatype Act =
    | Reserve(terms: Terms)
    | Unmetered                                             // accounting is not configured
    | Reject(commit: Commit, reply: Reply, now: int)        // pre-execution terminal failure
    | Unencodable(fault: bool)                              // the failure envelope could not be built
    | HandBack(bump: bool, notBefore: Option<int>, reply: Reply, now: int)
    | Surrender(bump: bool, fault: bool)                    // aborted or retryable: refund first
    | Outcome(completed: bool, usage: Option<Cost.Usage>, commit: Commit, reply: Reply, now: int)
    | Look(now: int, clock: int, fault: bool)               // did a cancellation win?
    | Drop(fault: bool)
    | SettleCall(price: A.Fetch<Option<Cost.Price>>, at: int, fault: bool)
    | WriteAudit

  /** The worker classifies the error as an infrastructure outage. */
  predicate Outage(error: A.ReserveError) {
    A.WorkerClass(error).None?
  }

  /** Which acts the code can take in which phase. A charged return is guarded by
      the snapshot's attempt count, an abort is free. */
  predicate Allowed(maxAttempts: int, e: Exec, act: Act) {
    match act
    case Reserve(t) => e.phase.Claimed?
    case Unmetered => e.phase.Claimed?
    case Reject(c, _, _) => (e.phase.Claimed? || (e.phase.Refused? && !Outage(e.phase.error))) && c.bump
    case Unencodable(_) => e.phase.Claimed? || (e.phase.Refused? && !Outage(e.phase.error)) || e.phase.Executing?
    case HandBack(bump, _, _, _) =>
      || (e.phase.Claimed? && (bump ==> e.job.attempts + 1 < maxAttempts))
      || (e.phase.Refused? && Outage(e.phase.error) && !bump)
      || e.phase == Returning(bump)
    case Surrender(bump, _) => e.phase.Executing? && (bump ==> e.job.attempts + 1 < maxAttempts)
    case Outcome(completed, usage, c, _, _) => e.phase.Executing? && c.bump
    case Look(_, _, _) => e.phase.Racing?
    case Drop(_) => e.phase.Dropping?
    case SettleCall(_, _, _) => e.phase.Settling?
    case WriteAudit => e.phase.Auditing?
  }

  // ---- Effects of one act ----

  /** The ledger identity of a job's executions. Only that jobs have different,
      non-empty names is ever used. */
  function JobKey(id: JobId): L.Identity {
    L.Identity("", "resp_" + Digits(id))
  }

  function Digits(n: nat): string {
    if n < 10 then [('0' as int + n) as char] else Digits(n / 10) + [('0' as int + n % 10) as char]
  }

  function Admission(b: A.Books, e: Exec, t: Terms): A.Admission {
    A.Admit(b, t.wired, t.enforcement, t.policy, t.price,
            A.Request(JobKey(e.job.id), t.subject, t.tenant, t.stamp, t.at, t.estimate), t.ledgerFault)
  }

  predicate Held(b: A.Books, e: Exec) {
    e.handle.Some? ==> A.Held(b, e.handle.value)
  }

  /** Both refunds; an execution without a reservation has nothing to refund. */
  function Refund(b: A.Books, e: Exec, fault: bool): A.Books
    requires Held(b, e)
  {
    if e.handle.None? then b else A.ReleaseOn(b, e.handle.value, fault).books
  }

  function Refunded(b: A.Books, e: Exec, fault: bool): Option<A.Handle>
    requires Held(b, e)
  {
    if e.handle.None? then None else Some(A.ReleaseOn(b, e.handle.value, fault).handle)
  }

  function Observation(e: Exec): Cost.Usage
    requires e.phase.Settling?
  {
    e.phase.usage.GetOr(Cost.Usage(None, None, None, None))
  }

  function Settlement(b: A.Books, e: Exec, act: Act): A.Step
    requires act.SettleCall? && e.phase.Settling? && e.handle.Some? && Held(b, e)
  {
    A.SettleOn(b, e.handle.value, Observation(e), act.price, act.at, act.fault)
  }

  function ActBooks(b: A.Books, e: Exec, act: Act): A.Books
    requires Held(b, e) && (act.SettleCall? ==> e.phase.Settling?)
  {
    match act
    case Reserve(t) => Admission(b, e, t).books
    case Unencodable(fault) => Refund(b, e, fault)
    case Surrender(_, fault) => Refund(b, e, fault)
    case Drop(fault) => Refund(b, e, fault)
    case SettleCall(_, _, _) => if e.handle.None? then b else Settlement(b, e, act).books
    case _ => b
  }

  /** The store statement an act issues, if any. */
  function Statement(e: Exec, act: Act): Option<Op> {
    match act
    case Reject(c, _, now) => Some(OpFail(e.job.id, e.job.owner, c, now))
    case HandBack(bump, notBefore, _, now) =>
      if e.job.owner == "" then None else Some(OpRequeue(e.job.id, e.job.owner, bump, notBefore, now))
    case Outcome(completed, _, c, _, now) =>
      Some(if completed then OpSucceed(e.job.id, e.job.owner, c, now) else OpFail(e.job.id, e.job.owner, c, now))
    case Look(now, clock, fault) => if fault then None else Some(OpGet(e.job.id, now, clock))
    case _ => None
  }

  function ReplyOf(act: Act): Reply {
    if act.Reject? || act.HandBack? || act.Outcome? then act.reply else Clean
  }

  predicate Commits(act: Act) {
    act.Reject? || act.Outcome?
  }

  /** After a terminal commit: the winner settles, a loser that saw usage looks
      for a cancellation, everyone else drops what it holds. */
  function AfterCommit(s: State, e: Exec, reply: Reply, usage: Option<Cost.Usage>): Exec {
    if reply.Clean? && Owned(s, e.job.id, e.job.owner) then e.(phase := Settling(usage, false), verdict := Won)
    else if reply.Clean? && usage.Some? then e.(phase := Racing(usage.value))
    else e.(phase := Dropping)
  }

  /** A failed settlement is retried once; a winner then writes its audit record. */
  function AfterSettle(b: A.Books, e: Exec, act: Act): Exec
    requires act.SettleCall? && e.phase.Settling? && Held(b, e)
  {
    var next := if e.verdict.Won? then Auditing else Phase.Done;
    if e.handle.None? then e.(phase := next)
    else
      var step := Settlement(b, e, act);
      if step.ok then
        e.(phase := next, handle := Some(step.handle),
           billed := A.CostOf(Observation(e), if Observation(e).Reported() && act.price.Got? then act.price.value
                              else None))
      else if !e.phase.retried then e.(phase := Settling(e.phase.usage, true))
      else e.(phase := next)
  }

  predicate JobCancelled(s: State, id: JobId) {
    id in s.jobs && s.jobs[id].job.status == Cancelled
  }

  function ActExec(s: State, after: State, b: A.Books, e: Exec, act: Act): Exec
    requires Held(b, e)
    requires (act.SettleCall? ==> e.phase.Settling?) && (act.Look? ==> e.phase.Racing?)
  {
    match act
    case Reserve(t) =>
      (match Admission(b, e, t).outcome
       case Admitted(h) => e.(phase := Executing, handle := Some(h))
       case Refused(error) => e.(phase := Phase.Refused(error)))
    case Unmetered => e.(phase := Executing)
    case Reject(_, reply, _) => AfterCommit(s, e, reply, None)
    case Unencodable(fault) => e.(phase := Phase.Done, handle := Refunded(b, e, fault))
    case HandBack(_, _, _, _) => e.(phase := Phase.Done)
    case Surrender(bump, fault) => e.(phase := Returning(bump), handle := Refunded(b, e, fault))
    case Outcome(_, usage, _, reply, _) => AfterCommit(s, e, reply, usage)
    case Look(_, _, fault) =>
      if !fault && JobCancelled(after, e.job.id) then
        e.(phase := Settling(Some(e.phase.seen), false), verdict := Observed)
      else e.(phase := Dropping)
    case Drop(fault) => e.(phase := Phase.Done, handle := Refunded(b, e, fault))
    case SettleCall(_, _, _) => AfterSettle(b, e, act)
    case WriteAudit => e.(phase := Phase.Done)
  }

  /** A job that meets a conflicting budget policy is handed back free, whatever
      else its execution might try: it can neither fail nor spend an attempt. */
  lemma ConflictIsHandedBackFree(s: State, after: State, b: A.Books, e: Exec, t: Terms, act: Act, maxAttempts: int)
    requires Held(b, e) && e.phase.Claimed? && t.policy.Conflict?
    requires Allowed(maxAttempts, ActExec(s, after, b, e, Reserve(t)), act)
    ensures ActBooks(b, e, Reserve(t)) == b
    ensures act.HandBack? && !act.bump
  {
    A.PolicyConflictIsMasked(b, t.wired, t.enforcement, t.policy, t.price,
                             A.Request(JobKey(e.job.id), t.subject, t.tenant, t.stamp, t.at, t.estimate),
                             t.ledgerFault);
  }

  // ---- The system ----

  /** owed are the records the cancel handler and the sweep have yet to write;
      lost are transitions whose winner never learned that it won. */
  datatype Sys = Sys(store: State, books: A.Books, execs: seq<Exec>,
                     audit: multiset<JobId>, owed: multiset<JobId>, lost: multiset<JobId>)

  const START: Sys := Sys(EMPTY, A.Books(B.Gate(map[], []), []), [], multiset{}, multiset{}, multiset{})

  datatype Event =
    | Client(op: Op)                                        // create, get, heartbeat, expiry, key sweep
    | Cancel(id: JobId, now: int, reply: Reply)
    | Sweep(body: string, now: int, reply: Reply)
    | PayAudit(id: JobId)
    | Claim(owner: string, lease: int, now: int)
    | Execute(i: nat, act: Act)
    | Traffic(charge: B.Op, row: L.Op)                      // everyone else's use of the books

  predicate Undecisive(op: Op) {
    op.OpCreate? || op.OpGet? || op.OpHeartbeat? || op.OpExpireDue? || op.OpSweepKeys?
  }

  /** A reservation some execution holds. */
  predicate Reserved(execs: seq<Exec>, n: nat) {
    exists i :: 0 <= i < |execs| && Holds(execs[i], n)
  }

  predicate Holds(e: Exec, n: nat) {
    e.handle.Some? && e.handle.value.charged == Some(n)
  }

  predicate ForeignBudget(execs: seq<Exec>, op: B.Op) {
    op.OpReserve? || !Reserved(execs, op.id)
  }

  function RowIdentity(row: L.Op): Option<L.Identity> {
    match row
    case Insert(id, _, _) => Some(id)
    case Settle(id, _) => Some(id)
    case Release(id) => Some(id)
    case Fault => None
  }

  /** Synchronous requests account under a request identifier, which the client
      chooses: nothing keeps it from being spelled like a job's. */
  predicate ForeignRow(row: L.Op) {
    RowIdentity(row).Some? ==> RowIdentity(row).value.requestId != "" && RowIdentity(row).value.jobId == ""
  }

  predicate Enabled(sys: Sys, ev: Event, maxAttempts: int) {
    match ev
    case Client(op) => Undecisive(op)
    case PayAudit(id) => sys.owed[id] > 0
    case Execute(i, act) => i < |sys.execs| && Allowed(maxAttempts, sys.execs[i], act) && Held(sys.books, sys.execs[i])
    case Traffic(op, row) => ForeignBudget(sys.execs, op) && ForeignRow(row)
    case _ => true
  }

  function Landed(op: Op, reply: Reply): Option<Op> {
    if reply.LostBefore? then None else Some(op)
  }

  /** The one store statement an event commits, if any. */
  function Effect(sys: Sys, ev: Event, maxAttempts: int): Option<Op>
    requires Enabled(sys, ev, maxAttempts)
  {
    match ev
    case Client(op) => Some(op)
    case Cancel(id, now, reply) => Landed(OpCancel(id, now), reply)
    case Sweep(body, now, reply) => Landed(OpRecover(maxAttempts, body, now), reply)
    case Claim(owner, lease, now) => Some(OpClaim(owner, lease, now))
    case Execute(i, act) =>
      var op := Statement(sys.execs[i], act);
      if op.None? then None else Landed(op.value, ReplyOf(act))
    case _ => None
  }

  function NextStore(sys: Sys, ev: Event, maxAttempts: int): State
    requires Enabled(sys, ev, maxAttempts) && Filed(sys.store)
  {
    match Effect(sys, ev, maxAttempts)
    case None => sys.store
    case Some(op) => JobStore.Step(sys.store, op)
  }

  function NextBooks(sys: Sys, ev: Event, maxAttempts: int): A.Books
    requires Enabled(sys, ev, maxAttempts)
  {
    match ev
    case Execute(i, act) => ActBooks(sys.books, sys.execs[i], act)
    case Traffic(op, row) => A.Books(B.Step(sys.books.budget, op), L.Step(sys.books.ledger, row))
    case _ => sys.books
  }

  /** A successful claim starts an execution of the claimed snapshot. */
  function NextExecs(sys: Sys, ev: Event, maxAttempts: int): seq<Exec>
    requires Enabled(sys, ev, maxAttempts) && Filed(sys.store)
  {
    match ev
    case Claim(owner, lease, now) =>
      (match Next(sys.store, now)
       case None => sys.execs
       case Some(id) =>
         sys.execs + [Exec(ClaimRec(sys.store.jobs[id], owner, lease, now).job, Phase.Claimed, None, Undecided, None)])
    case Execute(i, act) =>
      sys.execs[i := ActExec(sys.store, NextStore(sys, ev, maxAttempts), sys.books, sys.execs[i], act)]
    case _ => sys.execs
  }

  // ---- Audit tokens ----

  predicate Live(s: State, id: JobId) {
    id in s.jobs && !Terminal(s.jobs[id].job.status)
  }

  /** The jobs a sweep fails. */
  function Failing(s: State, now: int, maxAttempts: int): set<JobId> {
    set id | id in s.jobs && Lapsed(s.jobs[id], now) && s.jobs[id].job.attempts + 1 >= maxAttempts
  }

  /** The terminal transitions an event makes outside the winner-audits-later path
      of executions. */
  function Ended(sys: Sys, ev: Event, maxAttempts: int): multiset<JobId> {
    match ev
    case Cancel(id, _, _) => if Live(sys.store, id) then multiset{id} else multiset{}
    case Sweep(_, now, _) => multiset(Failing(sys.store, now, maxAttempts))
    case Execute(i, act) =>
      if i < |sys.execs| && Commits(act) && Owned(sys.store, sys.execs[i].job.id, sys.execs[i].job.owner)
      then multiset{sys.execs[i].job.id} else multiset{}
    case _ => multiset{}
  }

  function EventReply(ev: Event): Reply {
    match ev
    case Cancel(_, _, reply) => reply
    case Sweep(_, _, reply) => reply
    case Execute(_, act) => ReplyOf(act)
    case _ => Clean
  }

  function Step(sys: Sys, ev: Event, maxAttempts: int): Sys
    requires Filed(sys.store)
  {
    if !Enabled(sys, ev, maxAttempts) then sys
    else
      Sys(NextStore(sys, ev, maxAttempts), NextBooks(sys, ev, maxAttempts), NextExecs(sys, ev, maxAttempts),
          sys.audit + (if ev.PayAudit? then multiset{ev.id}
                       else if ev.Execute? && ev.act.WriteAudit? then multiset{sys.execs[ev.i].job.id}
                       else multiset{}),
          (if ev.PayAudit? then sys.owed - multiset{ev.id} else sys.owed)
            + (if EventReply(ev).Clean? && !ev.Execute? then Ended(sys, ev, maxAttempts) else multiset{}),
          sys.lost + (if EventReply(ev).LostAfter? then Ended(sys, ev, maxAttempts) else multiset{}))
  }

  lemma StepKeepsFiled(sys: Sys, ev: Event, maxAttempts: int)
    requires Filed(sys.store)
    ensures Filed(Step(sys, ev, maxAttempts).store)
    ensures forall id :: id in sys.store.jobs ==> id in Step(sys, ev, maxAttempts).store.jobs
  {
    if Enabled(sys, ev, maxAttempts) && Effect(sys, ev, maxAttempts).Some? {
      StepFiled(sys.store, Effect(sys, ev, maxAttempts).value);
    }
    hide JobStore.Step, NextBooks, NextExecs, Effect, Ended;
  }

  function Run(sys: Sys, evs: seq<Event>, maxAttempts: int): Sys
    requires Filed(sys.store)
    ensures Filed(Run(sys, evs, maxAttempts).store)
    decreases |evs|
  {
    if evs == [] then sys
    else
      StepKeepsFiled(sys, evs[0], maxAttempts);
      Run(Step(sys, evs[0], maxAttempts), evs[1..], maxAttempts)
  }

  // ---- Counting executions of one job ----

  function CountExecs(execs: seq<Exec>, id: JobId, p: Exec -> bool): nat {
    if execs == [] then 0
    else
      var n := |execs| - 1;
      CountExecs(execs[..n], id, p) + Indicator(execs[n].job.id == id && p(execs[n]))
  }

  lemma {:induction false} CountUpdate(execs: seq<Exec>, i: nat, e: Exec, id: JobId, p: Exec -> bool)
    requires i < |execs|
    ensures CountExecs(execs[i := e], id, p) + Indicator(execs[i].job.id == id && p(execs[i]))
         == CountExecs(execs, id, p) + Indicator(e.job.id == id && p(e))
  {
    var n := |execs| - 1;
    if i == n {
      assert execs[i := e][..n] == execs[..n];
    } else {
      assert execs[i := e][..n] == execs[..n][i := e];
      CountUpdate(execs[..n], i, e, id, p);
    }
  }

  lemma CountSnoc(execs: seq<Exec>, e: Exec, id: JobId, p: Exec -> bool)
    ensures CountExecs(execs + [e], id, p) == CountExecs(execs, id, p) + Indicator(e.job.id == id && p(e))
  {
    assert (execs + [e])[..|execs|] == execs;
  }

  lemma {:induction false} CountNone(execs: seq<Exec>, id: JobId, p: Exec -> bool)
    ensures CountExecs(execs, id, p) == 0 <==> forall i :: 0 <= i < |execs| ==> execs[i].job.id != id || !p(execs[i])
  {
    if execs != [] {
      var n := |execs| - 1;
      CountNone(execs[..n], id, p);
      assert forall i :: 0 <= i < n ==> execs[..n][i] == execs[i];
    }
  }
}

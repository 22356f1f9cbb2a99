/** No starvation in the claim queue, with an explicit bound. */
module JobFairness {
  import opened Common
  import opened JobStore
  import opened JobRuns

  /** Claims a job can still win before its attempts run out. */
  function Credit(j: Job, maxAttempts: int): int {
    if Terminal(j.status) then 0
    else if j.status == Running then maxAttempts - j.attempts - 1
    else maxAttempts - j.attempts
  }

  ghost function SumCredit(s: State, ids: set<JobId>, maxAttempts: int): int
    requires forall id :: id in ids ==> id in s.jobs
  {
    if ids == {} then 0
    else
      var id :| id in ids;
      Credit(s.jobs[id].job, maxAttempts) + SumCredit(s, ids - {id}, maxAttempts)
  }

  /** The jobs ahead of id in the queue order. */
  ghost function Older(s: State, id: JobId): set<JobId>
    requires id in s.jobs
  {
    set k | k in s.jobs && Before(s.jobs[k].job, s.jobs[id].job)
  }

  /** The number of other claims that can still come first. */
  ghost function Wait(s: State, id: JobId, maxAttempts: int): int
    requires id in s.jobs
  {
    SumCredit(s, Older(s, id), maxAttempts)
  }

  lemma {:induction false} SumPick(s: State, ids: set<JobId>, maxAttempts: int, x: JobId)
    requires forall id :: id in ids ==> id in s.jobs
    requires x in ids
    ensures SumCredit(s, ids, maxAttempts) == Credit(s.jobs[x].job, maxAttempts) + SumCredit(s, ids - {x}, maxAttempts)
    decreases |ids|
  {
    var y :| y in ids && SumCredit(s, ids, maxAttempts) ==
        Credit(s.jobs[y].job, maxAttempts) + SumCredit(s, ids - {y}, maxAttempts);
    if y != x {
      SumPick(s, ids - {y}, maxAttempts, x);
      SumPick(s, ids - {x}, maxAttempts, y);
      assert ids - {y} - {x} == ids - {x} - {y};
    }
  }

  /** Pointwise comparison of two states' sums, with one job's drop singled out. */
  lemma {:induction false} SumDrops(s: State, s': State, ids: set<JobId>, maxAttempts: int, dropped: set<JobId>)
    requires forall id :: id in ids ==> id in s.jobs && id in s'.jobs
    requires forall id :: id in ids ==>
      Credit(s'.jobs[id].job, maxAttempts) + (if id in dropped then 1 else 0) <= Credit(s.jobs[id].job, maxAttempts)
    ensures SumCredit(s', ids, maxAttempts) + |ids * dropped| <= SumCredit(s, ids, maxAttempts)
    decreases |ids|
  {
    if ids == {} {
      assert ids * dropped == {};
    } else {
      var x :| x in ids;
      SumPick(s, ids, maxAttempts, x);
      SumPick(s', ids, maxAttempts, x);
      SumDrops(s, s', ids - {x}, maxAttempts, dropped);
      if x in dropped {
        assert ids * dropped == (ids - {x}) * dropped + {x};
      } else {
        assert ids * dropped == (ids - {x}) * dropped;
      }
    }
  }

  lemma {:induction false} SumNonNegative(s: State, ids: set<JobId>, maxAttempts: int)
    requires forall id :: id in ids ==> id in s.jobs && Credit(s.jobs[id].job, maxAttempts) >= 0
    ensures SumCredit(s, ids, maxAttempts) >= 0
    decreases |ids|
  {
    if ids != {} {
      var x :| x in ids;
      SumPick(s, ids, maxAttempts, x);
      SumNonNegative(s, ids - {x}, maxAttempts);
    }
  }

  /** One operation of a run in which job id waits: guarded attempts, no creation
      filed ahead of it, and never before it is visible. */
  ghost predicate PatientStep(s: State, op: Op, id: JobId, maxAttempts: int)
    requires Filed(s)
  {
    && id in s.jobs && Visible(s.jobs[id], TimeOf(op))
    && Guarded(s, op, maxAttempts)
    && (op.OpCreate? && Create(s, op.input).1.Fresh? ==> !Before(NewJob(op.input), s.jobs[id].job))
  }

  /** And without a free return. */
  ghost predicate FairStep(s: State, op: Op, id: JobId, maxAttempts: int)
    requires Filed(s)
  {
    PatientStep(s, op, id, maxAttempts) && (op.OpRequeue? && Owned(s, op.id, op.owner) ==> op.bump)
  }

  ghost predicate Waits(s: State, ops: seq<Op>, id: JobId, maxAttempts: int)
    requires Filed(s)
    decreases |ops|
  {
    ops == [] ||
    (StepFiled(s, ops[0]);
     FairStep(s, ops[0], id, maxAttempts) && Waits(Step(s, ops[0]), ops[1..], id, maxAttempts))
  }

  function ClaimCalls(ops: seq<Op>): nat {
    if ops == [] then 0 else (if ops[0].OpClaim? then 1 else 0) + ClaimCalls(ops[1..])
  }

  /** No job's credit grows, and a claim that passes id over spends one. */
  lemma StepCredit(s: State, op: Op, id: JobId, k: JobId, maxAttempts: int)
    requires Filed(s) && FairStep(s, op, id, maxAttempts) && Bounded(s, maxAttempts) && k in s.jobs
    ensures var spent := if op.OpClaim? && Next(s, op.now) == Some(k) then 1 else 0;
      Credit(Step(s, op).jobs[k].job, maxAttempts) + spent <= Credit(s.jobs[k].job, maxAttempts)
  {
    assert Step(s, op).jobs[k] == StepRec(s, op, k);
  }

  lemma OlderIsFixed(s: State, op: Op, id: JobId, maxAttempts: int)
    requires Filed(s) && FairStep(s, op, id, maxAttempts)
    ensures id in Step(s, op).jobs && Older(Step(s, op), id) == Older(s, id)
  {
    var s' := Step(s, op);
    StepFiled(s, op);
    StepEdges(s, op, id);
    forall k ensures k in Older(s', id) <==> k in Older(s, id) {
      if k in s.jobs {
        StepEdges(s, op, k);
      } else if k in s'.jobs {
        NewJobsAreQueued(s, op, k);
      }
    }
  }

  /** A claim made while id is visible always claims something, and if that is not
      id it is an older job: backed-off jobs never block and younger ones never
      overtake. */
  lemma ClaimTakesAnOlderJob(s: State, now: int, id: JobId)
    requires Filed(s) && id in s.jobs && Visible(s.jobs[id], now)
    ensures Next(s, now).Some?
    ensures Next(s, now).value == id || Next(s, now).value in Older(s, id)
  {
  }

  lemma WaitStep(s: State, op: Op, id: JobId, maxAttempts: int)
    requires Filed(s) && FairStep(s, op, id, maxAttempts) && Bounded(s, maxAttempts)
    requires id in Step(s, op).jobs && Step(s, op).jobs[id].job.status == Queued
    ensures Wait(Step(s, op), id, maxAttempts) + (if op.OpClaim? then 1 else 0) <= Wait(s, id, maxAttempts)
  {
    var s' := Step(s, op);
    var older := Older(s, id);
    OlderIsFixed(s, op, id, maxAttempts);
    var claimed: set<JobId> := if op.OpClaim? then (ClaimTakesAnOlderJob(s, op.now, id); {Next(s, op.now).value})
        else {};
    if op.OpClaim? {
      ClaimTakesAnOlderJob(s, op.now, id);
      assert Step(s, op).jobs[id] == StepRec(s, op, id);
      assert older * claimed == claimed;
    }
    StepFiled(s, op);
    forall k | k in older
      ensures k in s.jobs && k in s'.jobs
      ensures Credit(s'.jobs[k].job, maxAttempts) + (if k in claimed then 1 else 0)
              <= Credit(s.jobs[k].job, maxAttempts)
    {
      StepCredit(s, op, id, k, maxAttempts);
    }
    SumDrops(s, s', older, maxAttempts, claimed);
  }

  /** No starvation: while a visible queued job waits, absent free requeues, the
      number of claim calls that pass it over is at most the sum, over the older
      live jobs, of the claims their remaining attempts allow. One more claim call
      must take it. */
  lemma {:induction false} NoStarvation(s: State, ops: seq<Op>, id: JobId, maxAttempts: int)
    requires Filed(s) && maxAttempts >= 1 && Bounded(s, maxAttempts) && id in s.jobs
    requires Waits(s, ops, id, maxAttempts)
    requires ops != [] ==> id in Run(s, ops).jobs && Run(s, ops).jobs[id].job.status == Queued
    ensures ClaimCalls(ops) <= Wait(s, id, maxAttempts)
    decreases |ops|
  {
    if ops == [] {
      forall k | k in Older(s, id) ensures Credit(s.jobs[k].job, maxAttempts) >= 0 {
      }
      SumNonNegative(s, Older(s, id), maxAttempts);
    } else {
      var s1 := Step(s, ops[0]);
      StepFiled(s, ops[0]);
      StepBounded(s, ops[0], maxAttempts);
      NoStarvation(s1, ops[1..], id, maxAttempts);
      WaitStep(s, ops[0], id, maxAttempts);
    }
  }

  // ---- Free returns ----

  /** A run in which job id waits, free returns allowed. */
  ghost predicate WaitsPatiently(s: State, ops: seq<Op>, id: JobId, maxAttempts: int)
    requires Filed(s)
    decreases |ops|
  {
    ops == [] ||
    (StepFiled(s, ops[0]);
     PatientStep(s, ops[0], id, maxAttempts) && WaitsPatiently(Step(s, ops[0]), ops[1..], id, maxAttempts))
  }

  /** An older and a younger job, both queued. */
  function TwoJobs(): State {
    State(map[0 := Rec(NewJob(CreateInput(0, "s", "d", "r", "", 0, 0)), "r", None, None),
              1 := Rec(NewJob(CreateInput(1, "s", "d", "r", "", 0, 0)), "r", None, None)], map[])
  }

  /** The older job is claimed and handed back free, n times. */
  function FreeRounds(n: nat): seq<Op> {
    if n == 0 then [] else [OpClaim("w", 1, 0)] + ([OpRequeue(0, "w", false, None, 0)] + FreeRounds(n - 1))
  }

  function ClaimedState(): State {
    TwoJobs().(jobs := TwoJobs().jobs[0 := ClaimRec(TwoJobs().jobs[0], "w", 1, 0)])
  }

  lemma RoundClaims()
    ensures Filed(TwoJobs()) && Step(TwoJobs(), OpClaim("w", 1, 0)) == ClaimedState()
  {
    var s := TwoJobs();
    assert IsNext(s, 0, 0);
    NextIsUnique(s, 0, 0, Next(s, 0).value);
    hide Next, IsNext;
    assert Step(s, OpClaim("w", 1, 0)).jobs == ClaimedState().jobs;
  }

  lemma RoundReturns()
    ensures Filed(ClaimedState()) && Step(ClaimedState(), OpRequeue(0, "w", false, None, 0)) == TwoJobs()
  {
    assert Step(ClaimedState(), OpRequeue(0, "w", false, None, 0)).jobs == TwoJobs().jobs;
  }

  lemma OneClaimAhead()
    ensures Wait(TwoJobs(), 1, 1) == 1
  {
    var s := TwoJobs();
    assert Older(s, 1) == {0};
    SumPick(s, {0}, 1, 0);
    assert {0} - {0} == {};
  }

  lemma OneRound(rest: seq<Op>)
    requires Filed(TwoJobs())
    requires WaitsPatiently(TwoJobs(), rest, 1, 1) && Run(TwoJobs(), rest) == TwoJobs()
    ensures var ops := [OpClaim("w", 1, 0)] + ([OpRequeue(0, "w", false, None, 0)] + rest);
      && WaitsPatiently(TwoJobs(), ops, 1, 1) && Run(TwoJobs(), ops) == TwoJobs()
      && ClaimCalls(ops) == ClaimCalls(rest) + 1
  {
    var back := OpRequeue(0, "w", false, None, 0);
    var claim := OpClaim("w", 1, 0);
    RoundClaims();
    RoundReturns();
    assert PatientStep(ClaimedState(), back, 1, 1) && PatientStep(TwoJobs(), claim, 1, 1);
    hide Step, TwoJobs, ClaimedState, PatientStep;
    assert ([back] + rest)[1..] == rest && ([claim] + ([back] + rest))[1..] == [back] + rest;
    assert WaitsPatiently(ClaimedState(), [back] + rest, 1, 1) && Run(ClaimedState(), [back] + rest) == TwoJobs();
    assert ClaimCalls([back] + rest) == ClaimCalls(rest);
  }

  /** The restriction to charged returns is needed, and no bound replaces it: for
      every n there is a run that keeps every other rule of NoStarvation and in which
      n free returns make n claims pass over a visible job whose waiting measure is
      one claim. */
  lemma {:induction false} FreeReturnsStarve(n: nat)
    ensures Filed(TwoJobs()) && Bounded(TwoJobs(), 1) && TwoJobs().jobs[1].job.status == Queued
    ensures WaitsPatiently(TwoJobs(), FreeRounds(n), 1, 1) && Run(TwoJobs(), FreeRounds(n)) == TwoJobs()
    ensures ClaimCalls(FreeRounds(n)) == n
    ensures Wait(TwoJobs(), 1, 1) == 1
  {
    OneClaimAhead();
    if n > 0 {
      FreeReturnsStarve(n - 1);
      OneRound(FreeRounds(n - 1));
    }
  }
}

/** What the store operations (internal/async/memory.go) do to a job's own fields,
    and what follows for runs: leases, backoff, expiry and the stored result. */
module JobFields {
  import opened Common
  import opened JobStore
  import P = JobProtocol

  // ---- Leases and time ----

  /** The sweep takes a job exactly when its lease ended before the sweep's time. The
      last attempt fails it; otherwise it is queued again and visible at once. */
  lemma SweepTakesEndedLeases(s: State, id: JobId, m: int, body: string, now: int)
    requires Filed(s) && id in s.jobs
    ensures var a, b := s.jobs[id], Step(s, OpRecover(m, body, now)).jobs[id];
      && (b == a <==> !(a.job.status == Running && a.job.leaseExpires.Some? && a.job.leaseExpires.value < now))
      && (b != a ==>
            && b.job.attempts == a.job.attempts + 1 && b.job.owner == "" && b.job.leaseExpires.None?
            && b.job.updatedAt == now && b.job.finalRequest == a.job.finalRequest
            && (b.job.status == Failed <==> a.job.attempts + 1 >= m)
            && (b.job.status == Queued <==> a.job.attempts + 1 < m)
            && (b.job.status == Queued ==> b.visibleAt.None? && b.result == a.result)
            && (b.job.status == Failed ==>
                  b.result == Some(Result(body, "lease_lost", now, now)) && b.job.resultExpires == Some(now)))
  {
  }

  /** The jobs a sweep reports as failed are exactly those it fails. */
  lemma SweepReportsWhatItFails(s: State, m: int, body: string, now: int)
    requires Filed(s)
    ensures forall id :: id in P.Failing(s, now, m) <==>
      id in s.jobs && s.jobs[id].job.status == Running && Step(s, OpRecover(m, body, now)).jobs[id].job.status == Failed
    ensures forall id :: id in P.Failing(s, now, m) ==>
      s.jobs[id].job.leaseExpires.Some? && s.jobs[id].job.leaseExpires.value < now && s.jobs[id].job.attempts + 1 >= m
  {
    hide Next;
  }

  /** Every claim and every heartbeat of the job leases it until t at least, and no
      sweep runs after t. */
  predicate LeasedUntil(op: Op, id: JobId, t: int) {
    && (op.OpClaim? ==> t <= op.now + op.lease)
    && (op.OpHeartbeat? && op.id == id ==> t <= op.now + op.lease)
    && (op.OpRecover? ==> op.now <= t)
  }

  /** No sweep of the run changes the job. */
  ghost predicate NeverSwept(s: State, ops: seq<Op>, id: JobId)
    requires Filed(s)
    decreases |ops|
  {
    ops == [] ||
    (StepFiled(s, ops[0]);
    && (ops[0].OpRecover? && id in s.jobs ==> Step(s, ops[0]).jobs[id] == s.jobs[id])
    && NeverSwept(Step(s, ops[0]), ops[1..], id))
  }

  predicate LeaseReaches(s: State, id: JobId, t: int) {
    id in s.jobs && s.jobs[id].job.status == Running && s.jobs[id].job.leaseExpires.Some? ==>
      t <= s.jobs[id].job.leaseExpires.value
  }

  lemma LeaseStep(s: State, op: Op, id: JobId, t: int)
    requires Filed(s) && LeasedUntil(op, id, t) && LeaseReaches(s, id, t)
    ensures LeaseReaches(Step(s, op), id, t)
    ensures op.OpRecover? && id in s.jobs ==> Step(s, op).jobs[id] == s.jobs[id]
  {
  }

  lemma {:induction false} LeaseOutlivesSweeps(s: State, ops: seq<Op>, id: JobId, t: int)
    requires Filed(s) && LeaseReaches(s, id, t) && forall op :: op in ops ==> LeasedUntil(op, id, t)
    ensures NeverSwept(s, ops, id)
    decreases |ops|
  {
    if ops != [] {
      StepFiled(s, ops[0]);
      assert ops[0] in ops;
      LeaseStep(s, ops[0], id, t);
      hide Step, LeaseReaches;
      LeaseOutlivesSweeps(Step(s, ops[0]), ops[1..], id, t);
    }
  }

  /** A job whose owner claims or heartbeats until t at least is not touched by any
      sweep up to t, the end point included, whatever else runs. */
  lemma LeaseIsHonoured(s: State, first: Op, ops: seq<Op>, id: JobId, t: int)
    requires Filed(s) && id in s.jobs && LeasedUntil(first, id, t)
    requires || (first.OpClaim? && s.jobs[id].job.status == Queued)
             || (first.OpHeartbeat? && first.id == id && s.jobs[id].job.status == Running
                 && s.jobs[id].job.owner == first.owner)
    requires forall op :: op in ops ==> LeasedUntil(op, id, t)
    ensures Filed(Step(s, first)) && NeverSwept(Step(s, first), ops, id)
  {
    StepFiled(s, first);
    assert LeaseReaches(Step(s, first), id, t);
    LeaseOutlivesSweeps(Step(s, first), ops, id, t);
  }

  // ---- Claims and backoff ----

  /** A claim takes one job or none: the queued one that is visible by now and the
      oldest such, by creation and identifier; it is leased to the claimer from now on
      and no other record changes. None is taken only when none is claimable. */
  lemma ClaimTakesTheOldest(s: State, id: JobId, owner: string, lease: int, now: int)
    requires Filed(s) && id in s.jobs
    ensures var s' := Step(s, OpClaim(owner, lease, now));
      var a, b := s.jobs[id], s'.jobs[id];
      var claimable := a.job.status == Queued && (a.visibleAt.None? || a.visibleAt.value <= now);
      && (b == a || (claimable && b == a.(visibleAt := None, job := a.job.(status := Running, owner := owner,
                                            leaseExpires := Some(now + lease), updatedAt := now))))
      && (claimable ==>
            exists k :: k in s.jobs && s'.jobs[k].job.status == Running && s.jobs[k].job.status == Queued
              && (s.jobs[k].job.createdAt < a.job.createdAt || (s.jobs[k].job.createdAt == a.job.createdAt && k <= id)))
      && (b != a ==> forall k :: k in s.jobs && k != id ==> s'.jobs[k] == s.jobs[k])
  {
    if Visible(s.jobs[id], now) {
      var k := Next(s, now).value;
      assert IsNext(s, now, k);
      assert Step(s, OpClaim(owner, lease, now)).jobs[k].job.status == Running;
    }
  }

  /** A job returned until t is not running again before a claim at t or later. */
  lemma {:induction false} BackoffIsKept(s: State, ops: seq<Op>, id: JobId, t: int)
    requires Filed(s) && id in s.jobs && s.jobs[id].job.status == Queued && s.jobs[id].visibleAt == Some(t)
    requires forall op :: op in ops && op.OpClaim? ==> op.now < t
    ensures id in Run(s, ops).jobs
    ensures Run(s, ops).jobs[id] == s.jobs[id] || Run(s, ops).jobs[id].job.status == Cancelled
    decreases |ops|
  {
    if ops != [] {
      StepFiled(s, ops[0]);
      assert ops[0] in ops;
      var s' := Step(s, ops[0]);
      assert s'.jobs[id] == s.jobs[id] || s'.jobs[id].job.status == Cancelled;
      hide Step;
      if s'.jobs[id] == s.jobs[id] {
        BackoffIsKept(s', ops[1..], id, t);
      } else {
        TerminalKeeps(s', ops[1..], id);
      }
    }
  }

  // ---- Creation and its keys ----

  /** A job is created unless its identifier is taken or its key has a live mapping:
      queued, unspent, claimable at once, with its request; and its key, if it has
      one, leads to it until the key's time is over. */
  lemma FreshJobs(s: State, i: CreateInput)
    requires Filed(s)
    ensures var key := i.subject + [0 as char] + i.keyHash;
      var mapped := i.keyHash != "" && key in s.idem && i.now <= s.idem[key].expiresAt;
      var (s', answer) := Create(s, i);
      && (answer.Fresh? <==> !mapped && i.jobId !in s.jobs)
      && (answer == DuplicateId <==> !mapped && i.jobId in s.jobs)
      && (answer == MissingJob <==> mapped && s.idem[key].jobId !in s.jobs)
      && (!answer.Fresh? ==> s'.jobs == s.jobs)
      && (answer.Fresh? ==>
            && s'.jobs.Keys == s.jobs.Keys + {i.jobId} && (forall id :: id in s.jobs ==> s'.jobs[id] == s.jobs[id])
            && var r := s'.jobs[i.jobId];
            && answer.job == r.job && r.request == i.request && r.result.None? && r.visibleAt.None?
            && r.job.id == i.jobId && r.job.subject == i.subject && r.job.digest == i.digest
            && r.job.status == Queued && r.job.attempts == 0 && r.job.owner == "" && r.job.leaseExpires.None?
            && r.job.createdAt == i.now
            && (i.keyHash == "" ==> s'.idem == s.idem)
            && (i.keyHash != "" ==> s'.idem == s.idem[key := Mapping(i.jobId, i.now + i.keyTTL)]))
  {
  }

  /** The key sweep keeps a mapping up to and including its expiry, and drops it
      after. */
  lemma KeysLiveUntilTheirExpiry(s: State, key: string, now: int)
    requires Filed(s)
    ensures var s' := Step(s, OpSweepKeys(now));
      && (key in s'.idem <==> key in s.idem && now <= s.idem[key].expiresAt)
      && (key in s'.idem ==> s'.idem[key] == s.idem[key])
      && s'.jobs == s.jobs
  {
    assert Step(s, OpSweepKeys(now)).jobs == s.jobs;
  }

  // ---- The owner's statements ----

  /** The running owner's return: queued with the delay it asked for, and an attempt
      spent if it said so. Anyone else's changes nothing. */
  lemma ReturnByOwner(s: State, id: JobId, owner: string, bump: bool, notBefore: Option<int>, now: int)
    requires Filed(s) && id in s.jobs
    ensures var a, b := s.jobs[id], Step(s, OpRequeue(id, owner, bump, notBefore, now)).jobs[id];
      if a.job.status == Running && a.job.owner == owner then
        && b.job.status == Queued && b.job.owner == "" && b.job.leaseExpires.None? && b.job.updatedAt == now
        && b.visibleAt == notBefore && b.result == a.result
        && b.job.attempts == a.job.attempts + (if bump then 1 else 0)
      else b == a
  {
  }

  /** A heartbeat moves the lease of the running owner and nothing else. */
  lemma HeartbeatByOwner(s: State, id: JobId, k: JobId, owner: string, lease: int, now: int)
    requires Filed(s) && id in s.jobs
    ensures var a, b := s.jobs[id], Step(s, OpHeartbeat(k, owner, lease, now)).jobs[id];
      && (id == k && a.job.status == Running && a.job.owner == owner ==> b.job.leaseExpires == Some(now + lease))
      && (!(id == k && a.job.status == Running && a.job.owner == owner) ==> b == a)
      && b == a.(job := a.job.(leaseExpires := b.job.leaseExpires))
  {
  }

  /** A cancellation ends a queued or running job, keeps its attempts, and changes
      no other job and no ended one. */
  lemma CancelEndsLiveJobs(s: State, id: JobId, k: JobId, now: int)
    requires Filed(s) && id in s.jobs
    ensures var a, b := s.jobs[id], Step(s, OpCancel(k, now)).jobs[id];
      if id == k && (a.job.status == Queued || a.job.status == Running) then
        && b.job.status == Cancelled && b.job.owner == "" && b.job.leaseExpires.None? && b.job.updatedAt == now
        && b.job.attempts == a.job.attempts && b.result == a.result
      else b == a
  {
  }

  // ---- The stored result ----

  /** This operation ended the job and left this record: the owner's commit with the
      result it carries, or a sweep that found the last attempt's lease over. */
  predicate EndedWith(before: State, op: Op, id: JobId, r: Rec) {
    && id in before.jobs && before.jobs[id].job.status == Running && r.job.owner == "" && r.job.leaseExpires.None?
    && match op
       case OpSucceed(k, owner, c, now) =>
         && k == id && owner == before.jobs[id].job.owner && r.job.status == Completed
         && r.result == Some(Result(c.response, "", c.resultExpires, now))
         && r.job.finalRequest == c.finalRequest && r.job.resultExpires == Some(c.resultExpires)
         && r.job.attempts == before.jobs[id].job.attempts + (if c.bump then 1 else 0)
       case OpFail(k, owner, c, now) =>
         && k == id && owner == before.jobs[id].job.owner && r.job.status == Failed
         && r.result == Some(Result(c.response, c.errorClass, c.resultExpires, now))
         && r.job.finalRequest == c.finalRequest && r.job.resultExpires == Some(c.resultExpires)
         && r.job.attempts == before.jobs[id].job.attempts + (if c.bump then 1 else 0)
       case OpRecover(m, body, now) =>
         && before.jobs[id].job.leaseExpires.Some? && before.jobs[id].job.leaseExpires.value < now
         && r.job.attempts == before.jobs[id].job.attempts + 1 >= m && r.job.status == Failed
         && r.result == Some(Result(body, "lease_lost", now, now)) && r.job.resultExpires == Some(now)
       case _ => false
  }

  /** A result is readable until it is due: a completed or failed job expires, and
      loses its result, at the first read or sweep after its retention. */
  lemma ExpiryIsByRetention(s: State, id: JobId, now: int, clock: int)
    requires Filed(s) && id in s.jobs
    ensures var a, read, swept :=
              s.jobs[id], Step(s, OpGet(id, now, clock)).jobs[id], Step(s, OpExpireDue(now)).jobs[id];
      var due := (a.job.status == Completed || a.job.status == Failed)
          && a.job.resultExpires.Some? && a.job.resultExpires.value < now;
      && (if due then read.job.status == Expired && read.result.None? && read.job.updatedAt == clock else read == a)
      && (if due then swept.job.status == Expired && swept.result.None? && swept.job.updatedAt == now else swept == a)
  {
  }

  lemma TerminalStep(s: State, op: Op, id: JobId)
    requires Filed(s) && id in s.jobs && Terminal(s.jobs[id].job.status)
    ensures var b := Step(s, op).jobs[id];
      b == s.jobs[id] || (b.job.status == Expired && b.result.None?)
    ensures s.jobs[id].job.status == Cancelled || s.jobs[id].job.status == Expired ==>
      Step(s, op).jobs[id] == s.jobs[id]
  {
  }

  /** What ended the job stays until it expires. */
  lemma {:induction false} TerminalKeeps(s: State, ops: seq<Op>, id: JobId)
    requires Filed(s) && id in s.jobs && Terminal(s.jobs[id].job.status)
    ensures id in Run(s, ops).jobs
    ensures var b := Run(s, ops).jobs[id];
      b == s.jobs[id] || (b.job.status == Expired && b.result.None?)
    ensures s.jobs[id].job.status == Cancelled || s.jobs[id].job.status == Expired ==>
      Run(s, ops).jobs[id] == s.jobs[id]
    decreases |ops|
  {
    if ops != [] {
      StepFiled(s, ops[0]);
      TerminalStep(s, ops[0], id);
      hide Step;
      TerminalKeeps(Step(s, ops[0]), ops[1..], id);
    }
  }

  /** A job that has not ended, or does not exist, yet. */
  predicate Unended(s: State, id: JobId) {
    id in s.jobs ==> !Terminal(s.jobs[id].job.status) && s.jobs[id].result.None?
  }

  lemma EndingOfARecord(s: State, op: Op, id: JobId)
    requires Filed(s) && id in s.jobs && Unended(s, id)
    ensures var b := Step(s, op).jobs[id];
      && (b.job.status == Completed || b.job.status == Failed ==> EndedWith(s, op, id, b))
      && b.job.status != Expired
      && (b.result.Some? <==> b.job.status == Completed || b.job.status == Failed)
  {
    hide Next;
  }

  lemma EndingStep(s: State, op: Op, id: JobId)
    requires Filed(s) && Unended(s, id) && id in Step(s, op).jobs
    ensures var b := Step(s, op).jobs[id];
      && (b.job.status == Completed || b.job.status == Failed ==> EndedWith(s, op, id, b))
      && b.job.status != Expired
      && (b.result.Some? <==> b.job.status == Completed || b.job.status == Failed)
  {
    if id in s.jobs {
      EndingOfARecord(s, op, id);
    } else {
      assert op.OpCreate?;
      FreshJobs(s, op.input);
    }
    hide EndedWith, Create;
  }

  /** The result a reader finds is the one its job's end stored: over every run, a
      completed or failed job holds, until it expires, exactly the response, class,
      retention and request of the one operation that ended it; no other job holds
      a result. */
  lemma {:induction false} StoredResultIsTheWinners(s: State, ops: seq<Op>, id: JobId)
    requires Filed(s) && Unended(s, id) && id in Run(s, ops).jobs
    ensures var r := Run(s, ops).jobs[id];
      && (r.result.Some? <==> r.job.status == Completed || r.job.status == Failed)
      && (r.result.Some? ==> exists n :: 0 <= n < |ops| && EndedWith(Run(s, ops[..n]), ops[n], id, r))
    decreases |ops|
  {
    if ops != [] {
      StepFiled(s, ops[0]);
      var s' := Step(s, ops[0]);
      var rest := ops[1..];
      if id in s'.jobs {
        EndingStep(s, ops[0], id);
      }
      hide Step, EndedWith;
      if Unended(s', id) {
        StoredResultIsTheWinners(s', rest, id);
        var r := Run(s, ops).jobs[id];
        if r.result.Some? {
          var n :| 0 <= n < |rest| && EndedWith(Run(s', rest[..n]), rest[n], id, r);
          assert ops[..n + 1][0] == ops[0] && ops[..n + 1][1..] == rest[..n];
          assert EndedWith(Run(s, ops[..n + 1]), ops[n + 1], id, r);
        }
      } else {
        TerminalKeeps(s', rest, id);
        assert ops[..0] == [];
        assert Run(s, ops[..0]) == s;
      }
    }
  }
}

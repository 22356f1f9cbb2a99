/** The mutex-guarded in-memory store (internal/async/memory.go) as an object:
    each method is one lock-held decision, proved to be the corresponding step of
    the job state machine. */
module MemoryStore {
  import opened Common
  import opened JobStore

  datatype CancelOutcome = CancelledQueued | CancelledRunning | CancelNoop

  /** ids lists exactly the claimable records, in queue order. */
  ghost predicate ListsVisible(ids: seq<JobId>, s: State, now: int) {
    && InQueueOrder(ids, s)
    && forall id :: id in ids <==> id in s.jobs && Visible(s.jobs[id], now)
  }

  /** ids lists exactly the lost leases of one kind, in queue order. */
  ghost predicate ListsLost(ids: seq<JobId>, s: State, now: int, maxAttempts: int, last: bool) {
    && InQueueOrder(ids, s)
    && forall id :: id in ids <==> id in s.jobs && LostLease(s.jobs[id], now, maxAttempts, last)
  }

  ghost predicate InQueueOrder(ids: seq<JobId>, s: State) {
    && (forall id :: id in ids ==> id in s.jobs)
    && forall i, j :: 0 <= i < j < |ids| ==> Before(s.jobs[ids[i]].job, s.jobs[ids[j]].job)
  }

  predicate Exhausted(r: Rec, maxAttempts: int) {
    r.job.attempts + 1 >= maxAttempts
  }

  lemma QueueOrderSnoc(ids: seq<JobId>, s: State, id: JobId)
    requires InQueueOrder(ids, s) && id in s.jobs
    requires forall k :: k in ids ==> Before(s.jobs[k].job, s.jobs[id].job)
    ensures InQueueOrder(ids + [id], s)
  {
    forall i, j | 0 <= i < j < |ids + [id]| ensures Before(s.jobs[(ids + [id])[i]].job, s.jobs[(ids + [id])[j]].job) {
      assert ids + [id] == ids[..] + [id] && (i < |ids| ==> ids[i] in ids);
    }
  }

  /** The head of a non-empty queue-ordered listing of the visible jobs is the job
      to claim. */
  lemma HeadIsNext(s: State, now: int, ids: seq<JobId>)
    requires Filed(s) && ListsVisible(ids, s, now)
    ensures Next(s, now) == if ids == [] then None else Some(ids[0])
  {
    if ids != [] {
      assert ids[0] in ids;
      assert IsNext(s, now, ids[0]) by {
        forall k | k in s.jobs && Visible(s.jobs[k], now) && k != ids[0]
          ensures Before(s.jobs[ids[0]].job, s.jobs[k].job)
        {
          assert k in ids;
          var i :| 0 <= i < |ids| && ids[i] == k;
        }
      }
      NextIsUnique(s, now, Next(s, now).value, ids[0]);
    } else {
      assert forall id :: id in s.jobs && Visible(s.jobs[id], now) ==> id in ids;
    }
  }

  class MemoryStore {
    var jobs: map<JobId, Rec>
    var idem: map<string, Mapping>

    constructor ()
      ensures Valid() && View() == EMPTY
    {
      jobs, idem := map[], map[];
    }

    ghost function View(): State
      reads this
    {
      State(jobs, idem)
    }

    ghost predicate Valid()
      reads this
    {
      Filed(View())
    }

    method Create(i: CreateInput) returns (answer: Created)
      requires Valid()
      modifies this
      ensures Valid()
      ensures View() == Step(old(View()), OpCreate(i)) && answer == JobStore.Create(old(View()), i).1
    {
      var key := MapKey(i.subject, i.keyHash);
      if i.keyHash != "" && key in idem {
        var entry := idem[key];
        if i.now > entry.expiresAt {
          idem := idem - {key};
        } else {
          if entry.jobId !in jobs {
            return MissingJob;
          }
          var existing := jobs[entry.jobId];
          if existing.job.digest != i.digest {
            return Conflict;
          }
          return Replayed(existing.job);
        }
      }
      if i.keyHash != "" {
        assert idem == old(idem) - {key};
      }
      if i.jobId in jobs {
        return DuplicateId;
      }
      var job := NewJob(i);
      jobs := jobs[i.jobId := Rec(job, i.request, None, None)];
      if i.keyHash != "" {
        idem := idem[key := Mapping(i.jobId, i.now + i.keyTTL)];
      }
      return Fresh(job);
    }

    /** Reads a job, lazily expiring its result; clock is the store's own reading
        of the time, now the caller's. */
    method Get(id: JobId, now: int, clock: int) returns (job: Option<Job>)
      requires Valid()
      modifies this
      ensures Valid() && View() == Step(old(View()), OpGet(id, now, clock))
      ensures job == if id in jobs then Some(jobs[id].job) else None
    {
      if id !in jobs {
        assert View().jobs == Step(old(View()), OpGet(id, now, clock)).jobs;
        return None;
      }
      if Due(jobs[id], now) {
        jobs := jobs[id := ExpireRec(jobs[id], clock)];
      }
      assert View().jobs == Step(old(View()), OpGet(id, now, clock)).jobs;
      return Some(jobs[id].job);
    }

    method Cancel(id: JobId, now: int) returns (outcome: Option<CancelOutcome>)
      requires Valid()
      modifies this
      ensures Valid() && View() == Step(old(View()), OpCancel(id, now))
      ensures outcome.None? <==> id !in old(jobs)
      ensures outcome.Some? ==>
        outcome.value == match old(jobs)[id].job.status
                         case Queued => CancelledQueued
                         case Running => CancelledRunning
                         case _ => CancelNoop
    {
      if id !in jobs {
        outcome := None;
      } else {
        var rec := jobs[id];
        match rec.job.status {
          case Queued =>
            jobs := jobs[id := rec.(job := Unleased(rec.job, Cancelled, now))];
            outcome := Some(CancelledQueued);
          case Running =>
            jobs := jobs[id := rec.(job := Unleased(rec.job, Cancelled, now))];
            outcome := Some(CancelledRunning);
          case _ =>
            outcome := Some(CancelNoop);
        }
      }
      assert View().jobs == Step(old(View()), OpCancel(id, now)).jobs;
    }

    /** Sorts a set of records oldest first, ties by identifier. */
    method OrderedIds(ids: set<JobId>) returns (sorted: seq<JobId>)
      requires Valid() && ids <= jobs.Keys
      ensures InQueueOrder(sorted, View()) && forall id :: id in sorted <==> id in ids
    {
      sorted := [];
      var rest := ids;
      while rest != {}
        invariant rest <= ids && InQueueOrder(sorted, View())
        invariant forall id :: id in ids <==> id in sorted || id in rest
        invariant forall x, y :: x in sorted && y in rest ==> Before(jobs[x].job, jobs[y].job)
        decreases |rest|
      {
        NextExists(View(), rest);
        var id :| id in rest && forall k :: k in rest && k != id ==> Before(jobs[id].job, jobs[k].job);
        QueueOrderSnoc(sorted, View(), id);
        sorted := sorted + [id];
        rest := rest - {id};
      }
    }

    method Claim(owner: string, lease: int, now: int) returns (claimed: Option<Rec>)
      requires Valid()
      modifies this
      ensures Valid() && View() == Step(old(View()), OpClaim(owner, lease, now))
      ensures claimed == match Next(old(View()), now)
                         case None => None
                         case Some(id) => Some(ClaimRec(old(jobs)[id], owner, lease, now))
    {
      var ids: set<JobId> := {};
      var unseen := jobs.Keys;
      while unseen != {}
        invariant unseen <= jobs.Keys && ids <= jobs.Keys
        invariant forall id :: id in ids <==> id in jobs && id !in unseen && Visible(jobs[id], now)
        decreases |unseen|
      {
        var id :| id in unseen;
        if Visible(jobs[id], now) {
          ids := ids + {id};
        }
        unseen := unseen - {id};
      }
      var sorted := OrderedIds(ids);
      HeadIsNext(View(), now, sorted);
      if sorted == [] {
        assert View().jobs == Step(old(View()), OpClaim(owner, lease, now)).jobs;
        return None;
      }
      assert sorted[0] in sorted;
      var rec := ClaimRec(jobs[sorted[0]], owner, lease, now);
      jobs := jobs[sorted[0] := rec];
      assert View().jobs == Step(old(View()), OpClaim(owner, lease, now)).jobs;
      return Some(rec);
    }

    /** The compare half of every owner-keyed transition. */
    predicate Holds(id: JobId, owner: string)
      reads this
      ensures Holds(id, owner) <==> Owned(View(), id, owner)
    {
      id in jobs && jobs[id].job.status == Running && jobs[id].job.owner == owner
    }

    method Heartbeat(id: JobId, owner: string, lease: int, now: int) returns (ok: bool)
      requires Valid()
      modifies this
      ensures Valid() && View() == Step(old(View()), OpHeartbeat(id, owner, lease, now))
      ensures ok <==> Owned(old(View()), id, owner)
    {
      ok := Holds(id, owner);
      if ok {
        jobs := jobs[id := jobs[id].(job := jobs[id].job.(leaseExpires := Some(now + lease)))];
      }
      assert View().jobs == Step(old(View()), OpHeartbeat(id, owner, lease, now)).jobs;
    }

    method CommitSuccess(id: JobId, owner: string, c: Commit, now: int) returns (won: bool)
      requires Valid()
      modifies this
      ensures Valid() && View() == Step(old(View()), OpSucceed(id, owner, c, now))
      ensures won <==> Owned(old(View()), id, owner)
    {
      won := Holds(id, owner);
      if won {
        jobs := jobs[id := CommitRec(jobs[id], Completed, c.(errorClass := ""), now)];
      }
      assert View().jobs == Step(old(View()), OpSucceed(id, owner, c, now)).jobs;
    }

    method CommitFailure(id: JobId, owner: string, c: Commit, now: int) returns (won: bool)
      requires Valid()
      modifies this
      ensures Valid() && View() == Step(old(View()), OpFail(id, owner, c, now))
      ensures won <==> Owned(old(View()), id, owner)
    {
      won := Holds(id, owner);
      if won {
        jobs := jobs[id := CommitRec(jobs[id], Failed, c, now)];
      }
      assert View().jobs == Step(old(View()), OpFail(id, owner, c, now)).jobs;
    }

    method Requeue(id: JobId, owner: string, bump: bool, notBefore: Option<int>, now: int) returns (won: bool)
      requires Valid()
      modifies this
      ensures Valid() && View() == Step(old(View()), OpRequeue(id, owner, bump, notBefore, now))
      ensures won <==> Owned(old(View()), id, owner)
    {
      won := Holds(id, owner);
      if won {
        jobs := jobs[id := RequeueRec(jobs[id], bump, notBefore, now)];
      }
      assert View().jobs == Step(old(View()), OpRequeue(id, owner, bump, notBefore, now)).jobs;
    }

    /** Fails the exhausted leases first, then requeues the others, both oldest
        first, and reports both lists in that order. */
    method RecoverExpiredLeases(maxAttempts: int, body: string, now: int)
        returns (failed: seq<Job>, requeued: seq<JobId>)
      requires Valid()
      modifies this
      ensures Valid() && View() == Step(old(View()), OpRecover(maxAttempts, body, now))
      ensures ListsLost(Ids(failed), old(View()), now, maxAttempts, true)
      ensures ListsLost(requeued, old(View()), now, maxAttempts, false)
      ensures forall j :: j in failed ==> j.id in jobs && j == jobs[j.id].job
    {
      hide Step, Lapsed, RecoverRec, Exhausted, Report, Filed, Before, InQueueOrder, ListsLost;
      ghost var s := View();
      var ids := OrderedIds(jobs.Keys);
      failed, requeued := [], [];
      ghost var failedIds: seq<JobId> := [];
      var requeueable: seq<JobId> := [];
      var n := 0;
      RecoverNone(s, maxAttempts, body, now);
      assert ids[..0] == [];
      while n < |ids|
        invariant 0 <= n <= |ids| && idem == s.idem
        invariant Scanned(ids[..n], failedIds, s, now, maxAttempts, true)
        invariant Scanned(ids[..n], requeueable, s, now, maxAttempts, false)
        invariant Recovered(s, jobs, failedIds, maxAttempts, body, now)
        invariant Report(failed, failedIds, jobs)
      {
        var id := ids[n];
        assert id in ids;
        NoRepeats(ids, s, n);
        ScanStep(ids, n, failedIds, s, now, maxAttempts, true);
        ScanStep(ids, n, requeueable, s, now, maxAttempts, false);
        if Lapsed(jobs[id], now) {
          if Exhausted(jobs[id], maxAttempts) {
            RecoverOne(s, jobs, failedIds, id, maxAttempts, body, now);
            ReportOne(failed, failedIds, jobs, id, RecoverRec(jobs[id], maxAttempts, body, now));
            jobs := jobs[id := RecoverRec(jobs[id], maxAttempts, body, now)];
            failed := failed + [jobs[id].job];
            failedIds := failedIds + [id];
          } else {
            requeueable := requeueable + [id];
          }
        }
        n := n + 1;
      }
      assert ids[..n] == ids && failedIds + [] == failedIds;
      var m := 0;
      while m < |requeueable|
        invariant 0 <= m <= |requeueable| && requeued == requeueable[..m] && idem == s.idem
        invariant Recovered(s, jobs, failedIds + requeued, maxAttempts, body, now)
        invariant Report(failed, failedIds, jobs)
      {
        var id := requeueable[m];
        assert id in requeueable;
        NoRepeats(requeueable, s, m);
        RecoverOne(s, jobs, failedIds + requeued, id, maxAttempts, body, now);
        ReportKeeps(failed, failedIds, jobs, id, RecoverRec(jobs[id], maxAttempts, body, now));
        jobs := jobs[id := RecoverRec(jobs[id], maxAttempts, body, now)];
        assert failedIds + requeued + [id] == failedIds + (requeued + [id]);
        requeued := requeued + [id];
        m := m + 1;
      }
      assert requeued == requeueable;
      RecoveredAll(s, jobs, ids, failedIds, requeued, maxAttempts, body, now);
      ReportAll(failed, failedIds, jobs);
    }

    method ExpireDueResults(now: int) returns (n: nat)
      requires Valid()
      modifies this
      ensures Valid() && View() == Step(old(View()), OpExpireDue(now))
      ensures n == |set id | id in old(jobs) && Due(old(jobs)[id], now)|
    {
      hide Step, Due, ExpireRec;
      n := 0;
      var unseen := jobs.Keys;
      ghost var s := View();
      ghost var done: set<JobId> := {};
      while unseen != {}
        invariant unseen <= s.jobs.Keys && idem == s.idem
        invariant Swept(s, jobs, unseen, now)
        invariant n == |done| && forall id :: id in done <==> id in s.jobs && id !in unseen && Due(s.jobs[id], now)
        decreases |unseen|
      {
        var id :| id in unseen;
        if Due(jobs[id], now) {
          jobs := jobs[id := ExpireRec(jobs[id], now)];
          done := done + {id};
          n := n + 1;
        }
        unseen := unseen - {id};
      }
      assert done == set id | id in s.jobs && Due(s.jobs[id], now);
      SweptAll(s, jobs, now);
    }

    method SweepExpiredIdempotencyKeys(now: int) returns (n: nat)
      requires Valid()
      modifies this
      ensures Valid() && View() == Step(old(View()), OpSweepKeys(now))
      ensures n == |set k | k in old(idem) && now > old(idem)[k].expiresAt|
    {
      hide Step;
      KeySweep(View(), now);
      n := 0;
      var unseen := idem.Keys;
      ghost var done: set<string> := {};
      while unseen != {}
        invariant unseen <= old(idem).Keys && jobs == old(jobs)
        invariant forall k :: k in idem <==> k in old(idem) && (k in unseen || now <= old(idem)[k].expiresAt)
        invariant forall k :: k in idem ==> idem[k] == old(idem)[k]
        invariant n == |done| && done == set k | k in old(idem) && k !in unseen && now > old(idem)[k].expiresAt
        decreases |unseen|
      {
        var k :| k in unseen;
        if now > idem[k].expiresAt {
          idem := idem - {k};
          done := done + {k};
          n := n + 1;
        }
        unseen := unseen - {k};
      }
      assert done == set k | k in old(idem) && now > old(idem)[k].expiresAt;
      assert idem == map k | k in old(idem) && now <= old(idem)[k].expiresAt :: old(idem)[k];
    }
  }

  // ---- Loop reasoning for the recovery sweep ----

  function Ids(js: seq<Job>): seq<JobId> {
    seq(|js|, i requires 0 <= i < |js| => js[i].id)
  }

  lemma NoRepeats(ids: seq<JobId>, s: State, n: nat)
    requires InQueueOrder(ids, s) && n < |ids|
    ensures ids[n] !in ids[..n]
  {
    forall i | 0 <= i < n ensures ids[..n][i] != ids[n] {
      assert Before(s.jobs[ids[i]].job, s.jobs[ids[n]].job);
    }
  }

  /** A lapsed lease whose lost attempt is, or is not, the job's last. */
  predicate LostLease(r: Rec, now: int, maxAttempts: int, last: bool) {
    Lapsed(r, now) && Exhausted(r, maxAttempts) == last
  }

  /** out lists the lost leases of that kind among the scanned ids. */
  ghost predicate Scanned(scanned: seq<JobId>, out: seq<JobId>, s: State, now: int, maxAttempts: int, last: bool) {
    && InQueueOrder(scanned, s) && InQueueOrder(out, s)
    && forall id :: id in out <==> id in scanned && LostLease(s.jobs[id], now, maxAttempts, last)
  }

  lemma ScanStep(ids: seq<JobId>, n: nat, out: seq<JobId>, s: State, now: int, maxAttempts: int, last: bool)
    requires InQueueOrder(ids, s) && n < |ids| && ids[n] in s.jobs && Scanned(ids[..n], out, s, now, maxAttempts, last)
    ensures Scanned(ids[..n + 1], if LostLease(s.jobs[ids[n]], now, maxAttempts, last) then out + [ids[n]] else out,
                    s, now, maxAttempts, last)
  {
    hide LostLease, Before;
    var id := ids[n];
    assert ids[..n + 1] == ids[..n] + [id];
    forall k | k in ids[..n] ensures Before(s.jobs[k].job, s.jobs[id].job) {
      var i :| 0 <= i < n && ids[..n][i] == k;
      assert ids[i] == k;
    }
    QueueOrderSnoc(ids[..n], s, id);
    QueueOrderSnoc(out, s, id);
  }

  ghost predicate Recovered(s: State, jobs: map<JobId, Rec>, touched: seq<JobId>, maxAttempts: int, body: string,
                            now: int) {
    && jobs.Keys == s.jobs.Keys
    && forall id :: id in jobs ==> jobs[id] == if id in touched then RecoverRec(s.jobs[id], maxAttempts, body, now)
        else s.jobs[id]
  }

  lemma RecoverNone(s: State, maxAttempts: int, body: string, now: int)
    ensures Recovered(s, s.jobs, [], maxAttempts, body, now) && Report([], [], s.jobs)
    ensures Scanned([], [], s, now, maxAttempts, true) && Scanned([], [], s, now, maxAttempts, false)
  {
  }

  lemma RecoverOne(s: State, jobs: map<JobId, Rec>, touched: seq<JobId>, id: JobId, maxAttempts: int, body: string,
                   now: int)
    requires Filed(s) && Recovered(s, jobs, touched, maxAttempts, body, now) && id in jobs && id !in touched
    ensures RecoverRec(jobs[id], maxAttempts, body, now).job.id == id
    ensures Recovered(s, jobs[id := RecoverRec(jobs[id], maxAttempts, body, now)], touched + [id], maxAttempts, body,
                      now)
  {
    assert RecoverRec(jobs[id], maxAttempts, body, now).job.id == jobs[id].job.id;
    hide RecoverRec;
  }

  lemma RecoveredAll(s: State, jobs: map<JobId, Rec>, ids: seq<JobId>, failed: seq<JobId>, requeued: seq<JobId>,
                     maxAttempts: int, body: string, now: int)
    requires Filed(s) && Recovered(s, jobs, failed + requeued, maxAttempts, body, now)
    requires forall id :: id in s.jobs ==> id in ids
    requires Scanned(ids, failed, s, now, maxAttempts, true) && Scanned(ids, requeued, s, now, maxAttempts, false)
    ensures Step(s, OpRecover(maxAttempts, body, now)) == State(jobs, s.idem) && Filed(State(jobs, s.idem))
    ensures ListsLost(failed, s, now, maxAttempts, true) && ListsLost(requeued, s, now, maxAttempts, false)
  {
    StepFiled(s, OpRecover(maxAttempts, body, now));
    hide Lapsed, RecoverRec, Before, Exhausted;
    forall id | id in jobs ensures jobs[id] == StepRec(s, OpRecover(maxAttempts, body, now), id) {
      assert id in failed + requeued <==> Lapsed(s.jobs[id], now);
    }
  }

  /** failed reports the stored records of ids, in that order. */
  ghost predicate Report(failed: seq<Job>, ids: seq<JobId>, jobs: map<JobId, Rec>) {
    && |failed| == |ids|
    && forall i :: 0 <= i < |ids| ==> ids[i] in jobs && failed[i] == jobs[ids[i]].job && failed[i].id == ids[i]
  }

  lemma ReportOne(failed: seq<Job>, ids: seq<JobId>, jobs: map<JobId, Rec>, id: JobId, r: Rec)
    requires Report(failed, ids, jobs) && id !in ids && r.job.id == id
    ensures Report(failed + [r.job], ids + [id], jobs[id := r])
  {
  }

  lemma ReportKeeps(failed: seq<Job>, ids: seq<JobId>, jobs: map<JobId, Rec>, id: JobId, r: Rec)
    requires Report(failed, ids, jobs) && id !in ids
    ensures Report(failed, ids, jobs[id := r])
  {
  }

  lemma ReportAll(failed: seq<Job>, ids: seq<JobId>, jobs: map<JobId, Rec>)
    requires Report(failed, ids, jobs)
    ensures Ids(failed) == ids && forall j :: j in failed ==> j.id in jobs && j == jobs[j.id].job
  {
  }

  ghost predicate Swept(s: State, jobs: map<JobId, Rec>, unseen: set<JobId>, now: int) {
    && jobs.Keys == s.jobs.Keys
    && forall id :: id in jobs ==> jobs[id] == if id !in unseen && Due(s.jobs[id], now) then ExpireRec(s.jobs[id], now)
        else s.jobs[id]
  }

  lemma SweptAll(s: State, jobs: map<JobId, Rec>, now: int)
    requires Filed(s) && Swept(s, jobs, {}, now)
    ensures Step(s, OpExpireDue(now)) == State(jobs, s.idem) && Filed(State(jobs, s.idem))
  {
    StepFiled(s, OpExpireDue(now));
    hide Due, ExpireRec;
  }

  lemma KeySweep(s: State, now: int)
    requires Filed(s)
    ensures Step(s, OpSweepKeys(now)) == State(s.jobs, map k | k in s.idem && now <= s.idem[k].expiresAt :: s.idem[k])
  {
    assert Step(s, OpSweepKeys(now)).jobs == s.jobs;
  }
}

/** Idempotent creation: what a key promises from a fresh create until its
    mapping expires, and why the reclamation sweep is never observable. */
module JobCreation {
  import opened Common
  import opened JobStore
  import opened JobRuns

  // ---- Mapping keys ----

  predicate NulFree(s: string) {
    forall i :: 0 <= i < |s| ==> s[i] != 0 as char
  }

  /** The separator is the last NUL, so a hash without one determines both halves. */
  lemma MapKeyInjective(s1: string, h1: string, s2: string, h2: string)
    requires NulFree(h1) && NulFree(h2) && MapKey(s1, h1) == MapKey(s2, h2)
    ensures s1 == s2 && h1 == h2
  {
    var k := MapKey(s1, h1);
    assert k[|s1|] == 0 as char && k[|s2|] == 0 as char;
    assert !(|s1| < |s2|) by {
      assert forall i :: |s1| < i < |k| ==> k[i] == h1[i - |s1| - 1];
    }
    assert !(|s2| < |s1|) by {
      assert forall i :: |s2| < i < |k| ==> k[i] == h2[i - |s2| - 1];
    }
    assert k[..|s1|] == s1 && k[..|s2|] == s2;
    assert k[|s1| + 1..] == h1 && k[|s2| + 1..] == h2;
  }

  /** Without that hypothesis two subjects can share one mapping. */
  lemma MapKeyCollision()
    ensures MapKey("a", [0 as char] + "b") == MapKey("a" + [0 as char], "b")
  {
    assert MapKey("a", [0 as char] + "b") == MapKey("a" + [0 as char], "b");
  }

  // ---- Mappings point home ----

  /** Every mapping points to an existing job of its own subject. */
  ghost predicate PointsHome(s: State) {
    forall subject, hash :: NulFree(hash) && MapKey(subject, hash) in s.idem
        ==> HomeOf(s, subject, MapKey(subject, hash))
  }

  predicate HomeOf(s: State, subject: string, key: string)
    requires key in s.idem
  {
    s.idem[key].jobId in s.jobs && s.jobs[s.idem[key].jobId].job.subject == subject
  }

  predicate CleanKey(op: Op) {
    op.OpCreate? ==> NulFree(op.input.keyHash)
  }

  lemma StepPointsHome(s: State, op: Op)
    requires Filed(s) && PointsHome(s) && CleanKey(op)
    ensures PointsHome(Step(s, op))
  {
    var s' := Step(s, op);
    StepFiled(s, op);
    forall subject, hash | NulFree(hash) && MapKey(subject, hash) in s'.idem
      ensures HomeOf(s', subject, MapKey(subject, hash))
    {
      var key := MapKey(subject, hash);
      if op.OpCreate? && key == MapKey(op.input.subject, op.input.keyHash) {
        MapKeyInjective(subject, hash, op.input.subject, op.input.keyHash);
      }
      if key in s.idem && s'.idem[key] == s.idem[key] {
        assert HomeOf(s, subject, key);
        StepEdges(s, op, s.idem[key].jobId);
      }
    }
  }

  lemma {:induction false} RunPointsHome(s: State, ops: seq<Op>)
    requires Filed(s) && PointsHome(s) && forall op :: op in ops ==> CleanKey(op)
    ensures PointsHome(Run(s, ops))
    decreases |ops|
  {
    if ops != [] {
      StepFiled(s, ops[0]);
      assert ops[0] in ops;
      StepPointsHome(s, ops[0]);
      RunPointsHome(Step(s, ops[0]), ops[1..]);
    }
  }

  // ---- The replay window ----

  lemma StepKeepsLiveMapping(s: State, op: Op, key: string)
    requires Filed(s) && key in s.idem && s.idem[key].jobId in s.jobs && TimeOf(op) <= s.idem[key].expiresAt
    ensures key in Step(s, op).idem && Step(s, op).idem[key] == s.idem[key]
    ensures s.idem[key].jobId in Step(s, op).jobs
         && SameOrigin(s.jobs[s.idem[key].jobId].job, Step(s, op).jobs[s.idem[key].jobId].job)
  {
    StepFiled(s, op);
    StepEdges(s, op, s.idem[key].jobId);
  }

  lemma {:induction false} RunKeepsLiveMapping(s: State, ops: seq<Op>, key: string)
    requires Filed(s) && key in s.idem && s.idem[key].jobId in s.jobs
    requires forall op :: op in ops ==> TimeOf(op) <= s.idem[key].expiresAt
    ensures key in Run(s, ops).idem && Run(s, ops).idem[key] == s.idem[key]
    ensures s.idem[key].jobId in Run(s, ops).jobs
         && SameOrigin(s.jobs[s.idem[key].jobId].job, Run(s, ops).jobs[s.idem[key].jobId].job)
    decreases |ops|
  {
    if ops != [] {
      assert ops[0] in ops;
      StepFiled(s, ops[0]);
      StepKeepsLiveMapping(s, ops[0], key);
      RunKeepsLiveMapping(Step(s, ops[0]), ops[1..], key);
    }
  }

  /** Idempotent creation: after a fresh create with a key, and as long as no
      operation is stamped after the mapping's expiry (the end point included),
      whatever else runs in between, a create with the same subject and key
      returns that same job if the digest is the same, conflicts if it is not, and
      in either case creates nothing. */
  lemma ReplayWindow(s: State, first: CreateInput, between: seq<Op>, again: CreateInput)
    requires Filed(s) && first.keyHash != ""
    requires Create(s, first).1.Fresh?
    requires again.subject == first.subject && again.keyHash == first.keyHash
    requires forall op :: op in between ==> TimeOf(op) <= first.now + first.keyTTL
    requires again.now <= first.now + first.keyTTL
    ensures var s1 := Step(s, OpCreate(first));
      Filed(s1) &&
      var s2 := Run(s1, between);
      var (s3, answer) := Create(s2, again);
      && s3 == s2
      && (if again.digest == first.digest then
            answer.Replayed? && answer.job.id == first.jobId && SameOrigin(NewJob(first), answer.job)
          else answer == Conflict)
  {
    var op := OpCreate(first);
    StepFiled(s, op);
    var s1 := Step(s, op);
    var key := MapKey(first.subject, first.keyHash);
    assert s1.idem[key] == Mapping(first.jobId, first.now + first.keyTTL) && s1.jobs[first.jobId].job == NewJob(first);
    RunKeepsLiveMapping(s1, between, key);
  }

  /** Once the window has closed, the next create with that key is fresh again. */
  lemma WindowCloses(s: State, key: string, again: CreateInput)
    requires key == MapKey(again.subject, again.keyHash) && again.keyHash != ""
    requires key in s.idem && s.idem[key].expiresAt < again.now && again.jobId !in s.jobs
    ensures Create(s, again).1 == Fresh(NewJob(again))
    ensures Create(s, again).0.idem[key] == Mapping(again.jobId, again.now + again.keyTTL)
  {
  }

  // ---- The sweep is not observable ----

  predicate Monotone(ops: seq<Op>, from: int)
    decreases |ops|
  {
    ops == [] || (from <= TimeOf(ops[0]) && Monotone(ops[1..], TimeOf(ops[0])))
  }

  /** The run with every idempotency sweep removed. */
  function Unswept(ops: seq<Op>): seq<Op> {
    if ops == [] then [] else (if ops[0].OpSweepKeys? then [] else [ops[0]]) + Unswept(ops[1..])
  }

  /** The answers its creations get. */
  ghost function Answers(s: State, ops: seq<Op>): seq<Created>
    requires Filed(s)
    decreases |ops|
  {
    if ops == [] then []
    else
      StepFiled(s, ops[0]);
      (if ops[0].OpCreate? then [Create(s, ops[0].input).1] else []) + Answers(Step(s, ops[0]), ops[1..])
  }

  /** Same jobs, and same mappings as far as lookups from time t on can tell. */
  ghost predicate LookAlike(a: State, b: State, t: int) {
    && a.jobs == b.jobs
    && forall key :: LiveMapping(a, key, t) == LiveMapping(b, key, t)
  }

  lemma LookAlikeLater(a: State, b: State, t: int, u: int)
    requires LookAlike(a, b, t) && t <= u
    ensures LookAlike(a, b, u)
  {
    forall key ensures LiveMapping(a, key, u) == LiveMapping(b, key, u) {
      assert LiveMapping(a, key, t) == LiveMapping(b, key, t);
    }
  }

  lemma NextByJobs(a: State, b: State, now: int)
    requires Filed(a) && Filed(b) && a.jobs == b.jobs
    ensures Next(a, now) == Next(b, now)
  {
    var x, y := Next(a, now), Next(b, now);
    if x.Some? && y.Some? {
      assert IsNext(b, now, x.value);
      NextIsUnique(b, now, x.value, y.value);
    }
  }

  lemma StepRecByJobs(a: State, b: State, op: Op, id: JobId)
    requires Filed(a) && Filed(b) && a.jobs == b.jobs && id in a.jobs
    ensures StepRec(a, op, id) == StepRec(b, op, id)
  {
    NextByJobs(a, b, TimeOf(op));
    hide Next, IsNext, ClaimRec, CommitRec, RequeueRec, RecoverRec, ExpireRec, Unleased, Due, Lapsed;
  }

  lemma LookAlikeCreate(a: State, b: State, i: CreateInput)
    requires LookAlike(a, b, i.now)
    ensures LookAlike(Create(a, i).0, Create(b, i).0, i.now) && Create(a, i).1 == Create(b, i).1
  {
    var a', b' := Create(a, i).0, Create(b, i).0;
    var own := MapKey(i.subject, i.keyHash);
    assert LiveMapping(a, own, i.now) == LiveMapping(b, own, i.now);
    forall key ensures LiveMapping(a', key, i.now) == LiveMapping(b', key, i.now) {
      assert LiveMapping(a, key, i.now) == LiveMapping(b, key, i.now);
    }
  }

  lemma LookAlikeStep(a: State, b: State, op: Op)
    requires Filed(a) && Filed(b) && LookAlike(a, b, TimeOf(op))
    ensures LookAlike(Step(a, op), Step(b, op), TimeOf(op))
  {
    if op.OpCreate? {
      LookAlikeCreate(a, b, op.input);
    } else {
      hide StepRec;
      forall id | id in a.jobs ensures StepRec(a, op, id) == StepRec(b, op, id) {
        StepRecByJobs(a, b, op, id);
      }
      assert Step(a, op).jobs == Step(b, op).jobs;
      forall key ensures LiveMapping(Step(a, op), key, TimeOf(op)) == LiveMapping(Step(b, op), key, TimeOf(op)) {
        assert LiveMapping(a, key, TimeOf(op)) == LiveMapping(b, key, TimeOf(op));
      }
    }
  }

  lemma SweepLooksAlike(a: State, b: State, op: Op)
    requires Filed(a) && Filed(b) && op.OpSweepKeys? && LookAlike(a, b, op.now)
    ensures LookAlike(Step(a, op), b, op.now)
  {
    var a' := Step(a, op);
    assert a'.jobs == a.jobs;
    forall key ensures LiveMapping(a', key, op.now) == LiveMapping(b, key, op.now) {
      assert LiveMapping(a, key, op.now) == LiveMapping(b, key, op.now);
    }
  }

  /** Inserting expiry sweeps anywhere in a run with a monotone clock changes no
      creation outcome and no job. */
  lemma {:induction false} SweepsAreInvisible(a: State, b: State, ops: seq<Op>, from: int)
    requires Filed(a) && Filed(b) && LookAlike(a, b, from) && Monotone(ops, from)
    ensures Answers(a, ops) == Answers(b, Unswept(ops))
    ensures Run(a, ops).jobs == Run(b, Unswept(ops)).jobs
    decreases |ops|
  {
    if ops != [] {
      var op := ops[0];
      LookAlikeLater(a, b, from, TimeOf(op));
      StepFiled(a, op);
      if op.OpSweepKeys? {
        SweepLooksAlike(a, b, op);
        assert [] + Unswept(ops[1..]) == Unswept(ops[1..]);
        SweepsAreInvisible(Step(a, op), b, ops[1..], TimeOf(op));
      } else {
        StepFiled(b, op);
        LookAlikeStep(a, b, op);
        if op.OpCreate? {
          LookAlikeCreate(a, b, op.input);
        }
        hide Step, Create;
        SweepsAreInvisible(Step(a, op), Step(b, op), ops[1..], TimeOf(op));
        assert ([op] + Unswept(ops[1..]))[1..] == Unswept(ops[1..]);
      }
    }
  }
}

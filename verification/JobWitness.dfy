/** Two concrete runs of the protocol in which the unique index of the ledger costs a
    row: two executions of one cancelled job both settle, and a client's request is
    settled under the name of somebody's job. Both runs are free of faults. */
module JobWitness {
  import opened Common
  import opened JobStore
  import opened JobMoney
  import opened JobLedger
  import P = JobProtocol
  import A = Accounting
  import B = Budget
  import L = Ledger
  import Cost

  const ATTEMPTS := 3

  /** One job, no idempotency keys, untouched counters. */
  predicate Shape(sys: P.Sys, r: Rec, execs: seq<P.Exec>, t: L.Table) {
    && r.job.id == 0 && sys.store == State(map[0 := r], map[])
    && sys.execs == execs && sys.books == A.Books(B.Gate(map[], []), t)
  }

  // ---- The inputs ----

  function Input(): CreateInput {
    CreateInput(0, "s", "d", "r", "", 0, 0)
  }

  /** An unenforced reservation: a ledger row, no counter. */
  function Ask(): P.Terms {
    P.Terms(true, false, A.Got(A.Policy(B.Limits(0, 0, 0, 0), "")), A.Got(None), "s", "t", B.Stamp("", ""), 0,
            Cost.Usage(None, None, None, None), false)
  }

  function Tokens(): Cost.Usage {
    Cost.Usage(Some(1), Some(1), None, None)
  }

  function Answer(): P.Act {
    P.Outcome(true, Some(Tokens()), Commit("q", "body", "", 10, true), P.Clean, 3)
  }

  function Settle(): P.Act {
    P.SettleCall(A.Got(None), 3, false)
  }

  function Final(): L.Final {
    A.FinalOf(Tokens(), None, 3)
  }

  function Holding(e: P.Exec): P.Exec {
    e.(phase := P.Executing, handle := Some(A.Handle(P.JobKey(0), None, false, false)))
  }

  function JobRow(): L.Row {
    L.Row(None, Some(Name(0)), "s", 0, L.Reserved, None)
  }

  // ---- One event each ----

  lemma Follow(sys: P.Sys, ev: P.Event, rest: seq<P.Event>)
    requires Filed(sys.store)
    ensures Filed(P.Step(sys, ev, ATTEMPTS).store)
    ensures P.Run(sys, [ev] + rest, ATTEMPTS) == P.Run(P.Step(sys, ev, ATTEMPTS), rest, ATTEMPTS)
    ensures CleanRun(sys, [ev] + rest, ATTEMPTS) <==>
      CleanEvent(sys, ev) && CleanRun(P.Step(sys, ev, ATTEMPTS), rest, ATTEMPTS)
  {
    P.StepKeepsFiled(sys, ev, ATTEMPTS);
    hide P.Step, CleanEvent;
    assert ([ev] + rest)[1..] == rest;
  }

  lemma Created()
    ensures Shape(P.Step(P.START, P.Client(OpCreate(Input())), ATTEMPTS), Rec(NewJob(Input()), "r", None, None), [], [])
    ensures CleanEvent(P.START, P.Client(OpCreate(Input())))
  {
  }

  lemma Claimed(sys: P.Sys, r: Rec, execs: seq<P.Exec>, t: L.Table, now: int)
    requires Shape(sys, r, execs, t) && Visible(r, now)
    ensures var ev := P.Claim("w", 1, now);
      var r' := ClaimRec(r, "w", 1, now);
      && Shape(P.Step(sys, ev, ATTEMPTS), r', execs + [P.Exec(r'.job, P.Phase.Claimed, None, P.Undecided, None)], t)
      && CleanEvent(sys, ev)
  {
    assert IsNext(sys.store, now, 0);
    NextIsUnique(sys.store, now, Next(sys.store, now).value, 0);
    assert Step(sys.store, OpClaim("w", 1, now)).jobs == map[0 := ClaimRec(r, "w", 1, now)];
  }

  lemma Reserves(sys: P.Sys, r: Rec, execs: seq<P.Exec>, t: L.Table, i: nat)
    requires Shape(sys, r, execs, t) && i < |execs|
    requires execs[i].phase.Claimed? && execs[i].handle.None? && execs[i].job.id == 0
    ensures var ev := P.Execute(i, P.Reserve(Ask()));
      && Shape(P.Step(sys, ev, ATTEMPTS), r, execs[i := Holding(execs[i])], t + [JobRow()])
      && CleanEvent(sys, ev)
  {
    hide P.Digits;
  }

  lemma Recovered(sys: P.Sys, r: Rec, execs: seq<P.Exec>, t: L.Table)
    requires Shape(sys, r, execs, t) && Lapsed(r, 2) && r.job.attempts == 0
    ensures var ev := P.Sweep("", 2, P.Clean);
      && Shape(P.Step(sys, ev, ATTEMPTS), RecoverRec(r, ATTEMPTS, "", 2), execs, t)
      && CleanEvent(sys, ev)
  {
    assert Step(sys.store, OpRecover(ATTEMPTS, "", 2)).jobs == map[0 := RecoverRec(r, ATTEMPTS, "", 2)];
  }

  lemma CancelledBy(sys: P.Sys, r: Rec, execs: seq<P.Exec>, t: L.Table)
    requires Shape(sys, r, execs, t) && !Terminal(r.job.status)
    ensures var ev := P.Cancel(0, 3, P.Clean);
      && Shape(P.Step(sys, ev, ATTEMPTS), r.(job := Unleased(r.job, Cancelled, 3)), execs, t)
      && CleanEvent(sys, ev)
  {
    assert Step(sys.store, OpCancel(0, 3)).jobs == map[0 := r.(job := Unleased(r.job, Cancelled, 3))];
  }

  lemma LosesCommit(sys: P.Sys, r: Rec, execs: seq<P.Exec>, t: L.Table, i: nat)
    requires Shape(sys, r, execs, t) && i < |execs| && r.job.status == Cancelled
    requires execs[i].phase.Executing? && execs[i].handle.Some? && execs[i].handle.value.charged.None?
        && execs[i].job.id == 0
    ensures var ev := P.Execute(i, Answer());
      && Shape(P.Step(sys, ev, ATTEMPTS), r, execs[i := execs[i].(phase := P.Racing(Tokens()))], t)
      && CleanEvent(sys, ev)
  {
    assert Step(sys.store, P.Statement(execs[i], Answer()).value).jobs == sys.store.jobs;
  }

  lemma SeesCancel(sys: P.Sys, r: Rec, execs: seq<P.Exec>, t: L.Table, i: nat)
    requires Shape(sys, r, execs, t) && i < |execs| && r.job.status == Cancelled
    requires execs[i].phase == P.Racing(Tokens()) && execs[i].handle.Some? && execs[i].handle.value.charged.None?
    requires execs[i].job.id == 0
    ensures var ev := P.Execute(i, P.Look(3, 3, false));
      && Shape(P.Step(sys, ev, ATTEMPTS), r,
               execs[i := execs[i].(phase := P.Settling(Some(Tokens()), false), verdict := P.Observed)], t)
      && CleanEvent(sys, ev)
  {
    assert Step(sys.store, OpGet(0, 3, 3)).jobs == sys.store.jobs;
  }

  lemma WinsCommit(sys: P.Sys, r: Rec, execs: seq<P.Exec>, t: L.Table, i: nat)
    requires Shape(sys, r, execs, t) && i < |execs| && execs[i].job.id == 0 && Owned(sys.store, 0, execs[i].job.owner)
    requires execs[i].phase.Executing? && execs[i].handle.Some? && execs[i].handle.value.charged.None?
    ensures var ev := P.Execute(i, Answer());
      && Shape(P.Step(sys, ev, ATTEMPTS), CommitRec(r, Completed, Answer().commit, 3),
               execs[i := execs[i].(phase := P.Settling(Some(Tokens()), false), verdict := P.Won)], t)
      && CleanEvent(sys, ev)
  {
    assert Step(sys.store, P.Statement(execs[i], Answer()).value).jobs ==
        map[0 := CommitRec(r, Completed, Answer().commit, 3)];
  }

  lemma Settles(sys: P.Sys, r: Rec, execs: seq<P.Exec>, t: L.Table, i: nat)
    requires Shape(sys, r, execs, t) && i < |execs| && execs[i].job.id == 0
    requires execs[i].phase == P.Settling(Some(Tokens()), false)
    requires execs[i].handle == Some(A.Handle(P.JobKey(0), None, false, false))
    ensures var ev := P.Execute(i, Settle());
      && Shape(P.Step(sys, ev, ATTEMPTS), r,
               execs[i := execs[i].(phase := if execs[i].verdict.Won? then P.Auditing else P.Phase.Done,
                                    handle := Some(A.Handle(P.JobKey(0), None, true, false)), billed := None)],
               L.SettleRow(t, P.JobKey(0), Final()).0)
      && CleanEvent(sys, ev)
  {
    hide P.Digits, L.Latest, L.Conflicts;
  }

  lemma Audits(sys: P.Sys, r: Rec, execs: seq<P.Exec>, t: L.Table, i: nat)
    requires Shape(sys, r, execs, t) && i < |execs| && execs[i].phase.Auditing?
    requires execs[i].handle.Some? && execs[i].handle.value.charged.None?
    ensures var ev := P.Execute(i, P.WriteAudit);
      && Shape(P.Step(sys, ev, ATTEMPTS), r, execs[i := execs[i].(phase := P.Phase.Done)], t)
      && CleanEvent(sys, ev)
  {
  }

  lemma Traffics(sys: P.Sys, r: Rec, execs: seq<P.Exec>, t: L.Table, row: L.Op)
    requires Shape(sys, r, execs, t) && P.ForeignRow(row)
    ensures var ev := P.Traffic(B.OpReserve("", "", B.Stamp("", ""), B.Limits(0, 0, 0, 0), 0), row);
      && Shape(P.Step(sys, ev, ATTEMPTS), r, execs, L.Step(t, row))
      && CleanEvent(sys, ev)
  {
    hide L.Step;
  }

  // ---- Two settlements of one cancelled job ----

  /** A first execution reserves and stalls; the sweep hands its job back; a second
      one reserves; a client cancels; both executions answer, lose the commit, find
      the cancellation and settle what they saw. */
  function TwoObservers(): seq<P.Event> {
    [P.Client(OpCreate(Input()))] + ([P.Claim("w", 1, 0)] + ([P.Execute(0, P.Reserve(Ask()))]
    + ([P.Sweep("", 2, P.Clean)] + ([P.Claim("w", 1, 2)] + ([P.Execute(1, P.Reserve(Ask()))]
    + ([P.Cancel(0, 3, P.Clean)] + BothSettle()))))))
  }

  function BothSettle(): seq<P.Event> {
    [P.Execute(0, Answer())] + ([P.Execute(1, Answer())]
    + ([P.Execute(0, P.Look(3, 3, false))] + ([P.Execute(1, P.Look(3, 3, false))]
    + ([P.Execute(0, Settle())] + ([P.Execute(1, Settle())] + [])))))
  }

  /** Two executions of the job, settled as observers of its cancellation. */
  predicate Observers(execs: seq<P.Exec>) {
    |execs| == 2 &&
    forall i :: 0 <= i < 2 ==>
      execs[i].job.id == 0 && execs[i].phase.Done? && execs[i].verdict.Observed? && execs[i].handle.Some?
  }

  lemma BothSettleRun(sys: P.Sys, r: Rec, a: P.Exec, b: P.Exec)
    requires Filed(sys.store) && Shape(sys, r, [a, b], [JobRow(), JobRow()]) && r.job.status == Cancelled
    requires a.job.id == b.job.id == 0 && a == Holding(a) && b == Holding(b)
    ensures CleanRun(sys, BothSettle(), ATTEMPTS)
    ensures var last := P.Run(sys, BothSettle(), ATTEMPTS);
      && last.store == sys.store && Observers(last.execs)
      && last.books.ledger == [JobRow(), JobRow().(status := L.Settled, final := Some(Final()))]
  {
    hide P.Step, P.Run, CleanRun, CleanEvent, L.SettleRow, Final, Name, P.JobKey;
    var ra, rb := a.(phase := P.Racing(Tokens())), b.(phase := P.Racing(Tokens()));
    var sa := ra.(phase := P.Settling(Some(Tokens()), false), verdict := P.Observed);
    var sb := rb.(phase := P.Settling(Some(Tokens()), false), verdict := P.Observed);
    var done := Some(A.Handle(P.JobKey(0), None, true, false));
    var da := sa.(phase := P.Phase.Done, handle := done, billed := None);
    var db := sb.(phase := P.Phase.Done, handle := done, billed := None);
    var rows := [JobRow(), JobRow()];
    var one := [JobRow(), JobRow().(status := L.Settled, final := Some(Final()))];
    SettlesOnce();
    var s1 := P.Step(sys, P.Execute(0, Answer()), ATTEMPTS);
    LosesCommit(sys, r, [a, b], rows, 0);
    assert [a, b][0 := ra] == [ra, b];
    var s2 := P.Step(s1, P.Execute(1, Answer()), ATTEMPTS);
    LosesCommit(s1, r, [ra, b], rows, 1);
    assert [ra, b][1 := rb] == [ra, rb];
    var s3 := P.Step(s2, P.Execute(0, P.Look(3, 3, false)), ATTEMPTS);
    SeesCancel(s2, r, [ra, rb], rows, 0);
    assert [ra, rb][0 := sa] == [sa, rb];
    var s4 := P.Step(s3, P.Execute(1, P.Look(3, 3, false)), ATTEMPTS);
    SeesCancel(s3, r, [sa, rb], rows, 1);
    assert [sa, rb][1 := sb] == [sa, sb];
    var s5 := P.Step(s4, P.Execute(0, Settle()), ATTEMPTS);
    Settles(s4, r, [sa, sb], rows, 0);
    assert [sa, sb][0 := da] == [da, sb];
    var s6 := P.Step(s5, P.Execute(1, Settle()), ATTEMPTS);
    Settles(s5, r, [da, sb], one, 1);
    assert [da, sb][1 := db] == [da, db];
    Ends(s6);
    Follow(s5, P.Execute(1, Settle()), []);
    Follow(s4, P.Execute(0, Settle()), [P.Execute(1, Settle())] + []);
    Follow(s3, P.Execute(1, P.Look(3, 3, false)), [P.Execute(0, Settle())] + ([P.Execute(1, Settle())] + []));
    Follow(s2, P.Execute(0, P.Look(3, 3, false)),
      [P.Execute(1, P.Look(3, 3, false))] + ([P.Execute(0, Settle())] + ([P.Execute(1, Settle())] + [])));
    Follow(s1, P.Execute(1, Answer()), [P.Execute(0, P.Look(3, 3, false))]
      + ([P.Execute(1, P.Look(3, 3, false))] + ([P.Execute(0, Settle())] + ([P.Execute(1, Settle())] + []))));
    Follow(sys, P.Execute(0, Answer()), [P.Execute(1, Answer())] + ([P.Execute(0, P.Look(3, 3, false))]
      + ([P.Execute(1, P.Look(3, 3, false))] + ([P.Execute(0, Settle())] + ([P.Execute(1, Settle())] + [])))));
  }

  lemma Ends(sys: P.Sys)
    requires Filed(sys.store)
    ensures P.Run(sys, [], ATTEMPTS) == sys && CleanRun(sys, [], ATTEMPTS)
  {
  }

  /** The first settlement takes the newer row; the second finds the index taken. */
  lemma SettlesOnce()
    ensures var one := [JobRow(), JobRow().(status := L.Settled, final := Some(Final()))];
      && L.SettleRow([JobRow(), JobRow()], P.JobKey(0), Final()).0 == one
      && L.SettleRow(one, P.JobKey(0), Final()).0 == one
  {
    hide P.Digits;
    var rows := [JobRow(), JobRow()];
    var one := [JobRow(), JobRow().(status := L.Settled, final := Some(Final()))];
    assert L.Latest(rows, P.JobKey(0), 2) == Some(1);
    assert L.Latest(one, P.JobKey(0), 2) == Some(0);
    assert L.Conflicts(one, 0) by {
      assert one[1].status == L.Settled && one[1].IndexKey() == one[0].IndexKey();
    }
  }

  /** The case LeftoverRows leaves open does occur: a run without faults in which a
      job is settled twice, and one of its two rows is left reserved. */
  lemma TwoSettlementsLeaveARow()
    ensures CleanRun(P.START, TwoObservers(), ATTEMPTS)
    ensures var sys := P.Run(P.START, TwoObservers(), ATTEMPTS);
      && P.JobCancelled(sys.store, 0) && AllDone(sys.execs, 0)
      && ClosedOf(sys.execs, 0) == 2
      && Rows(sys.books.ledger, 0, L.Settled) == 1 && Rows(sys.books.ledger, 0, L.Reserved) == 1
  {
    hide P.Step, P.Run, CleanRun, CleanEvent, L.SettleRow, Final, Name, P.JobKey, BothSettle, Ask, Answer;
    var r0 := Rec(NewJob(Input()), "r", None, None);
    var s1 := P.Step(P.START, P.Client(OpCreate(Input())), ATTEMPTS);
    Created();
    var r1 := ClaimRec(r0, "w", 1, 0);
    var e0 := P.Exec(r1.job, P.Phase.Claimed, None, P.Undecided, None);
    var s2 := P.Step(s1, P.Claim("w", 1, 0), ATTEMPTS);
    Claimed(s1, r0, [], [], 0);
    assert [] + [e0] == [e0];
    var h0 := Holding(e0);
    var s3 := P.Step(s2, P.Execute(0, P.Reserve(Ask())), ATTEMPTS);
    Reserves(s2, r1, [e0], [], 0);
    assert [e0][0 := h0] == [h0] && [] + [JobRow()] == [JobRow()];
    var r2 := RecoverRec(r1, ATTEMPTS, "", 2);
    var s4 := P.Step(s3, P.Sweep("", 2, P.Clean), ATTEMPTS);
    Recovered(s3, r1, [h0], [JobRow()]);
    var r3 := ClaimRec(r2, "w", 1, 2);
    var e1 := P.Exec(r3.job, P.Phase.Claimed, None, P.Undecided, None);
    var s5 := P.Step(s4, P.Claim("w", 1, 2), ATTEMPTS);
    Claimed(s4, r2, [h0], [JobRow()], 2);
    assert [h0] + [e1] == [h0, e1];
    var h1 := Holding(e1);
    var s6 := P.Step(s5, P.Execute(1, P.Reserve(Ask())), ATTEMPTS);
    Reserves(s5, r3, [h0, e1], [JobRow()], 1);
    assert [h0, e1][1 := h1] == [h0, h1] && [JobRow()] + [JobRow()] == [JobRow(), JobRow()];
    var s7 := P.Step(s6, P.Cancel(0, 3, P.Clean), ATTEMPTS);
    CancelledBy(s6, r3, [h0, h1], [JobRow(), JobRow()]);
    BothSettleRun(s7, r3.(job := Unleased(r3.job, Cancelled, 3)), h0, h1);
    Follow(s6, P.Cancel(0, 3, P.Clean), BothSettle());
    var t6 := [P.Cancel(0, 3, P.Clean)] + BothSettle();
    Follow(s5, P.Execute(1, P.Reserve(Ask())), t6);
    var t5 := [P.Execute(1, P.Reserve(Ask()))] + t6;
    Follow(s4, P.Claim("w", 1, 2), t5);
    var t4 := [P.Claim("w", 1, 2)] + t5;
    Follow(s3, P.Sweep("", 2, P.Clean), t4);
    var t3 := [P.Sweep("", 2, P.Clean)] + t4;
    Follow(s2, P.Execute(0, P.Reserve(Ask())), t3);
    var t2 := [P.Execute(0, P.Reserve(Ask()))] + t3;
    Follow(s1, P.Claim("w", 1, 0), t2);
    var t1 := [P.Claim("w", 1, 0)] + t2;
    Follow(P.START, P.Client(OpCreate(Input())), t1);
    assert TwoObservers() == [P.Client(OpCreate(Input()))] + t1;
    var sys := P.Run(P.START, TwoObservers(), ATTEMPTS);
    CountObservers(sys.execs);
    OneLeft();
  }

  lemma CountObservers(execs: seq<P.Exec>)
    requires Observers(execs)
    ensures AllDone(execs, 0) && ClosedOf(execs, 0) == 2
  {
    assert execs == [execs[0]] + [execs[1]] && [execs[0]] == [] + [execs[0]];
    P.CountSnoc([], execs[0], 0, Closed);
    P.CountSnoc([execs[0]], execs[1], 0, Closed);
  }

  lemma OneLeft()
    ensures var t := [JobRow(), JobRow().(status := L.Settled, final := Some(Final()))];
      Rows(t, 0, L.Settled) == 1 && Rows(t, 0, L.Reserved) == 1
  {
    hide P.Digits;
    var t := [JobRow(), JobRow().(status := L.Settled, final := Some(Final()))];
    assert t[..1] == [JobRow()] && [JobRow()][..0] == [];
    assert Rows([JobRow()], 0, L.Settled) == 0 && Rows([JobRow()], 0, L.Reserved) == 1;
  }

  // ---- A stolen name ----

  /** While a job executes, somebody's synchronous request is admitted and settled
      under the job's name as its request identifier; then the job completes. */
  function StolenRun(): seq<P.Event> {
    [P.Client(OpCreate(Input()))] + ([P.Claim("w", 1, 0)] + ([P.Execute(0, P.Reserve(Ask()))]
    + ([Elsewhere(L.Insert(Request(), "x", 0))] + ([Elsewhere(L.Settle(Request(), Final()))]
    + ([P.Execute(0, Answer())] + ([P.Execute(0, Settle())] + ([P.Execute(0, P.WriteAudit)] + [])))))))
  }

  function Elsewhere(row: L.Op): P.Event {
    P.Traffic(B.OpReserve("", "", B.Stamp("", ""), B.Limits(0, 0, 0, 0), 0), row)
  }

  function Request(): L.Identity {
    L.Identity(Name(0), "")
  }

  function RequestRow(): L.Row {
    L.Row(Some(Name(0)), None, "x", 0, L.Reserved, None)
  }

  lemma RequestTakesTheKey()
    ensures var settled := RequestRow().(status := L.Settled, final := Some(Final()));
      && L.Step([JobRow()], L.Insert(Request(), "x", 0)) == [JobRow(), RequestRow()]
      && L.Step([JobRow(), RequestRow()], L.Settle(Request(), Final())) == [JobRow(), settled]
      && L.SettleRow([JobRow(), settled], P.JobKey(0), Final()).0 == [JobRow(), settled]
      && Stolen([JobRow(), settled], 0)
      && Rows([JobRow(), settled], 0, L.Settled) == 0 && Rows([JobRow(), settled], 0, L.Reserved) == 1
  {
    hide P.Digits;
    var settled := RequestRow().(status := L.Settled, final := Some(Final()));
    var t, t' := [JobRow(), RequestRow()], [JobRow(), settled];
    assert [JobRow()] + [RequestRow()] == t;
    assert L.Latest(t, Request(), 2) == Some(1) && t[1 := settled] == t';
    assert L.Latest(t', P.JobKey(0), 2) == L.Latest(t', P.JobKey(0), 1) == Some(0);
    assert L.Conflicts(t', 0) by {
      assert t'[1].status == L.Settled && t'[1].IndexKey() == t'[0].IndexKey();
    }
    assert t'[1].status == L.Settled && t'[1].requestId == Some(Name(0));
    assert t'[..1] == [JobRow()] && [JobRow()][..0] == [];
    assert Rows([JobRow()], 0, L.Settled) == 0 && Rows([JobRow()], 0, L.Reserved) == 1;
  }

  /** The case BothBooksAgree leaves open does occur: a job completes, its only
      execution wins, settles without error and is audited, and the job has no
      settled row but one left reserved. */
  lemma StolenNameLosesTheRow()
    ensures CleanRun(P.START, StolenRun(), ATTEMPTS)
    ensures var sys := P.Run(P.START, StolenRun(), ATTEMPTS);
      && Finished(sys.store, 0) && AllDone(sys.execs, 0)
      && WinnerOf(sys.execs, 0, 0) && sys.execs[0].handle.Some? && sys.execs[0].handle.value.settled
      && Stolen(sys.books.ledger, 0)
      && Rows(sys.books.ledger, 0, L.Settled) == 0 && Rows(sys.books.ledger, 0, L.Reserved) == 1
  {
    hide P.Step, P.Run, CleanRun, CleanEvent, L.SettleRow, L.Step, Final, Name, P.JobKey, Ask, Stolen, Rows;
    var settled := RequestRow().(status := L.Settled, final := Some(Final()));
    RequestTakesTheKey();
    var r0 := Rec(NewJob(Input()), "r", None, None);
    var s1 := P.Step(P.START, P.Client(OpCreate(Input())), ATTEMPTS);
    Created();
    var r1 := ClaimRec(r0, "w", 1, 0);
    var e0 := P.Exec(r1.job, P.Phase.Claimed, None, P.Undecided, None);
    var s2 := P.Step(s1, P.Claim("w", 1, 0), ATTEMPTS);
    Claimed(s1, r0, [], [], 0);
    assert [] + [e0] == [e0];
    var h0 := Holding(e0);
    var s3 := P.Step(s2, P.Execute(0, P.Reserve(Ask())), ATTEMPTS);
    Reserves(s2, r1, [e0], [], 0);
    assert [e0][0 := h0] == [h0] && [] + [JobRow()] == [JobRow()];
    var s4 := P.Step(s3, Elsewhere(L.Insert(Request(), "x", 0)), ATTEMPTS);
    Traffics(s3, r1, [h0], [JobRow()], L.Insert(Request(), "x", 0));
    var s5 := P.Step(s4, Elsewhere(L.Settle(Request(), Final())), ATTEMPTS);
    Traffics(s4, r1, [h0], [JobRow(), RequestRow()], L.Settle(Request(), Final()));
    var r2 := CommitRec(r1, Completed, Answer().commit, 3);
    var w0 := h0.(phase := P.Settling(Some(Tokens()), false), verdict := P.Won);
    var s6 := P.Step(s5, P.Execute(0, Answer()), ATTEMPTS);
    WinsCommit(s5, r1, [h0], [JobRow(), settled], 0);
    assert [h0][0 := w0] == [w0];
    var a0 := w0.(phase := P.Auditing, handle := Some(A.Handle(P.JobKey(0), None, true, false)), billed := None);
    var s7 := P.Step(s6, P.Execute(0, Settle()), ATTEMPTS);
    Settles(s6, r2, [w0], [JobRow(), settled], 0);
    assert [w0][0 := a0] == [a0];
    var d0 := a0.(phase := P.Phase.Done);
    var s8 := P.Step(s7, P.Execute(0, P.WriteAudit), ATTEMPTS);
    Audits(s7, r2, [a0], [JobRow(), settled], 0);
    assert [a0][0 := d0] == [d0];
    Ends(s8);
    Follow(s7, P.Execute(0, P.WriteAudit), []);
    var t7 := [P.Execute(0, P.WriteAudit)] + [];
    Follow(s6, P.Execute(0, Settle()), t7);
    var t6 := [P.Execute(0, Settle())] + t7;
    Follow(s5, P.Execute(0, Answer()), t6);
    var t5 := [P.Execute(0, Answer())] + t6;
    Follow(s4, Elsewhere(L.Settle(Request(), Final())), t5);
    var t4 := [Elsewhere(L.Settle(Request(), Final()))] + t5;
    Follow(s3, Elsewhere(L.Insert(Request(), "x", 0)), t4);
    var t3 := [Elsewhere(L.Insert(Request(), "x", 0))] + t4;
    Follow(s2, P.Execute(0, P.Reserve(Ask())), t3);
    var t2 := [P.Execute(0, P.Reserve(Ask()))] + t3;
    Follow(s1, P.Claim("w", 1, 0), t2);
    var t1 := [P.Claim("w", 1, 0)] + t2;
    Follow(P.START, P.Client(OpCreate(Input())), t1);
    assert StolenRun() == [P.Client(OpCreate(Input()))] + t1;
  }
}

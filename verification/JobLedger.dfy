/** The ledger's half of the money: over every run without accounting faults, with
    any synchronous traffic, when a finished job has its settled row at the cost its
    counters keep, when a client's request identifier has taken that row's place,
    and how many rows are then left reserved for ever. */
module JobLedger {
  import opened Common
  import opened JobStore
  import opened JobRuns
  import opened JobAudit
  import opened JobMoney
  import P = JobProtocol
  import A = Accounting
  import B = Budget
  import L = Ledger
  import Cost

  // ---- Row identities ----

  lemma {:induction false} DigitsInjective(m: nat, n: nat)
    requires P.Digits(m) == P.Digits(n)
    ensures m == n
  {
    var a, b := P.Digits(m), P.Digits(n);
    assert a[|a| - 1] == b[|b| - 1];
    DigitsNonEmpty(m / 10);
    DigitsNonEmpty(n / 10);
    if m >= 10 && n >= 10 {
      assert a[..|a| - 1] == P.Digits(m / 10) && b[..|b| - 1] == P.Digits(n / 10);
      DigitsInjective(m / 10, n / 10);
    }
  }

  lemma DigitsNonEmpty(n: nat)
    ensures P.Digits(n) != ""
  {
  }

  lemma JobKeysInjective(a: JobId, b: JobId)
    requires P.JobKey(a) == P.JobKey(b)
    ensures a == b
  {
    assert P.JobKey(a).jobId[5..] == P.Digits(a) && P.JobKey(b).jobId[5..] == P.Digits(b);
    DigitsInjective(a, b);
  }

  function Name(id: JobId): (name: string)
    ensures name != "" && L.KeyOf(P.JobKey(id)) == Some(name)
  {
    P.JobKey(id).jobId
  }

  /** A synchronous request whose identifier is spelled like the job's name has been
      settled. */
  predicate Stolen(t: L.Table, id: JobId) {
    exists m :: 0 <= m < |t| && t[m].status == L.Settled && t[m].requestId == Some(Name(id))
  }

  /** The job's index key belongs to a settled row: a request's, or its own. */
  lemma TakenIff(t: L.Table, id: JobId)
    ensures L.KeyTaken(t, P.JobKey(id)) <==> Stolen(t, id) || Rows(t, id, L.Settled) > 0
  {
    L.CountPositive(t, P.JobKey(id), L.Settled);
    if m :| 0 <= m < |t| && t[m].status == L.Settled && t[m].IndexKey() == L.KeyOf(P.JobKey(id)) {
      assert t[m].requestId == Some(Name(id)) || t[m].Matches(P.JobKey(id));
    }
    if m :| 0 <= m < |t| && t[m].status == L.Settled && t[m].Matches(P.JobKey(id)) {
      assert t[m].IndexKey() == L.KeyOf(P.JobKey(id));
    }
    if m :| 0 <= m < |t| && t[m].status == L.Settled && t[m].requestId == Some(Name(id)) {
      assert t[m].IndexKey() == L.KeyOf(P.JobKey(id));
    }
  }

  /** The unique index, seen from a job: not both. */
  lemma StolenOrSettled(t: L.Table, id: JobId)
    requires L.Wellformed(t) && Stolen(t, id)
    ensures Rows(t, id, L.Settled) == 0
  {
    L.CountPositive(t, P.JobKey(id), L.Settled);
    var m :| 0 <= m < |t| && t[m].status == L.Settled && t[m].requestId == Some(Name(id));
    assert t[m].IndexKey() == Some(Name(id));
    forall n | 0 <= n < |t| && t[n].status == L.Settled ensures !t[n].Matches(P.JobKey(id)) {
    }
  }

  // ---- Counting rows and executions ----

  function Rows(t: L.Table, id: JobId, s: L.Status): nat {
    L.Count(t, P.JobKey(id), s)
  }

  /** Holding a reservation that is not finalized yet. */
  predicate Pending(e: P.Exec) {
    e.handle.Some? && Open(e)
  }

  /** Finalized by settling. */
  predicate Closed(e: P.Exec) {
    e.handle.Some? && !e.verdict.Undecided? && (e.phase.Auditing? || e.phase.Done?)
  }

  function PendingOf(execs: seq<P.Exec>, id: JobId): nat {
    P.CountExecs(execs, id, Pending)
  }

  function ClosedOf(execs: seq<P.Exec>, id: JobId): nat {
    P.CountExecs(execs, id, Closed)
  }

  /** Every settlement of a job either settles a row or leaves one reserved; one
      settles exactly when the job's name was not stolen. */
  predicate RowsMatch(t: L.Table, execs: seq<P.Exec>, id: JobId) {
    var closed := ClosedOf(execs, id);
    && Rows(t, id, L.Settled) == (if closed > 0 && !Stolen(t, id) then 1 else 0)
    && Rows(t, id, L.Reserved) + Rows(t, id, L.Settled) == PendingOf(execs, id) + closed
  }

  lemma KeyMatchesOne(r: L.Row, a: JobId, b: JobId)
    requires r.Matches(P.JobKey(a)) && r.Matches(P.JobKey(b))
    ensures a == b
  {
    JobKeysInjective(a, b);
  }

  lemma InsertedRows(t: L.Table, j: JobId, subject: string, at: int, k: JobId, s: L.Status)
    ensures var t' := L.InsertReserved(t, P.JobKey(j), subject, at);
      && Rows(t', k, s) == Rows(t, k, s) + Indicator(j == k && s == L.Reserved)
      && (Stolen(t', k) <==> Stolen(t, k))
  {
    var t' := L.InsertReserved(t, P.JobKey(j), subject, at);
    assert t'[..|t|] == t && t'[|t|].Matches(P.JobKey(j));
    if t'[|t|].Matches(P.JobKey(k)) {
      KeyMatchesOne(t'[|t|], j, k);
    }
    forall m | 0 <= m < |t| ensures t'[m] == t[m] {
    }
  }

  /** Changing one of a job's own rows steals no name. */
  lemma OwnRowStealsNothing(t: L.Table, j: JobId, n: nat, r: L.Row, k: JobId)
    requires n < |t| && t[n].Matches(P.JobKey(j)) && r.requestId == t[n].requestId
    ensures Stolen(t[n := r], k) <==> Stolen(t, k)
  {
    var t' := t[n := r];
    if m :| 0 <= m < |t| && t[m].status == L.Settled && t[m].requestId == Some(Name(k)) {
      assert t'[m] == t[m];
    }
  }

  lemma ReleasedRows(t: L.Table, j: JobId, k: JobId)
    requires Rows(t, j, L.Reserved) > 0
    ensures var t' := L.ReleaseRow(t, P.JobKey(j));
      && Rows(t', k, L.Reserved) + Indicator(j == k) == Rows(t, k, L.Reserved)
      && Rows(t', k, L.Settled) == Rows(t, k, L.Settled)
      && (Stolen(t', k) <==> Stolen(t, k))
  {
    L.ReleaseExactly(t, P.JobKey(j));
    match L.Latest(t, P.JobKey(j), |t|)
    case None =>
    case Some(n) =>
      OwnRowStealsNothing(t, j, n, t[n].(status := L.Released), k);
      if j != k {
        assert !t[n].Matches(P.JobKey(k)) by { if t[n].Matches(P.JobKey(k)) { KeyMatchesOne(t[n], j, k); } }
        L.CountUpdate(t, P.JobKey(k), L.Reserved, n, t[n].(status := L.Released));
        L.CountUpdate(t, P.JobKey(k), L.Settled, n, t[n].(status := L.Released));
      }
  }

  /** What a settlement does to every job's rows: it settles one of the job's own if
      and only if the job has no settled row and its name is not stolen. */
  lemma SettledRows(t: L.Table, j: JobId, f: L.Final, k: JobId)
    requires L.Wellformed(t) && Rows(t, j, L.Reserved) > 0 && L.Storable(f)
    ensures var (t', answer) := L.SettleRow(t, P.JobKey(j), f);
      var first := Rows(t, j, L.Settled) == 0 && !Stolen(t, j);
      && answer == L.Done(first)
      && (!first ==> t' == t)
      && Rows(t', k, L.Reserved) + Indicator(j == k && first) == Rows(t, k, L.Reserved)
      && Rows(t', k, L.Settled) == Rows(t, k, L.Settled) + Indicator(j == k && first)
      && (Stolen(t', k) <==> Stolen(t, k))
      && (first ==> HasSettled(t', j, f.cost))
  {
    L.SettleExactly(t, P.JobKey(j), f);
    TakenIff(t, j);
    match L.Latest(t, P.JobKey(j), |t|)
    case None =>
    case Some(n) =>
      var row := t[n].(status := L.Settled, final := Some(f));
      if Rows(t, j, L.Settled) == 0 && !Stolen(t, j) {
        var t' := L.SettleRow(t, P.JobKey(j), f).0;
        OwnRowStealsNothing(t, j, n, row, k);
        assert t' == t[n := row] && L.SettledFor(t'[n], P.JobKey(j)) && t'[n].final == Some(f);
        if j != k {
          assert !t[n].Matches(P.JobKey(k)) by { if t[n].Matches(P.JobKey(k)) { KeyMatchesOne(t[n], j, k); } }
          L.CountUpdate(t, P.JobKey(k), L.Reserved, n, row);
          L.CountUpdate(t, P.JobKey(k), L.Settled, n, row);
        }
      }
  }

  /** The job's settled row, and the cost it carries. */
  predicate HasSettled(t: L.Table, id: JobId, cost: Option<int>) {
    exists n :: 0 <= n < |t| && L.SettledFor(t[n], P.JobKey(id)) && CostsThat(t[n], cost)
  }

  predicate CostsThat(r: L.Row, cost: Option<int>) {
    r.final.Some? && r.final.value.cost == cost
  }

  lemma SettledStays(t: L.Table, t': L.Table, id: JobId, cost: Option<int>)
    requires HasSettled(t, id, cost) && L.Evolves(t, t')
    ensures HasSettled(t', id, cost)
  {
    var n :| 0 <= n < |t| && L.SettledFor(t[n], P.JobKey(id)) && CostsThat(t[n], cost);
    assert L.RowEvolves(t[n], t'[n]);
  }

  /** Synchronous traffic never changes a job's own rows. */
  lemma ForeignRows(t: L.Table, row: L.Op, k: JobId, s: L.Status)
    requires P.ForeignRow(row)
    ensures Rows(L.Step(t, row), k, s) == Rows(t, k, s)
  {
    match row
    case Fault =>
    case Insert(id, subject, at) =>
      var t' := L.InsertReserved(t, id, subject, at);
      assert t'[..|t|] == t;
    case Settle(id, f) =>
      var n := L.Latest(t, id, |t|);
      if n.Some? && L.Step(t, row) != t {
        L.CountUpdate(t, P.JobKey(k), s, n.value, t[n.value].(status := L.Settled, final := Some(f)));
      }
    case Release(id) =>
      var n := L.Latest(t, id, |t|);
      if n.Some? {
        L.CountUpdate(t, P.JobKey(k), s, n.value, t[n.value].(status := L.Released));
      }
  }

  lemma StolenStays(t: L.Table, t': L.Table, id: JobId)
    requires Stolen(t, id) && L.Evolves(t, t')
    ensures Stolen(t', id)
  {
    var m :| 0 <= m < |t| && t[m].status == L.Settled && t[m].requestId == Some(Name(id));
    assert L.RowEvolves(t[m], t'[m]);
  }

  /** A name can be stolen only before the job is first settled, and then for good. */
  lemma ForeignKeepsMatch(t: L.Table, row: L.Op, execs: seq<P.Exec>, k: JobId)
    requires L.Wellformed(t) && P.ForeignRow(row) && RowsMatch(t, execs, k)
    ensures RowsMatch(L.Step(t, row), execs, k)
  {
    var t' := L.Step(t, row);
    ForeignRows(t, row, k, L.Reserved);
    ForeignRows(t, row, k, L.Settled);
    L.StepEvolves(t, row);
    hide L.Step, Rows, PendingOf, ClosedOf, L.Wellformed, L.Evolves;
    if Stolen(t, k) {
      StolenStays(t, t', k);
    } else if Stolen(t', k) {
      StolenOrSettled(t', k);
    }
  }

  // ---- One act ----

  function PriceOf(e: P.Exec, act: P.Act): Option<Cost.Price>
    requires act.SettleCall? && e.phase.Settling?
  {
    if P.Observation(e).Reported() && act.price.Got? then act.price.value else None
  }

  /** No accounting fault: refunds and settlements reach the books, and settled
      values satisfy the table's checks. */
  predicate CleanAct(e: P.Exec, act: P.Act) {
    match act
    case Unencodable(fault) => !fault
    case Surrender(_, fault) => !fault
    case Drop(fault) => !fault
    case SettleCall(price, at, fault) =>
      !fault && (e.phase.Settling? ==>
        && (P.Observation(e).Reported() ==> price.Got?)
        && L.Storable(A.FinalOf(P.Observation(e), PriceOf(e, act), at)))
    case _ => true
  }

  /** Handles carry their job's identity. */
  predicate Keyed(e: P.Exec) {
    e.handle.Some? ==> e.handle.value.id == P.JobKey(e.job.id)
  }

  /** The ledger statement an act amounts to. */
  datatype RowChange = Unchanged | Inserts | Releases | Settles(first: bool)

  /** One act's effect on its own execution's standing and on the ledger. */
  predicate Reflects(b: A.Books, e: P.Exec, b': A.Books, e': P.Exec, change: RowChange) {
    && Keyed(e')
    && match change
       case Unchanged => b'.ledger == b.ledger && Pending(e') == Pending(e) && Closed(e') == Closed(e)
       case Inserts => Pending(e') && !Pending(e) && !Closed(e') && !Closed(e)
       case Releases => !Pending(e') && Pending(e) && !Closed(e') && !Closed(e)
           && b'.ledger == L.ReleaseRow(b.ledger, P.JobKey(e.job.id))
       case Settles(first) => !Pending(e') && Pending(e) && Closed(e') && !Closed(e)
  }

  lemma ReserveReflects(s: State, after: State, b: A.Books, e: P.Exec, t: P.Terms)
    requires Sound(b, e) && P.Held(b, e) && e.phase.Claimed?
    ensures var b' := P.ActBooks(b, e, P.Reserve(t));
      var e' := P.ActExec(s, after, b, e, P.Reserve(t));
      if P.Admission(b, e, t).outcome.Admitted? then
        && Reflects(b, e, b', e', Inserts)
        && b'.ledger == L.InsertReserved(b.ledger, P.JobKey(e.job.id), t.subject, t.at)
      else Reflects(b, e, b', e', Unchanged)
  {
    var a := P.Admission(b, e, t);
    if a.outcome.Admitted? {
      A.AdmissionIsCharged(b, t.wired, t.enforcement, t.policy, t.price,
                           A.Request(P.JobKey(e.job.id), t.subject, t.tenant, t.stamp, t.at, t.estimate),
                           t.ledgerFault);
    } else {
      RefusedKeepsLedger(b, e, t);
    }
    hide A.Admit, B.BudgetKeys, B.Capped, A.EstimateMicros, P.JobKey, L.InsertReserved;
  }

  lemma RefusedKeepsLedger(b: A.Books, e: P.Exec, t: P.Terms)
    requires !P.Admission(b, e, t).outcome.Admitted?
    ensures P.Admission(b, e, t).books.ledger == b.ledger
  {
    hide B.BudgetKeys, B.Capped, B.ReserveOn, B.ReleaseOn, A.EstimateMicros, P.JobKey;
  }

  lemma RefundReflects(s: State, after: State, b: A.Books, e: P.Exec, act: P.Act, maxAttempts: int)
    requires Sound(b, e) && P.Held(b, e) && P.Allowed(maxAttempts, e, act) && Keyed(e)
    requires (act.Surrender? || act.Drop? || act.Unencodable?) && !act.fault
    ensures Reflects(b, e, P.ActBooks(b, e, act), P.ActExec(s, after, b, e, act), if Pending(e) then Releases
                     else Unchanged)
  {
    hide B.ReleaseOn, P.JobKey, L.ReleaseRow, OnCounters, Billing;
  }

  /** The next settlement of the job settles a row. */
  predicate First(t: L.Table, id: JobId) {
    Rows(t, id, L.Settled) == 0 && !Stolen(t, id)
  }

  lemma SettleReflects(s: State, after: State, b: A.Books, e: P.Exec, act: P.Act)
    requires Sound(b, e) && P.Held(b, e) && act.SettleCall? && e.phase.Settling? && Keyed(e)
    requires CleanAct(e, act) && L.Wellformed(b.ledger)
    requires Pending(e) ==> Rows(b.ledger, e.job.id, L.Reserved) > 0
    ensures var b' := P.ActBooks(b, e, act);
      var e' := P.ActExec(s, after, b, e, act);
      var f := A.FinalOf(P.Observation(e), PriceOf(e, act), act.at);
      if Pending(e) then
        && Reflects(b, e, b', e', Settles(First(b.ledger, e.job.id)))
        && b'.ledger == L.SettleRow(b.ledger, P.JobKey(e.job.id), f).0
        && e'.billed == f.cost
      else Reflects(b, e, b', e', Unchanged)
  {
    var f := A.FinalOf(P.Observation(e), PriceOf(e, act), act.at);
    if Pending(e) {
      SettledRows(b.ledger, e.job.id, f, e.job.id);
    }
    hide B.SettleOn, P.JobKey, L.SettleRow, OnCounters, Billing, Rows, Stolen, L.Storable, L.Wellformed, Cost.Cost,
        P.Observation;
  }

  lemma OtherReflects(s: State, after: State, b: A.Books, e: P.Exec, act: P.Act, maxAttempts: int)
    requires Sound(b, e) && P.Held(b, e) && P.Allowed(maxAttempts, e, act) && Keyed(e)
    requires !act.Reserve? && !act.Surrender? && !act.Drop? && !act.Unencodable? && !act.SettleCall?
    ensures Reflects(b, e, P.ActBooks(b, e, act), P.ActExec(s, after, b, e, act), Unchanged)
  {
    hide P.JobKey, OnCounters, Billing, Owned, P.JobCancelled;
  }

  // ---- The system invariant ----

  /** A winner that settled owns the settled row, at the cost it billed, unless the
      job's name was stolen. */
  predicate WonRow(t: L.Table, e: P.Exec) {
    e.verdict.Won? && Closed(e) ==> Stolen(t, e.job.id) || HasSettled(t, e.job.id, e.billed)
  }

  ghost predicate LedgerInv(sys: P.Sys) {
    && Inv(sys)
    && L.Wellformed(sys.books.ledger)
    && (forall id :: RowsMatch(sys.books.ledger, sys.execs, id))
    && (forall i :: 0 <= i < |sys.execs| ==> Keyed(sys.execs[i]))
    && (forall i :: 0 <= i < |sys.execs| ==> WonRow(sys.books.ledger, sys.execs[i]))
  }

  predicate CleanEvent(sys: P.Sys, ev: P.Event) {
    ev.Execute? && ev.i < |sys.execs| ==> CleanAct(sys.execs[ev.i], ev.act)
  }

  lemma PendingHasRow(sys: P.Sys, i: nat)
    requires LedgerInv(sys) && i < |sys.execs| && Pending(sys.execs[i])
    ensures Rows(sys.books.ledger, sys.execs[i].job.id, L.Reserved) > 0
  {
    var id := sys.execs[i].job.id;
    assert RowsMatch(sys.books.ledger, sys.execs, id);
    P.CountNone(sys.execs, id, Pending);
  }

  /** The winner is the first to settle its job. */
  lemma WinnerSettlesFirst(sys: P.Sys, i: nat)
    requires LedgerInv(sys) && i < |sys.execs| && Pending(sys.execs[i]) && sys.execs[i].verdict.Won?
    ensures Rows(sys.books.ledger, sys.execs[i].job.id, L.Settled) == 0
  {
    var id := sys.execs[i].job.id;
    assert RowsMatch(sys.books.ledger, sys.execs, id);
    forall m | 0 <= m < |sys.execs| && sys.execs[m].job.id == id ensures !Closed(sys.execs[m]) {
      assert Vindicated(sys.store, sys.execs[i]) && Vindicated(sys.store, sys.execs[m]);
    }
    P.CountNone(sys.execs, id, Closed);
  }

  /** Rows and executions change together, for every job. */
  lemma ReflectedRows(b: A.Books, execs: seq<P.Exec>, i: nat, b': A.Books, e': P.Exec, change: RowChange, f: L.Final,
                      subject: string, at: int, k: JobId)
    requires i < |execs| && e'.job == execs[i].job && RowsMatch(b.ledger, execs, k)
        && RowsMatch(b.ledger, execs, e'.job.id)
    requires L.Wellformed(b.ledger)
    requires Reflects(b, execs[i], b', e', change)
    requires Pending(execs[i]) ==> Rows(b.ledger, e'.job.id, L.Reserved) > 0
    requires change.Inserts? ==> b'.ledger == L.InsertReserved(b.ledger, P.JobKey(e'.job.id), subject, at)
    requires change.Settles? ==> L.Storable(f) && b'.ledger == L.SettleRow(b.ledger, P.JobKey(e'.job.id), f).0
                                 && change.first == First(b.ledger, e'.job.id)
    ensures RowsMatch(b'.ledger, execs[i := e'], k)
    ensures L.Wellformed(b'.ledger) && L.Evolves(b.ledger, b'.ledger)
    ensures change.Settles? && change.first ==> HasSettled(b'.ledger, e'.job.id, f.cost)
  {
    hide Rows, P.JobKey, Pending, Closed, L.SettleRow, L.ReleaseRow, L.InsertReserved, HasSettled, L.Wellformed,
         L.Evolves, Stolen, Keyed, P.CountExecs, L.Storable;
    var j := e'.job.id;
    P.CountUpdate(execs, i, e', k, Pending);
    P.CountUpdate(execs, i, e', k, Closed);
    match change {
      case Unchanged =>
        L.StepEvolves(b.ledger, L.Fault);
      case Inserts =>
        InsertedRows(b.ledger, j, subject, at, k, L.Reserved);
        InsertedRows(b.ledger, j, subject, at, k, L.Settled);
        L.StepEvolves(b.ledger, L.Insert(P.JobKey(j), subject, at));
      case Releases =>
        ReleasedRows(b.ledger, j, k);
        L.StepEvolves(b.ledger, L.Release(P.JobKey(j)));
      case Settles(first) =>
        SettledRows(b.ledger, j, f, k);
        L.StepEvolves(b.ledger, L.Settle(P.JobKey(j), f));
    }
  }

  /** The ledger statement of an act and its arguments. */
  datatype Statement = Statement(change: RowChange, final: L.Final, subject: string, at: int)

  predicate Issues(b: A.Books, e: P.Exec, b': A.Books, e': P.Exec, st: Statement) {
    && Reflects(b, e, b', e', st.change)
    && (st.change.Inserts? ==> b'.ledger == L.InsertReserved(b.ledger, P.JobKey(e.job.id), st.subject, st.at))
    && (st.change.Settles? ==>
          && L.Storable(st.final) && b'.ledger == L.SettleRow(b.ledger, P.JobKey(e.job.id), st.final).0
          && st.change.first == First(b.ledger, e.job.id) && e'.billed == st.final.cost)
  }

  /** Every act issues one statement, or none. */
  lemma ActIssues(s: State, after: State, b: A.Books, e: P.Exec, act: P.Act, maxAttempts: int) returns (st: Statement)
    requires Sound(b, e) && P.Held(b, e) && P.Allowed(maxAttempts, e, act) && Keyed(e) && CleanAct(e, act)
    requires L.Wellformed(b.ledger) && (Pending(e) ==> Rows(b.ledger, e.job.id, L.Reserved) > 0)
    ensures Issues(b, e, P.ActBooks(b, e, act), P.ActExec(s, after, b, e, act), st)
    ensures st.change.Settles? <==> Pending(e) && act.SettleCall?
  {
    hide P.ActBooks, P.ActExec, Reflects, Sound, First, L.Wellformed, Keyed, P.JobKey, L.InsertReserved, L.SettleRow,
        Rows;
    st := Statement(Unchanged, L.Final(Cost.Usage(None, None, None, None), None, None, "", 0), "", 0);
    match act {
      case Reserve(t) =>
        ReserveReflects(s, after, b, e, t);
        st := st.(change := if P.Admission(b, e, t).outcome.Admitted? then Inserts else Unchanged, subject := t.subject,
                  at := t.at);
      case SettleCall(_, _, _) =>
        SettleReflects(s, after, b, e, act);
        st := st.(change := if Pending(e) then Settles(First(b.ledger, e.job.id)) else Unchanged,
                  final := A.FinalOf(P.Observation(e), PriceOf(e, act), act.at));
      case Surrender(_, _) =>
        RefundReflects(s, after, b, e, act, maxAttempts);
        st := st.(change := if Pending(e) then Releases else Unchanged);
      case Drop(_) =>
        RefundReflects(s, after, b, e, act, maxAttempts);
        st := st.(change := if Pending(e) then Releases else Unchanged);
      case Unencodable(_) =>
        RefundReflects(s, after, b, e, act, maxAttempts);
        st := st.(change := if Pending(e) then Releases else Unchanged);
      case _ =>
        OtherReflects(s, after, b, e, act, maxAttempts);
    }
  }

  /** Nothing else changes the bill of a closed execution. */
  lemma BillStays(s: State, after: State, b: A.Books, e: P.Exec, act: P.Act, maxAttempts: int)
    requires Sound(b, e) && P.Held(b, e) && P.Allowed(maxAttempts, e, act) && Closed(e)
    ensures P.ActExec(s, after, b, e, act).billed == e.billed && P.ActExec(s, after, b, e, act).verdict == e.verdict
    ensures P.ActBooks(b, e, act) == b
  {
    hide OnCounters, Billing, Owned, P.JobCancelled;
  }

  /** A settlement does not change the verdict, and only it closes an execution. */
  lemma SettlingVerdict(s: State, after: State, b: A.Books, e: P.Exec, act: P.Act)
    requires P.Held(b, e) && act.SettleCall? && e.phase.Settling?
    ensures P.ActExec(s, after, b, e, act).verdict == e.verdict
  {
    hide P.Settlement, A.CostOf, P.Observation;
  }

  /** One act of execution i, seen from job k. */
  lemma ExecuteRows(sys: P.Sys, i: nat, act: P.Act, maxAttempts: int, k: JobId)
    requires LedgerInv(sys) && P.Enabled(sys, P.Execute(i, act), maxAttempts) && CleanAct(sys.execs[i], act)
    ensures var b' := P.ActBooks(sys.books, sys.execs[i], act);
      var e' := P.ActExec(sys.store, P.NextStore(sys, P.Execute(i, act), maxAttempts), sys.books, sys.execs[i], act);
      && RowsMatch(b'.ledger, sys.execs[i := e'], k)
      && L.Wellformed(b'.ledger) && L.Evolves(sys.books.ledger, b'.ledger)
      && Keyed(e') && (WonRow(b'.ledger, e'))
  {
    var b, e := sys.books, sys.execs[i];
    var after := P.NextStore(sys, P.Execute(i, act), maxAttempts);
    assert Sound(b, e) && Keyed(e) && WonRow(b.ledger, e) && RowsMatch(b.ledger, sys.execs, k)
        && RowsMatch(b.ledger, sys.execs, e.job.id);
    ActsAllowed(sys, i, act, maxAttempts);
    if Pending(e) {
      PendingHasRow(sys, i);
      if e.verdict.Won? {
        WinnerSettlesFirst(sys, i);
      }
    }
    hide P.ActBooks, P.ActExec, P.NextStore, P.Allowed, RowsMatch, L.Wellformed, L.Evolves, Sound, HasSettled,
        LedgerInv, P.Enabled;
    var b', e' := P.ActBooks(b, e, act), P.ActExec(sys.store, after, b, e, act);
    ExecWins(sys.store, after, b, e, act, maxAttempts);
    var st := ActIssues(sys.store, after, b, e, act, maxAttempts);
    ReflectedRows(b, sys.execs, i, b', e', st.change, st.final, st.subject, st.at, k);
    if Closed(e) {
      BillStays(sys.store, after, b, e, act, maxAttempts);
    }
    if act.SettleCall? {
      SettlingVerdict(sys.store, after, b, e, act);
    }
  }

  lemma ActsAllowed(sys: P.Sys, i: nat, act: P.Act, maxAttempts: int)
    requires P.Enabled(sys, P.Execute(i, act), maxAttempts)
    ensures i < |sys.execs| && P.Allowed(maxAttempts, sys.execs[i], act) && P.Held(sys.books, sys.execs[i])
    ensures act.SettleCall? ==> sys.execs[i].phase.Settling?
    ensures act.Look? ==> sys.execs[i].phase.Racing?
  {
  }

  lemma WonRowStays(t: L.Table, t': L.Table, e: P.Exec)
    requires WonRow(t, e) && L.Evolves(t, t')
    ensures WonRow(t', e)
  {
    if e.verdict.Won? && Closed(e) {
      if Stolen(t, e.job.id) {
        StolenStays(t, t', e.job.id);
      } else {
        SettledStays(t, t', e.job.id, e.billed);
      }
    }
  }

  lemma ExecuteInv(sys: P.Sys, i: nat, act: P.Act, maxAttempts: int)
    requires LedgerInv(sys) && P.Enabled(sys, P.Execute(i, act), maxAttempts) && CleanAct(sys.execs[i], act)
    ensures LedgerInv(P.Step(sys, P.Execute(i, act), maxAttempts))
  {
    var ev := P.Execute(i, act);
    var sys' := P.Step(sys, ev, maxAttempts);
    StepInv(sys, ev, maxAttempts);
    ExecuteRows(sys, i, act, maxAttempts, 0);
    forall k ensures RowsMatch(sys'.books.ledger, sys'.execs, k) {
      ExecuteRows(sys, i, act, maxAttempts, k);
    }
    forall j | 0 <= j < |sys'.execs| ensures Keyed(sys'.execs[j]) && WonRow(sys'.books.ledger, sys'.execs[j]) {
      if j != i {
        WonRowStays(sys.books.ledger, sys'.books.ledger, sys.execs[j]);
      }
    }
    hide P.ActExec, P.ActBooks, P.NextStore, P.Allowed, P.Ended, RowsMatch, Keyed, WonRow, Inv, L.Wellformed, CleanAct;
  }

  lemma TrafficInv(sys: P.Sys, op: B.Op, row: L.Op, maxAttempts: int)
    requires LedgerInv(sys) && P.Enabled(sys, P.Traffic(op, row), maxAttempts)
    ensures LedgerInv(P.Step(sys, P.Traffic(op, row), maxAttempts))
  {
    var ev := P.Traffic(op, row);
    var sys' := P.Step(sys, ev, maxAttempts);
    StepInv(sys, ev, maxAttempts);
    L.StepEvolves(sys.books.ledger, row);
    forall k ensures RowsMatch(sys'.books.ledger, sys'.execs, k) {
      assert RowsMatch(sys.books.ledger, sys.execs, k);
      ForeignKeepsMatch(sys.books.ledger, row, sys.execs, k);
    }
    forall j | 0 <= j < |sys'.execs| ensures WonRow(sys'.books.ledger, sys'.execs[j]) {
      WonRowStays(sys.books.ledger, sys'.books.ledger, sys.execs[j]);
    }
    hide L.Step, B.Step, Rows, PendingOf, ClosedOf, Inv, L.Wellformed, WonRow, Keyed;
  }

  lemma ClaimInv(sys: P.Sys, owner: string, lease: int, now: int, maxAttempts: int)
    requires LedgerInv(sys)
    ensures LedgerInv(P.Step(sys, P.Claim(owner, lease, now), maxAttempts))
  {
    var ev := P.Claim(owner, lease, now);
    var sys' := P.Step(sys, ev, maxAttempts);
    StepInv(sys, ev, maxAttempts);
    if Next(sys.store, now).Some? {
      var e := P.Exec(ClaimRec(sys.store.jobs[Next(sys.store, now).value], owner, lease, now).job, P.Phase.Claimed,
                      None, P.Undecided, None);
      assert sys'.execs == sys.execs + [e];
      forall k ensures RowsMatch(sys'.books.ledger, sys'.execs, k) {
        assert RowsMatch(sys.books.ledger, sys.execs, k);
        P.CountSnoc(sys.execs, e, k, Pending);
        P.CountSnoc(sys.execs, e, k, Closed);
      }
    }
    hide JobStore.Step, P.NextStore, Inv, Rows, L.Wellformed;
  }

  lemma LedgerStep(sys: P.Sys, ev: P.Event, maxAttempts: int)
    requires LedgerInv(sys) && CleanEvent(sys, ev)
    ensures LedgerInv(P.Step(sys, ev, maxAttempts))
  {
    if P.Enabled(sys, ev, maxAttempts) {
      match ev {
        case Execute(i, act) => ExecuteInv(sys, i, act, maxAttempts);
        case Traffic(op, row) => TrafficInv(sys, op, row, maxAttempts);
        case Claim(owner, lease, now) => ClaimInv(sys, owner, lease, now, maxAttempts);
        case _ => StepInv(sys, ev, maxAttempts);
      }
    }
    hide P.NextStore, Inv, RowsMatch, Keyed, WonRow, L.Wellformed, P.Ended;
  }

  ghost predicate CleanRun(sys: P.Sys, evs: seq<P.Event>, maxAttempts: int)
    requires Filed(sys.store)
    decreases |evs|
  {
    evs == [] ||
    (P.StepKeepsFiled(sys, evs[0], maxAttempts);
     CleanEvent(sys, evs[0]) && CleanRun(P.Step(sys, evs[0], maxAttempts), evs[1..], maxAttempts))
  }

  lemma {:induction false} RunLedger(sys: P.Sys, evs: seq<P.Event>, maxAttempts: int)
    requires LedgerInv(sys) && CleanRun(sys, evs, maxAttempts)
    ensures LedgerInv(P.Run(sys, evs, maxAttempts))
    decreases |evs|
  {
    if evs != [] {
      LedgerStep(sys, evs[0], maxAttempts);
      hide P.Step, CleanEvent;
      RunLedger(P.Step(sys, evs[0], maxAttempts), evs[1..], maxAttempts);
    }
  }

  // ---- The theorems ----

  /** Both books, in every run without accounting faults, with store faults, any
      interleaving and any synchronous traffic. Once a job is finished and its
      executions have ended, the counters hold the commit winner's exact cost (or
      its estimate). If the winner held a reservation the job has one row left: it is
      settled at that cost if and only if no settled request carries the job's name,
      and otherwise it stays reserved. If no winner did, no row is left. */
  lemma BothBooksAgree(evs: seq<P.Event>, maxAttempts: int, id: JobId)
    requires CleanRun(P.START, evs, maxAttempts)
    ensures var sys := P.Run(P.START, evs, maxAttempts);
      var t := sys.books.ledger;
      Finished(sys.store, id) && AllDone(sys.execs, id) ==>
        && (forall w :: WinnerOf(sys.execs, id, w) && sys.execs[w].handle.Some? ==>
              && Rows(t, id, L.Reserved) + Rows(t, id, L.Settled) == 1
              && (Rows(t, id, L.Settled) == 1 <==> !Stolen(t, id))
              && (!Stolen(t, id) ==> HasSettled(t, id, sys.execs[w].billed))
              && Booked(sys.books, sys.execs[w])
              && OnCounters(sys.books, sys.execs[w]) == Billing(sys.books, sys.execs[w]))
        && ((forall w :: WinnerOf(sys.execs, id, w) ==> sys.execs[w].handle.None?) ==>
              Rows(t, id, L.Reserved) == Rows(t, id, L.Settled) == 0)
  {
    var sys := P.Run(P.START, evs, maxAttempts);
    StartInv();
    RunLedger(P.START, evs, maxAttempts);
    if Finished(sys.store, id) && AllDone(sys.execs, id) {
      FinishedRows(sys, id);
    }
    hide P.Run, LedgerInv, Finished, AllDone, CleanRun;
  }

  lemma StartInv()
    ensures LedgerInv(P.START)
  {
  }

  lemma FinishedRows(sys: P.Sys, id: JobId)
    requires LedgerInv(sys) && Finished(sys.store, id) && AllDone(sys.execs, id)
    ensures var t := sys.books.ledger;
      forall w :: WinnerOf(sys.execs, id, w) && sys.execs[w].handle.Some? ==>
        && Rows(t, id, L.Reserved) + Rows(t, id, L.Settled) == 1
        && (Rows(t, id, L.Settled) == 1 <==> !Stolen(t, id))
        && (!Stolen(t, id) ==> HasSettled(t, id, sys.execs[w].billed))
        && Booked(sys.books, sys.execs[w])
        && OnCounters(sys.books, sys.execs[w]) == Billing(sys.books, sys.execs[w])
    ensures (forall w :: WinnerOf(sys.execs, id, w) ==> sys.execs[w].handle.None?) ==>
              Rows(sys.books.ledger, id, L.Reserved) == Rows(sys.books.ledger, id, L.Settled) == 0
  {
    assert RowsMatch(sys.books.ledger, sys.execs, id);
    P.CountNone(sys.execs, id, Pending);
    P.CountNone(sys.execs, id, Closed);
    AtMostOneClosed(sys, sys.execs, id);
    forall w | WinnerOf(sys.execs, id, w) && sys.execs[w].handle.Some?
      ensures ClosedOf(sys.execs, id) > 0
      ensures Stolen(sys.books.ledger, id) || HasSettled(sys.books.ledger, id, sys.execs[w].billed)
      ensures Booked(sys.books, sys.execs[w]) && OnCounters(sys.books, sys.execs[w]) == Billing(sys.books, sys.execs[w])
    {
      assert Closed(sys.execs[w]) && WonRow(sys.books.ledger, sys.execs[w]) && Sound(sys.books, sys.execs[w]);
    }
    forall i | 0 <= i < |sys.execs| && sys.execs[i].job.id == id && Closed(sys.execs[i])
      ensures WinnerOf(sys.execs, id, i)
    {
      assert Vindicated(sys.store, sys.execs[i]);
    }
  }

  /** A finished job has at most one closed execution: its winner. */
  lemma {:induction false} AtMostOneClosed(sys: P.Sys, execs: seq<P.Exec>, id: JobId)
    requires Finished(sys.store, id) && execs <= sys.execs && OneWinner(sys.execs)
        && AllVindicated(sys.store, sys.execs)
    ensures ClosedOf(execs, id) <= 1
    decreases |execs|
  {
    if execs != [] {
      var n := |execs| - 1;
      AtMostOneClosed(sys, execs[..n], id);
      assert Vindicated(sys.store, sys.execs[n]);
      if execs[n].job.id == id && Closed(execs[n]) {
        forall i | 0 <= i < n && execs[..n][i].job.id == id ensures !Closed(execs[..n][i]) {
          assert Vindicated(sys.store, sys.execs[i]);
        }
        P.CountNone(execs[..n], id, Closed);
      }
    }
  }

  /** What the unique index costs. For any job whose executions have all ended,
      every settlement but the first leaves a row reserved (only observers of a
      cancelled job can make a second one), and so does the first if the job's name
      was stolen. */
  lemma LeftoverRows(evs: seq<P.Event>, maxAttempts: int, id: JobId)
    requires CleanRun(P.START, evs, maxAttempts)
    ensures var sys := P.Run(P.START, evs, maxAttempts);
      AllDone(sys.execs, id) ==>
        Rows(sys.books.ledger, id, L.Reserved)
        == ClosedOf(sys.execs, id) - if ClosedOf(sys.execs, id) > 0 && !Stolen(sys.books.ledger, id) then 1 else 0
  {
    var sys := P.Run(P.START, evs, maxAttempts);
    StartInv();
    RunLedger(P.START, evs, maxAttempts);
    assert RowsMatch(sys.books.ledger, sys.execs, id);
    P.CountNone(sys.execs, id, Pending);
  }

  /** A settled execution stays one. */
  lemma ClosedGrows(sys: P.Sys, ev: P.Event, maxAttempts: int, id: JobId)
    requires Inv(sys)
    ensures ClosedOf(P.Step(sys, ev, maxAttempts).execs, id) >= ClosedOf(sys.execs, id)
  {
    if P.Enabled(sys, ev, maxAttempts) {
      match ev {
        case Execute(i, act) =>
          assert Sound(sys.books, sys.execs[i]);
          var after := P.NextStore(sys, ev, maxAttempts);
          var e' := P.ActExec(sys.store, after, sys.books, sys.execs[i], act);
          if Closed(sys.execs[i]) {
            ClosedStays(sys.store, after, sys.books, sys.execs[i], act, maxAttempts);
          }
          hide P.ActExec, P.NextStore, Closed, Inv, P.Ended, P.NextBooks;
          P.CountUpdate(sys.execs, i, e', id, Closed);
        case Claim(owner, lease, now) =>
          if Next(sys.store, now).Some? {
            var execs' := P.NextExecs(sys, ev, maxAttempts);
            P.CountSnoc(sys.execs, execs'[|sys.execs|], id, Closed);
          }
          hide P.NextStore, Inv, P.Ended, P.NextBooks, JobStore.Step;
        case _ =>
          hide P.NextStore, Inv, P.Ended, P.NextBooks, JobStore.Step;
      }
    }
  }

  lemma ClosedStays(s: State, after: State, b: A.Books, e: P.Exec, act: P.Act, maxAttempts: int)
    requires P.Held(b, e) && P.Allowed(maxAttempts, e, act) && Closed(e)
    ensures var e' := P.ActExec(s, after, b, e, act); Closed(e') && e'.job == e.job
  {
  }

  /** And the rows are left for ever: in every continuation at least as many stay
      reserved as settlements made so far, less the one that may have settled. */
  lemma {:induction false} LeftoversStay(sys: P.Sys, evs: seq<P.Event>, maxAttempts: int, id: JobId)
    requires LedgerInv(sys) && CleanRun(sys, evs, maxAttempts)
    ensures var t := P.Run(sys, evs, maxAttempts).books.ledger;
      Rows(t, id, L.Reserved) >= ClosedOf(sys.execs, id) - if Stolen(t, id) then 0 else 1
    decreases |evs|
  {
    if evs == [] {
      assert RowsMatch(sys.books.ledger, sys.execs, id);
    } else {
      ClosedGrows(sys, evs[0], maxAttempts, id);
      LedgerStep(sys, evs[0], maxAttempts);
      hide P.Step, CleanEvent, Rows, ClosedOf, LedgerInv, Stolen;
      LeftoversStay(P.Step(sys, evs[0], maxAttempts), evs[1..], maxAttempts, id);
    }
  }
}

/** The usage ledger (internal/store/pg/ledger.go): rows reserved, then settled
    or released by conditional updates that pick the identity's latest reserved
    row. Row n of the sequence is the row whose serial id is n. */
module Ledger {
  import opened Common
  import Cost

  datatype Status = Reserved | Settled | Released

  /** Exactly one half is normally set; the empty half is stored as NULL. */
  datatype Identity = Identity(requestId: string, jobId: string)

  function NullIf(s: string): Option<string> {
    if s == "" then None else Some(s)
  }

  /** The column values a settlement writes. */
  datatype Final = Final(usage: Cost.Usage, cost: Option<int>, version: Option<int>, currency: string, at: int)

  datatype Row = Row(requestId: Option<string>, jobId: Option<string>, subject: string, createdAt: int,
                     status: Status, final: Option<Final>)
  {
    /** IS NOT DISTINCT FROM on both halves. */
    predicate Matches(id: Identity) {
      requestId == NullIf(id.requestId) && jobId == NullIf(id.jobId)
    }

    /** COALESCE(request_id, job_id), the key of the partial unique index. */
    function IndexKey(): Option<string> {
      if requestId.Some? then requestId else jobId
    }
  }

  type Table = seq<Row>

  /** The column CHECKs a settlement must satisfy: no negative count or cost, and
      a cost names its price. */
  predicate Storable(f: Final) {
    && (f.usage.prompt.Some? ==> f.usage.prompt.value >= 0)
    && (f.usage.completion.Some? ==> f.usage.completion.value >= 0)
    && (f.usage.reasoning.Some? ==> f.usage.reasoning.value >= 0)
    && (f.usage.cached.Some? ==> f.usage.cached.value >= 0)
    && (f.cost.Some? ==> f.cost.value >= 0 && f.version.Some? && f.currency != "")
  }

  // ---- Statements on values ----

  predicate Candidate(r: Row, id: Identity) {
    r.status == Reserved && r.Matches(id)
  }

  /** ORDER BY id DESC LIMIT 1 over the identity's reserved rows among the first n. */
  function Latest(t: Table, id: Identity, n: nat): (r: Option<nat>)
    requires n <= |t|
    ensures r.Some? ==> r.value < n && Candidate(t[r.value], id) && forall k :: r.value < k < n ==> !Candidate(t[k], id)
    ensures r.None? ==> forall k :: 0 <= k < n ==> !Candidate(t[k], id)
  {
    if n == 0 then None
    else if Candidate(t[n - 1], id) then Some(n - 1)
    else Latest(t, id, n - 1)
  }

  /** Settling row n would put a second settled row under one index key. */
  predicate Conflicts(t: Table, n: nat)
    requires n < |t|
  {
    t[n].IndexKey().Some? &&
    exists m :: 0 <= m < |t| && m != n && t[m].status == Settled && t[m].IndexKey() == t[n].IndexKey()
  }

  function InsertReserved(t: Table, id: Identity, subject: string, at: int): Table {
    t + [Row(NullIf(id.requestId), NullIf(id.jobId), subject, at, Reserved, None)]
  }

  datatype Answer = Done(settled: bool) | Failed

  /** The conditional UPDATE: nothing to settle and a unique violation are both
      the idempotent no-op; a rejected value is an error that changes nothing. */
  function SettleRow(t: Table, id: Identity, f: Final): (Table, Answer) {
    match Latest(t, id, |t|)
    case None => (t, Done(false))
    case Some(n) =>
      if !Storable(f) then (t, Failed)
      else if Conflicts(t, n) then (t, Done(false))
      else (t[n := t[n].(status := Settled, final := Some(f))], Done(true))
  }

  function ReleaseRow(t: Table, id: Identity): Table {
    match Latest(t, id, |t|)
    case None => t
    case Some(n) => t[n := t[n].(status := Released)]
  }

  // ---- Invariant ----

  /** The partial unique index, and status-shaped columns. */
  predicate Wellformed(t: Table) {
    && (forall n :: 0 <= n < |t| ==> (t[n].status == Settled <==> t[n].final.Some?))
    && (forall m, n :: 0 <= m < n < |t| && t[m].status == Settled && t[n].status == Settled && t[m].IndexKey().Some? ==>
          t[m].IndexKey() != t[n].IndexKey())
  }

  /** What one row may become: a reserved row keeps its identity and may be
      finalized; a final row is frozen, every column of it. */
  predicate RowEvolves(a: Row, b: Row) {
    if a.status != Reserved then b == a
    else b.requestId == a.requestId && b.jobId == a.jobId && b.subject == a.subject && b.createdAt == a.createdAt
  }

  predicate Evolves(t: Table, t': Table) {
    |t| <= |t'| && forall n :: 0 <= n < |t| ==> RowEvolves(t[n], t'[n])
  }

  // ---- Runs ----

  /** One statement as some client issued it; Fault is a call that failed before
      it committed anything. */
  datatype Op =
    | Insert(id: Identity, subject: string, at: int)
    | Settle(id: Identity, final: Final)
    | Release(id: Identity)
    | Fault

  function Step(t: Table, op: Op): Table {
    match op
    case Insert(id, subject, at) => InsertReserved(t, id, subject, at)
    case Settle(id, f) => SettleRow(t, id, f).0
    case Release(id) => ReleaseRow(t, id)
    case Fault => t
  }

  function Run(t: Table, ops: seq<Op>): Table
    decreases |ops|
  {
    if ops == [] then t else Run(Step(t, ops[0]), ops[1..])
  }

  lemma StepEvolves(t: Table, op: Op)
    requires Wellformed(t)
    ensures Wellformed(Step(t, op)) && Evolves(t, Step(t, op))
  {
  }

  lemma EvolvesTransitive(a: Table, b: Table, c: Table)
    requires Evolves(a, b) && Evolves(b, c)
    ensures Evolves(a, c)
  {
    forall n | 0 <= n < |a| ensures RowEvolves(a[n], c[n]) {
      assert RowEvolves(a[n], b[n]) && RowEvolves(b[n], c[n]);
    }
  }

  /** Exactly once, over every interleaving of inserts, settlements, releases and
      failures by any number of clients: rows only move from reserved to settled
      or released, a final row never changes again, and no two settled rows share
      an index key. */
  lemma {:induction false} RunEvolves(t: Table, ops: seq<Op>)
    requires Wellformed(t)
    ensures Wellformed(Run(t, ops)) && Evolves(t, Run(t, ops))
    decreases |ops|
  {
    if ops != [] {
      StepEvolves(t, ops[0]);
      RunEvolves(Step(t, ops[0]), ops[1..]);
      EvolvesTransitive(t, Step(t, ops[0]), Run(t, ops));
    }
  }

  predicate SettledFor(r: Row, id: Identity) {
    r.status == Settled && r.Matches(id)
  }

  /** In particular each identity has at most one settled row, and it is the same
      row with the same cost ever after. */
  lemma OneSettlementPerIdentity(ops: seq<Op>, later: seq<Op>, id: Identity, m: nat, n: nat)
    requires id.requestId != "" || id.jobId != ""
    requires var t := Run([], ops);
      m < |t| && SettledFor(t[m], id)
    requires var t' := Run(Run([], ops), later);
      n < |t'| && SettledFor(t'[n], id)
    ensures m == n && Run(Run([], ops), later)[n] == Run([], ops)[m]
  {
    var t := Run([], ops);
    RunEvolves([], ops);
    RunEvolves(t, later);
    var t' := Run(t, later);
    assert RowEvolves(t[m], t'[m]);
  }

  // ---- How many rows of each kind an identity has ----

  function Count(t: Table, id: Identity, s: Status): nat {
    if t == [] then 0
    else Count(t[..|t| - 1], id, s) + if t[|t| - 1].status == s && t[|t| - 1].Matches(id) then 1 else 0
  }

  lemma {:induction false} CountUpdate(t: Table, id: Identity, s: Status, n: nat, r: Row)
    requires n < |t|
    ensures Count(t[n := r], id, s)
         == Count(t, id, s) - (if t[n].status == s && t[n].Matches(id) then 1 else 0)
            + (if r.status == s && r.Matches(id) then 1 else 0)
  {
    var k := |t| - 1;
    if n == k {
      assert t[n := r][..k] == t[..k];
    } else {
      assert t[n := r][..k] == t[..k][n := r];
      CountUpdate(t[..k], id, s, n, r);
    }
  }

  lemma {:induction false} CountPositive(t: Table, id: Identity, s: Status)
    ensures Count(t, id, s) > 0 <==> exists n :: 0 <= n < |t| && t[n].status == s && t[n].Matches(id)
  {
    if t != [] {
      var k := |t| - 1;
      CountPositive(t[..k], id, s);
      if Count(t[..k], id, s) > 0 {
        var n :| 0 <= n < k && t[..k][n].status == s && t[..k][n].Matches(id);
        assert t[n].status == s && t[n].Matches(id);
      }
      if n :| 0 <= n < k && t[n].status == s && t[n].Matches(id) {
        assert t[..k][n].status == s && t[..k][n].Matches(id);
      }
    }
  }

  function KeyOf(id: Identity): Option<string> {
    if id.requestId != "" then Some(id.requestId) else NullIf(id.jobId)
  }

  /** The identity's index key belongs to a settled row, its own or another's. */
  predicate KeyTaken(t: Table, id: Identity) {
    exists m :: 0 <= m < |t| && t[m].status == Settled && t[m].IndexKey() == KeyOf(id)
  }

  /** A settlement settles a row exactly when one is reserved for the identity, the
      values are storable, and no settled row has the identity's index key;
      otherwise it changes nothing. A refused settlement leaves its row reserved. */
  lemma SettleExactly(t: Table, id: Identity, f: Final)
    requires Wellformed(t) && KeyOf(id).Some?
    ensures var (t', answer) := SettleRow(t, id, f);
      && (answer == Done(true) <==> Count(t, id, Reserved) > 0 && !KeyTaken(t, id) && Storable(f))
      && (answer == Failed <==> Count(t, id, Reserved) > 0 && !Storable(f))
      && (answer != Done(true) ==> t' == t)
      && (answer == Done(true) ==>
            && KeyTaken(t', id)
            && Count(t, id, Settled) == 0 && Count(t', id, Settled) == 1
            && Count(t', id, Reserved) == Count(t, id, Reserved) - 1
            && Count(t', id, Released) == Count(t, id, Released))
  {
    CountPositive(t, id, Reserved);
    CountPositive(t, id, Settled);
    match Latest(t, id, |t|)
    case None =>
      forall k | 0 <= k < |t| ensures !(t[k].status == Reserved && t[k].Matches(id)) {
        assert !Candidate(t[k], id);
      }
    case Some(n) =>
      assert t[n].IndexKey() == KeyOf(id);
      var settled := t[n].(status := Settled, final := Some(f));
      assert settled.Matches(id) && t[n := settled][n].IndexKey() == KeyOf(id);
      CountUpdate(t, id, Settled, n, settled);
      CountUpdate(t, id, Reserved, n, settled);
      CountUpdate(t, id, Released, n, settled);
      if Count(t, id, Settled) > 0 {
        var m :| 0 <= m < |t| && t[m].status == Settled && t[m].Matches(id);
        assert t[m].IndexKey() == KeyOf(id);
      }
  }

  lemma TakenStays(t: Table, t': Table, id: Identity)
    requires KeyTaken(t, id) && Evolves(t, t')
    ensures KeyTaken(t', id)
  {
    var m :| 0 <= m < |t| && t[m].status == Settled && t[m].IndexKey() == KeyOf(id);
    assert RowEvolves(t[m], t'[m]);
  }

  /** A release turns one reserved row of the identity into a released one, if
      there is one. */
  lemma ReleaseExactly(t: Table, id: Identity)
    ensures var t' := ReleaseRow(t, id);
      if Count(t, id, Reserved) == 0 then t' == t
      else
        && Count(t', id, Reserved) == Count(t, id, Reserved) - 1
        && Count(t', id, Released) == Count(t, id, Released) + 1
        && Count(t', id, Settled) == Count(t, id, Settled)
  {
    CountPositive(t, id, Reserved);
    match Latest(t, id, |t|)
    case None =>
      forall k | 0 <= k < |t| ensures !(t[k].status == Reserved && t[k].Matches(id)) {
        assert !Candidate(t[k], id);
      }
    case Some(n) =>
      var released := t[n].(status := Released);
      assert released.Matches(id);
      CountUpdate(t, id, Reserved, n, released);
      CountUpdate(t, id, Released, n, released);
      CountUpdate(t, id, Settled, n, released);
  }

  /** The index is on the coalesced key, so identities that share one exclude each
      other: once either is settled, the other never is, whatever runs in between,
      and its settlements answer without error and leave its row reserved. */
  lemma CoalescedKeysCollide(t: Table, ops: seq<Op>, a: Identity, b: Identity, f: Final)
    requires Wellformed(t) && Count(t, a, Settled) > 0
    requires KeyOf(a) == KeyOf(b) && KeyOf(a).Some? && a != b
    ensures var t' := Run(t, ops);
      && Count(t', b, Settled) == 0
      && SettleRow(t', b, f).0 == t'
      && (Storable(f) ==> SettleRow(t', b, f).1 == Done(false))
  {
    var t' := Run(t, ops);
    CountPositive(t, a, Settled);
    var m :| 0 <= m < |t| && t[m].status == Settled && t[m].Matches(a);
    assert t[m].IndexKey() == KeyOf(a);
    RunEvolves(t, ops);
    assert RowEvolves(t[m], t'[m]);
    TakenStays(t, t', b);
    SettleExactly(t', b, f);
    CountPositive(t', b, Settled);
  }

  // ---- Price lookup ----

  datatype CatalogRow = CatalogRow(provider: string, model: string, effectiveFrom: int, price: Cost.Price)

  predicate Applies(c: CatalogRow, provider: string, model: string, at: int) {
    c.provider == provider && c.model == model && c.effectiveFrom <= at
  }

  /** ORDER BY effective_from DESC, price_version DESC. */
  predicate Precedes(a: CatalogRow, b: CatalogRow) {
    a.effectiveFrom > b.effectiveFrom || (a.effectiveFrom == b.effectiveFrom && a.price.version > b.price.version)
  }

  predicate SameModel(a: CatalogRow, b: CatalogRow) {
    a.provider == b.provider && a.model == b.model
  }

  /** PRIMARY KEY (provider, public_model, price_version). */
  predicate CatalogKey(catalog: seq<CatalogRow>) {
    forall i, j :: 0 <= i < j < |catalog| && SameModel(catalog[i], catalog[j]) ==>
      catalog[i].price.version != catalog[j].price.version
  }

  /** p is the price in force. */
  ghost predicate InForce(catalog: seq<CatalogRow>, provider: string, model: string, at: int, p: Option<Cost.Price>) {
    match p
    case None => forall c :: c in catalog ==> !Applies(c, provider, model, at)
    case Some(price) =>
      exists c :: c in catalog && Applies(c, provider, model, at) && c.price == price
        && forall d :: d in catalog && Applies(d, provider, model, at) && d != c ==> Precedes(c, d)
  }

  /** The lookup is a function of the catalog: no two prices are in force. */
  lemma InForceIsUnique(catalog: seq<CatalogRow>, provider: string, model: string, at: int,
                        p: Option<Cost.Price>, q: Option<Cost.Price>)
    requires InForce(catalog, provider, model, at, p) && InForce(catalog, provider, model, at, q)
    ensures p == q
  {
    if p.Some? && q.Some? {
      var c :| c in catalog && Applies(c, provider, model, at) && c.price == p.value
        && forall d :: d in catalog && Applies(d, provider, model, at) && d != c ==> Precedes(c, d);
      var e :| e in catalog && Applies(e, provider, model, at) && e.price == q.value
        && forall d :: d in catalog && Applies(d, provider, model, at) && d != e ==> Precedes(e, d);
      assert !(Precedes(c, e) && Precedes(e, c));
    }
  }

  /** A new catalog row takes over for its provider and model from its own date on, if
      it is newer than every row in force by then, by date and then by version; it
      changes no price of an earlier time, another model or another provider. */
  lemma NewestPriceWins(catalog: seq<CatalogRow>, row: CatalogRow, provider: string, model: string, at: int,
                        p: Option<Cost.Price>)
    requires InForce(catalog, provider, model, at, p)
    ensures row.effectiveFrom > at || row.provider != provider || row.model != model ==>
      InForce(catalog + [row], provider, model, at, p)
    ensures
      && row.effectiveFrom <= at && row.provider == provider && row.model == model
      && (forall d :: d in catalog && d.provider == provider && d.model == model && d.effectiveFrom <= at ==>
            || d.effectiveFrom < row.effectiveFrom
            || (d.effectiveFrom == row.effectiveFrom && d.price.version < row.price.version))
      ==> InForce(catalog + [row], provider, model, at, Some(row.price))
    ensures p.None? <==> forall d ::
      d in catalog ==> d.provider != provider || d.model != model || d.effectiveFrom > at
  {
    assert row in catalog + [row];
    if p.Some? {
      var c :| c in catalog && Applies(c, provider, model, at) && c.price == p.value
        && forall d :: d in catalog && Applies(d, provider, model, at) && d != c ==> Precedes(c, d);
      assert c in catalog + [row];
    }
  }

  method EffectivePrice(catalog: seq<CatalogRow>, provider: string, model: string, at: int)
      returns (p: Option<Cost.Price>)
    requires CatalogKey(catalog)
    ensures InForce(catalog, provider, model, at, p)
  {
    var best: Option<CatalogRow> := None;
    for i := 0 to |catalog|
      invariant best.None? ==> forall c :: c in catalog[..i] ==> !Applies(c, provider, model, at)
      invariant best.Some? ==> best.value in catalog[..i] && Applies(best.value, provider, model, at)
      invariant best.Some? ==> forall d ::
        d in catalog[..i] && Applies(d, provider, model, at) && d != best.value ==> Precedes(best.value, d)
    {
      var c := catalog[i];
      assert catalog[..i + 1] == catalog[..i] + [c];
      if Applies(c, provider, model, at) && (best.None? || Precedes(c, best.value)) {
        best := Some(c);
      }
    }
    assert catalog[..|catalog|] == catalog;
    return if best.None? then None else Some(best.value.price);
  }

  // ---- The object ----

  class LedgerStore {
    var rows: Table
    var catalog: seq<CatalogRow>

    ghost predicate Valid()
      reads this
    {
      Wellformed(rows) && CatalogKey(catalog)
    }

    constructor (catalog: seq<CatalogRow>)
      requires CatalogKey(catalog)
      ensures Valid() && rows == [] && this.catalog == catalog
    {
      rows, this.catalog := [], catalog;
    }

    /** The subselect: scans from the newest row down. */
    method FindLatest(id: Identity) returns (n: Option<nat>)
      ensures n == Latest(rows, id, |rows|)
    {
      var i := |rows|;
      while i > 0
        invariant 0 <= i <= |rows|
        invariant Latest(rows, id, |rows|) == Latest(rows, id, i)
      {
        i := i - 1;
        if Candidate(rows[i], id) {
          return Some(i);
        }
      }
      return None;
    }

    /** fault: the statement failed and nothing was written. */
    method ReserveLedger(id: Identity, subject: string, at: int, fault: bool) returns (ok: bool)
      requires Valid()
      modifies this`rows
      ensures Valid() && ok == !fault
      ensures rows == if fault then old(rows) else InsertReserved(old(rows), id, subject, at)
    {
      if fault {
        return false;
      }
      rows := rows + [Row(NullIf(id.requestId), NullIf(id.jobId), subject, at, Reserved, None)];
      return true;
    }

    method SettleLedger(id: Identity, f: Final, fault: bool) returns (answer: Answer)
      requires Valid()
      modifies this`rows
      ensures Valid()
      ensures (rows, answer) == if fault then (old(rows), Failed) else SettleRow(old(rows), id, f)
    {
      if fault {
        return Failed;
      }
      StepEvolves(rows, Settle(id, f));
      var n := FindLatest(id);
      if n.None? {
        return Done(false);
      }
      if !Storable(f) {
        return Failed;
      }
      var target := rows[n.value];
      for m := 0 to |rows|
        invariant rows == old(rows)
        invariant target.IndexKey().Some? ==> forall k :: 0 <= k < m && k != n.value && rows[k].status == Settled ==>
                    rows[k].IndexKey() != target.IndexKey()
      {
        if m != n.value && rows[m].status == Settled && target.IndexKey().Some?
            && rows[m].IndexKey() == target.IndexKey() {
          return Done(false);
        }
      }
      rows := rows[n.value := target.(status := Settled, final := Some(f))];
      return Done(true);
    }

    method ReleaseLedger(id: Identity, fault: bool) returns (ok: bool)
      requires Valid()
      modifies this`rows
      ensures Valid() && ok == !fault
      ensures rows == if fault then old(rows) else ReleaseRow(old(rows), id)
    {
      if fault {
        return false;
      }
      StepEvolves(rows, Release(id));
      var n := FindLatest(id);
      if n.Some? {
        rows := rows[n.value := rows[n.value].(status := Released)];
      }
      return true;
    }
  }
}

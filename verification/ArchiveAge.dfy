/** How old the rows are that retention deletes (internal/lifecycle/sweeper.go, the
    eligibility SQL of internal/store/pg/lifecycle.go): over runs, on the rows' own
    creation times. */
module ArchiveAge {
  import opened Common
  import opened Archive

  predicate CreatedBefore(db: Db, t: Table, k: Key, cutoff: int) {
    match t
    case Requests => k in db.requests && db.requests[k] < cutoff
    case Results => k in db.results && db.results[k] < cutoff
    case Jobs => k in db.jobs && db.jobs[k].createdAt < cutoff
    case Ledger => k in db.ledger && db.ledger[k].createdAt < cutoff
  }

  /** A row may be taken exactly when it was created before the cutoff, a job also
      has ended and no ledger row refers to it, and a ledger row is final. */
  lemma EligibleExactly(db: Db, t: Table, cutoff: int, k: Key)
    ensures Eligible(db, t, cutoff, k) <==>
      && CreatedBefore(db, t, k, cutoff)
      && (t.Jobs? ==> db.jobs[k].terminal && forall l :: l in db.ledger ==> db.ledger[l].job != Some(k))
      && (t.Ledger? ==> !db.ledger[k].reserved)
  {
    if t.Jobs? && k in db.jobs && Anchored(db, k) {
      var l :| l in db.ledger && db.ledger[l].job == Some(k);
    }
  }

  /** A page is filled with the oldest rows there are: no row left out that could be
      taken is older than one taken, and none is left out unless the page is full. */
  lemma PagesTakeTheOldest(db: Db, t: Table, cutoff: int, limit: nat, ks: seq<Key>, left: Key, age: int)
    requires Selection(db, t, cutoff, limit, ks)
    requires Eligible(db, t, cutoff, left) && left !in ks && CreatedBefore(db, t, left, age)
    ensures |ks| == limit && forall k :: k in ks ==> CreatedBefore(db, t, k, age)
  {
    forall k | k in ks ensures CreatedBefore(db, t, k, age) {
      var i :| 0 <= i < |ks| && ks[i] == k;
      assert Before(db, t, ks[i], left);
    }
  }

  /** Each selected row is on the batch's lines exactly once, and so is each selected
      job's stored result; nothing else is. */
  lemma {:induction false} LinesAreTheRows(db: Db, t: Table, ks: seq<Key>, r: Record)
    requires forall i, j :: 0 <= i < j < |ks| ==> ks[i] != ks[j]
    ensures multiset(BatchOf(db, t, ks).lines)[r]
         == if r.key in ks && (r.table == t || (t.Jobs? && r.table.Results? && r.key in db.results)) then 1 else 0
  {
    if ks != [] {
      var n := |ks| - 1;
      LinesAreTheRows(db, t, ks[..n], r);
      assert ks == ks[..n] + [ks[n]] && ks[n] !in ks[..n];
    }
  }

  // ---- Where a sweeper's batch comes from ----

  lemma {:induction false} RunSnoc(sys: Sys, evs: seq<Event>, ev: Event)
    ensures Run(sys, evs + [ev]) == Step(Run(sys, evs), ev)
    decreases |evs|
  {
    hide Step;
    if evs == [] {
      assert evs + [ev] == [ev];
    } else {
      assert (evs + [ev])[0] == evs[0] && (evs + [ev])[1..] == evs[1..] + [ev];
      RunSnoc(Step(sys, evs[0]), evs[1..], ev);
    }
  }

  /** Event n is legal where it happens. */
  lemma LegalAt(sys: Sys, evs: seq<Event>, n: nat)
    requires Legal(sys, evs) && n < |evs|
    ensures Enabled(Run(sys, evs[..n]), evs[n])
    ensures Run(sys, evs[..n + 1]) == Step(Run(sys, evs[..n]), evs[n])
  {
    hide Enabled, Step;
    LegalPrefix(sys, evs, n);
    assert evs[n..][0] == evs[n];
    assert evs[..n] + [evs[n]] == evs[..n + 1];
    RunSnoc(sys, evs[..n], evs[n]);
  }

  lemma BatchKept(sys: Sys, ev: Event, i: nat)
    requires Enabled(sys, ev) && i < |sys.sweepers| && !Step(sys, ev).sweepers[i].Idle?
    requires !(ev.Select? && ev.i == i)
    ensures !sys.sweepers[i].Idle? && Step(sys, ev).sweepers[i].batch == sys.sweepers[i].batch
  {
    hide Delete, Removed, Selection, BatchOf, Apply, ChangeAllowed;
  }

  lemma SweepersStay(sys: Sys, ev: Event)
    ensures |Step(sys, ev).sweepers| == |sys.sweepers|
  {
    hide Delete, Removed, BatchOf, Apply;
  }

  /** A busy sweeper's batch was read by the selection it last made. */
  lemma {:induction false} SelectedBy(sys: Sys, evs: seq<Event>, n: nat, i: nat) returns (m: nat)
    requires Fresh(sys) && Legal(sys, evs) && n <= |evs|
    requires i < |Run(sys, evs[..n]).sweepers| && !Run(sys, evs[..n]).sweepers[i].Idle?
    ensures m < n && evs[m].Select? && evs[m].i == i
    ensures Run(sys, evs[..n]).sweepers[i].batch == BatchOf(Run(sys, evs[..m]).db, evs[m].table, evs[m].keys)
    decreases n
  {
    assert evs[..0] == [];
    assert Run(sys, evs[..0]) == sys;
    hide Legal, Enabled, Step, BatchOf, Run;
    assert n > 0;
    LegalAt(sys, evs, n - 1);
    var before, ev := Run(sys, evs[..n - 1]), evs[n - 1];
    SweepersStay(before, ev);
    if ev.Select? && ev.i == i {
      SelectReads(before, ev);
      return n - 1;
    }
    BatchKept(before, ev, i);
    m := SelectedBy(sys, evs, n - 1, i);
  }

  lemma SelectReads(sys: Sys, ev: Event)
    requires ev.Select? && ev.i < |sys.sweepers|
    ensures Step(sys, ev).sweepers[ev.i] == Selected(BatchOf(sys.db, ev.table, ev.keys))
  {
    hide BatchOf;
  }

  // ---- Ages ----

  /** The event creates a row under this key. */
  predicate Creates(ev: Event, t: Table, k: Key) {
    ev.Env? && ev.change.key == k &&
    match t
    case Requests => ev.change.NewRequest?
    case Results => ev.change.EndJob? && ev.change.result.Some?
    case Jobs => ev.change.NewJob?
    case Ledger => ev.change.NewLedgerRow?
  }

  /** The row, if it is there, was created before the cutoff. */
  predicate OldIfPresent(db: Db, t: Table, k: Key, cutoff: int) {
    Present(db, t, k) ==> CreatedBefore(db, t, k, cutoff)
  }

  lemma OldStays(sys: Sys, ev: Event, t: Table, k: Key, cutoff: int)
    requires Enabled(sys, ev) && !Creates(ev, t, k) && OldIfPresent(sys.db, t, k, cutoff)
    ensures OldIfPresent(Step(sys, ev).db, t, k, cutoff)
  {
    hide BatchOf, Selection, Removed, DeletedKeys;
  }

  lemma {:induction false} OldUntil(sys: Sys, evs: seq<Event>, m: nat, n: nat, t: Table, k: Key, cutoff: int)
    requires Legal(sys, evs) && m <= n <= |evs| && OldIfPresent(Run(sys, evs[..m]).db, t, k, cutoff)
    requires forall j :: m <= j < n ==> !Creates(evs[j], t, k)
    ensures OldIfPresent(Run(sys, evs[..n]).db, t, k, cutoff)
    decreases n
  {
    hide Legal, Enabled, Step, OldIfPresent;
    if m < n {
      OldUntil(sys, evs, m, n - 1, t, k, cutoff);
      LegalAt(sys, evs, n - 1);
      OldStays(Run(sys, evs[..n - 1]), evs[n - 1], t, k, cutoff);
    }
  }

  /** A job identifier is used once, so no later event creates the job again. */
  lemma {:induction false} JobsAreCreatedOnce(sys: Sys, evs: seq<Event>, m: nat, n: nat, k: Key)
    requires Legal(sys, evs) && m <= n < |evs| && k in Run(sys, evs[..m]).db.used
    ensures k in Run(sys, evs[..n]).db.used && !Creates(evs[n], Jobs, k)
    decreases n
  {
    hide Legal, Enabled, Step;
    if m < n {
      JobsAreCreatedOnce(sys, evs, m, n - 1, k);
      LegalAt(sys, evs, n - 1);
      UsedGrows(Run(sys, evs[..n - 1]), evs[n - 1]);
    }
    LegalAt(sys, evs, n);
    NotReused(Run(sys, evs[..n]), evs[n], k);
  }

  lemma UsedGrows(sys: Sys, ev: Event)
    ensures sys.db.used <= Step(sys, ev).db.used
  {
    hide BatchOf, Removed, DeletedKeys;
  }

  lemma NotReused(sys: Sys, ev: Event, k: Key)
    requires Enabled(sys, ev) && k in sys.db.used
    ensures !Creates(ev, Jobs, k)
  {
  }

  /** Event m is the selection by which the sweeper of event n took row k: the row was
      then created before that selection's cutoff, and so is the row event n meets
      unless its key was created anew in between. */
  ghost predicate TookOldRow(sys: Sys, evs: seq<Event>, m: nat, n: nat, k: Key)
    requires m < n < |evs| && evs[n].Erase?
  {
    && evs[m].Select? && evs[m].i == evs[n].i && k in evs[m].keys
    && CreatedBefore(Run(sys, evs[..m]).db, evs[m].table, k, evs[m].cutoff)
    && (evs[m].table.Jobs? || (forall j :: m < j < n ==> !Creates(evs[j], evs[m].table, k)) ==>
          CreatedBefore(Run(sys, evs[..n]).db, evs[m].table, k, evs[m].cutoff))
  }

  /** Every deleted row is old: in every legal run each row a delete statement removes
      by its own key was read by that sweeper's own selection, of the same table, and
      was then created strictly before the cutoff of that selection; so is the row
      removed, unless its key was created anew in between, which no job's ever is. */
  lemma DeletedRowsAreOld(sys: Sys, evs: seq<Event>, n: nat, k: Key)
    requires Fresh(sys) && Legal(sys, evs) && n < |evs| && evs[n].Erase?
    requires var s := Run(sys, evs[..n]);
      evs[n].i < |s.sweepers| && s.sweepers[evs[n].i].Archived?
      && k in DeletedKeys(s.db, s.sweepers[evs[n].i].batch.table, s.sweepers[evs[n].i].batch.keys)
    ensures exists m ::
              && 0 <= m < n && TookOldRow(sys, evs, m, n, k)
              && evs[m].table == Run(sys, evs[..n]).sweepers[evs[n].i].batch.table
  {
    hide Legal, Step, BatchOf, Run, Creates;
    var m := SelectedBy(sys, evs, n, evs[n].i);
    var before, now := Run(sys, evs[..m]), Run(sys, evs[..n]);
    var t, cutoff := evs[m].table, evs[m].cutoff;
    LegalAt(sys, evs, m);
    BatchCovers(before.db, t, evs[m].keys);
    assert Eligible(before.db, t, cutoff, k);
    EligibleExactly(before.db, t, cutoff, k);
    SelectCreatesNothing(evs[m], t, k);
    if t.Jobs? {
      LegalPrefix(sys, evs, m);
      RunInv(sys, evs[..m]);
      assert KeysHold(before.db) && k in before.db.used;
      forall j | m <= j < n ensures !Creates(evs[j], t, k) {
        JobsAreCreatedOnce(sys, evs, m, j, k);
      }
    }
    if forall j :: m < j < n ==> !Creates(evs[j], t, k) {
      OldUntil(sys, evs, m, n, t, k, cutoff);
    }
    assert TookOldRow(sys, evs, m, n, k);
  }

  lemma SelectCreatesNothing(ev: Event, t: Table, k: Key)
    requires ev.Select?
    ensures !Creates(ev, t, k)
  {
  }
}

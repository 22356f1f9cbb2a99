/** Retention (internal/lifecycle/sweeper.go, sink.go and the eligibility SQL of
    internal/store/pg/lifecycle.go): select, archive, verify, delete, by any number
    of sweepers, with crashes at every point and rows changing underneath. Digests
    are idealised: a digest is the data itself. */
module Archive {
  import opened Common

  datatype Table = Requests | Results | Jobs | Ledger

  /** Primary keys, by rank in the table's order. */
  type Key = nat

  // ---- The database ----

  datatype JobRow = JobRow(createdAt: int, terminal: bool)

  datatype LedgerRow = LedgerRow(createdAt: int, job: Option<Key>, reserved: bool)

  /** used holds every job identifier ever created. */
  datatype Db = Db(requests: map<Key, int>, results: map<Key, int>, jobs: map<Key, JobRow>, ledger: map<Key, LedgerRow>,
                   used: set<Key>)

  /** A ledger row still refers to the job. */
  predicate Anchored(db: Db, job: Key) {
    exists l :: l in db.ledger && db.ledger[l].job == Some(job)
  }

  predicate Present(db: Db, t: Table, k: Key) {
    match t
    case Requests => k in db.requests
    case Results => k in db.results
    case Jobs => k in db.jobs
    case Ledger => k in db.ledger
  }

  function CreatedAt(db: Db, t: Table, k: Key): int
    requires Present(db, t, k)
  {
    match t
    case Requests => db.requests[k]
    case Results => db.results[k]
    case Jobs => db.jobs[k].createdAt
    case Ledger => db.ledger[k].createdAt
  }

  /** What the delete statement checks again, age aside. */
  predicate Deletable(db: Db, t: Table, k: Key) {
    && Present(db, t, k)
    && (t.Jobs? ==> db.jobs[k].terminal && !Anchored(db, k))
    && (t.Ledger? ==> !db.ledger[k].reserved)
  }

  /** What counting and selection require. */
  predicate Eligible(db: Db, t: Table, cutoff: int, k: Key) {
    Deletable(db, t, k) && CreatedAt(db, t, k) < cutoff
  }

  predicate Before(db: Db, t: Table, a: Key, b: Key) {
    && Present(db, t, a) && Present(db, t, b)
    && (CreatedAt(db, t, a) < CreatedAt(db, t, b) || (CreatedAt(db, t, a) == CreatedAt(db, t, b) && a < b))
  }

  /** ks are the first limit eligible rows, by creation time and key. */
  ghost predicate Selection(db: Db, t: Table, cutoff: int, limit: nat, ks: seq<Key>) {
    && |ks| <= limit
    && (forall k :: k in ks ==> Eligible(db, t, cutoff, k))
    && (forall i, j :: 0 <= i < j < |ks| ==> Before(db, t, ks[i], ks[j]))
    && (forall k :: Eligible(db, t, cutoff, k) && k !in ks ==>
          |ks| == limit && forall i :: 0 <= i < |ks| ==> Before(db, t, ks[i], k))
  }

  // ---- Batches ----

  datatype Record = Record(table: Table, key: Key)

  /** A job's stored result rides in the job's batch, under the job's key. */
  datatype Batch = Batch(table: Table, lines: seq<Record>, keys: seq<Key>)

  function Append(b: Batch, kind: Table, k: Key): Batch {
    b.(lines := b.lines + [Record(kind, k)], keys := b.keys + [k])
  }

  function BatchOf(db: Db, t: Table, ks: seq<Key>): Batch {
    if ks == [] then Batch(t, [], [])
    else
      var k := ks[|ks| - 1];
      var b := Append(BatchOf(db, t, ks[..|ks| - 1]), t, k);
      if t.Jobs? && k in db.results then Append(b, Results, k) else b
  }

  function DeletedKeys(db: Db, t: Table, keys: seq<Key>): set<Key> {
    set k | k in keys && Deletable(db, t, k)
  }

  /** The delete statement; a job takes its result row along. */
  function Delete(db: Db, t: Table, keys: seq<Key>): Db {
    var gone := DeletedKeys(db, t, keys);
    match t
    case Requests => db.(requests := db.requests - gone)
    case Results => db.(results := db.results - gone)
    case Jobs => db.(jobs := db.jobs - gone, results := db.results - gone)
    case Ledger => db.(ledger := db.ledger - gone)
  }

  // ---- The archive directory ----

  datatype Manifest = Manifest(table: Table, rows: nat, digest: seq<Record>, complete: bool)

  type Id = string

  /** Published data files and manifests; temporary files are never read. */
  datatype Fs = Fs(data: map<Id, seq<Record>>, manifests: map<Id, Manifest>)

  // ---- Sweepers ----

  /** Where one sweeper stands with one batch. */
  datatype Pc =
    | Idle
    | Selected(batch: Batch)                 // read from the database
    | Staged(batch: Batch, id: Id)           // temporary data file written and synced
    | Published(batch: Batch, id: Id)        // data file renamed into place
    | Checked(batch: Batch, id: Id)          // read back and compared
    | Archived(batch: Batch, id: Id)         // manifest renamed into place

  datatype Sys = Sys(db: Db, fs: Fs, sweepers: seq<Pc>, names: set<Id>, deleted: set<Record>)

  datatype Change =
    | NewRequest(key: Key, at: int)
    | NewJob(key: Key, at: int)
    | EndJob(key: Key, result: Option<int>)                 // terminal transition, with its result row
    | DropResult(key: Key)                                  // result expiry
    | NewLedgerRow(key: Key, job: Option<Key>, at: int)     // reserved
    | FinalizeLedgerRow(key: Key)                           // settled or released

  datatype Event =
    | Env(change: Change)
    | Select(i: nat, table: Table, cutoff: int, limit: nat, keys: seq<Key>)
    | Stage(i: nat, id: Id)
    | Publish(i: nat, stored: seq<Record>)                  // what storage really holds afterwards
    | Check(i: nat)
    | Mark(i: nat)                                          // the manifest's rename
    | Abort(i: nat)                                         // a failed write removes its data file
    | Erase(i: nat)
    | Crash(i: nat)

  predicate ChangeAllowed(db: Db, c: Change) {
    match c
    case NewRequest(k, _) => k !in db.requests
    case NewJob(k, _) => k !in db.used
    case EndJob(k, _) => k in db.jobs && !db.jobs[k].terminal
    case DropResult(_) => true
    case NewLedgerRow(k, job, _) => k !in db.ledger && (job.Some? ==> job.value in db.jobs)
    case FinalizeLedgerRow(k) => k in db.ledger
  }

  function Apply(db: Db, c: Change): Db {
    match c
    case NewRequest(k, at) => db.(requests := db.requests[k := at])
    case NewJob(k, at) => db.(jobs := db.jobs[k := JobRow(at, false)], used := db.used + {k})
    case EndJob(k, result) =>
      if k !in db.jobs then db
      else
        db.(jobs := db.jobs[k := db.jobs[k].(terminal := true)],
            results := if result.Some? then db.results[k := result.value] else db.results)
    case DropResult(k) => db.(results := db.results - {k})
    case NewLedgerRow(k, job, at) => db.(ledger := db.ledger[k := LedgerRow(at, job, true)])
    case FinalizeLedgerRow(k) =>
      if k !in db.ledger then db else db.(ledger := db.ledger[k := db.ledger[k].(reserved := false)])
  }

  predicate HasArtifact(pc: Pc) {
    pc.Staged? || pc.Published? || pc.Checked? || pc.Archived?
  }

  predicate At(sys: Sys, i: nat) {
    i < |sys.sweepers|
  }

  ghost predicate Enabled(sys: Sys, ev: Event) {
    match ev
    case Env(c) => ChangeAllowed(sys.db, c)
    case Select(i, t, cutoff, limit, ks) =>
      At(sys, i) && sys.sweepers[i].Idle? && ks != [] && Selection(sys.db, t, cutoff, limit, ks)
    case Stage(i, id) => At(sys, i) && sys.sweepers[i].Selected? && id !in sys.names
    case Publish(i, _) => At(sys, i) && sys.sweepers[i].Staged?
    case Check(i) => At(sys, i) && sys.sweepers[i].Published?
    case Mark(i) => At(sys, i) && sys.sweepers[i].Checked?
    case Abort(i) => At(sys, i) && HasArtifact(sys.sweepers[i]) && !sys.sweepers[i].Archived?
    case Erase(i) => At(sys, i) && sys.sweepers[i].Archived?
    case Crash(i) => At(sys, i)
  }

  function To(sys: Sys, i: nat, pc: Pc): Sys
    requires At(sys, i)
  {
    sys.(sweepers := sys.sweepers[i := pc])
  }

  /** The records a delete statement removes, the cascade included. */
  function Removed(db: Db, b: Batch): set<Record> {
    (set k | k in DeletedKeys(db, b.table, b.keys) :: Record(b.table, k))
    + (if b.table.Jobs? then set k | k in DeletedKeys(db, b.table, b.keys) && k in db.results :: Record(Results, k)
       else {})
  }

  function Step(sys: Sys, ev: Event): Sys {
    match ev
    case Env(c) => sys.(db := Apply(sys.db, c))
    case Select(i, t, cutoff, limit, ks) => if At(sys, i) then To(sys, i, Selected(BatchOf(sys.db, t, ks))) else sys
    case Stage(i, id) =>
      if At(sys, i) && sys.sweepers[i].Selected? then
        To(sys, i, Staged(sys.sweepers[i].batch, id)).(names := sys.names + {id})
      else sys
    case Publish(i, stored) =>
      if At(sys, i) && sys.sweepers[i].Staged? then
        To(sys, i, Published(sys.sweepers[i].batch, sys.sweepers[i].id))
          .(fs := sys.fs.(data := sys.fs.data[sys.sweepers[i].id := stored]))
      else sys
    case Check(i) =>
      if At(sys, i) && sys.sweepers[i].Published? then
        var pc := sys.sweepers[i];
        if pc.id in sys.fs.data && sys.fs.data[pc.id] == pc.batch.lines then To(sys, i, Checked(pc.batch, pc.id))
        else To(sys, i, Idle).(fs := sys.fs.(data := sys.fs.data - {pc.id}))
      else sys
    case Mark(i) =>
      if At(sys, i) && sys.sweepers[i].Checked? then
        var pc := sys.sweepers[i];
        var manifest := Manifest(pc.batch.table, |pc.batch.lines|, pc.batch.lines, true);
        To(sys, i, Archived(pc.batch, pc.id)).(fs := sys.fs.(manifests := sys.fs.manifests[pc.id := manifest]))
      else sys
    case Abort(i) =>
      if At(sys, i) && HasArtifact(sys.sweepers[i]) then
        To(sys, i, Idle).(fs := sys.fs.(data := sys.fs.data - {sys.sweepers[i].id}))
      else sys
    case Erase(i) =>
      if At(sys, i) && sys.sweepers[i].Archived? then
        var b := sys.sweepers[i].batch;
        To(sys, i, Idle).(db := Delete(sys.db, b.table, b.keys), deleted := sys.deleted + Removed(sys.db, b))
      else sys
    case Crash(i) => if At(sys, i) then To(sys, i, Idle) else sys
  }

  ghost predicate Legal(sys: Sys, evs: seq<Event>)
    decreases |evs|
  {
    evs == [] || (Enabled(sys, evs[0]) && Legal(Step(sys, evs[0]), evs[1..]))
  }

  function Run(sys: Sys, evs: seq<Event>): Sys
    decreases |evs|
  {
    if evs == [] then sys else Run(Step(sys, evs[0]), evs[1..])
  }

  // ---- Invariant ----

  /** A manifest on disk implies its full, matching data file. */
  predicate ManifestsSound(fs: Fs) {
    forall id :: id in fs.manifests ==> Backed(fs, id)
  }

  predicate Backed(fs: Fs, id: Id)
    requires id in fs.manifests
  {
    var m := fs.manifests[id];
    m.complete && id in fs.data && fs.data[id] == m.digest && m.rows == |m.digest|
  }

  /** Whatever deleting the batch can remove is on its lines. */
  predicate Covers(db: Db, b: Batch) {
    && (forall k :: k in b.keys ==> Record(b.table, k) in b.lines)
    && (b.table.Jobs? ==> forall k :: k in b.keys ==> CoversJob(db, b, k))
  }

  predicate CoversJob(db: Db, b: Batch, k: Key) {
    && k in db.used
    && (k in db.jobs ==> db.jobs[k].terminal && (k in db.results ==> Record(Results, k) in b.lines))
  }

  predicate PcSound(sys: Sys, pc: Pc) {
    && (!pc.Idle? ==> Covers(sys.db, pc.batch))
    && (HasArtifact(pc) ==> pc.id in sys.names)
    && (HasArtifact(pc) && !pc.Archived? ==> pc.id !in sys.fs.manifests)
    && (pc.Checked? ==> pc.id in sys.fs.data && sys.fs.data[pc.id] == pc.batch.lines)
    && (pc.Archived? ==> pc.id in sys.fs.manifests && sys.fs.manifests[pc.id].digest == pc.batch.lines)
  }

  predicate AllSound(sys: Sys) {
    forall i :: 0 <= i < |sys.sweepers| ==> PcSound(sys, sys.sweepers[i])
  }

  /** No two sweepers write the same artifact. */
  predicate Separate(ps: seq<Pc>) {
    forall i, j :: 0 <= i < j < |ps| && HasArtifact(ps[i]) && HasArtifact(ps[j]) ==> ps[i].id != ps[j].id
  }

  predicate NamesKnown(sys: Sys) {
    (forall id :: id in sys.fs.data ==> id in sys.names) && (forall id :: id in sys.fs.manifests ==> id in sys.names)
  }

  predicate InArchive(fs: Fs, r: Record) {
    exists id :: id in fs.manifests && r in fs.manifests[id].digest
  }

  predicate DeletedArchived(sys: Sys) {
    forall r :: r in sys.deleted ==> InArchive(sys.fs, r)
  }

  /** Foreign keys: results and ledger rows refer to existing jobs, jobs to used
      identifiers. */
  predicate KeysHold(db: Db) {
    && (forall k :: k in db.jobs ==> k in db.used)
    && (forall k :: k in db.results ==> k in db.jobs)
    && (forall l :: l in db.ledger && db.ledger[l].job.Some? ==> db.ledger[l].job.value in db.jobs)
  }

  predicate Inv(sys: Sys) {
    && ManifestsSound(sys.fs) && AllSound(sys) && Separate(sys.sweepers) && NamesKnown(sys)
    && DeletedArchived(sys) && KeysHold(sys.db)
  }

  // ---- Preservation ----

  lemma {:induction false} BatchCovers(db: Db, t: Table, ks: seq<Key>)
    ensures var b := BatchOf(db, t, ks);
      && b.table == t
      && (forall k :: k in b.keys <==> k in ks)
      && (forall k :: k in ks ==>
        Record(t, k) in b.lines && (t.Jobs? && k in db.results ==> Record(Results, k) in b.lines))
      && (forall r :: r in b.lines ==> r.key in ks)
  {
    if ks != [] {
      var n := |ks| - 1;
      BatchCovers(db, t, ks[..n]);
      assert ks == ks[..n] + [ks[n]];
    }
  }

  /** Rows changing underneath never invalidate a batch: a terminal job gains no
      result and an identifier is never reused. */
  lemma EnvKeepsCovers(db: Db, c: Change, b: Batch)
    requires ChangeAllowed(db, c) && Covers(db, b)
    ensures Covers(Apply(db, c), b)
  {
    forall k | k in b.keys && b.table.Jobs? ensures CoversJob(Apply(db, c), b, k) {
      assert CoversJob(db, b, k);
    }
  }

  lemma EnvKeepsKeys(db: Db, c: Change)
    requires ChangeAllowed(db, c) && KeysHold(db)
    ensures KeysHold(Apply(db, c))
  {
  }

  lemma DeleteKeepsCovers(db: Db, t: Table, keys: seq<Key>, b: Batch)
    requires Covers(db, b)
    ensures Covers(Delete(db, t, keys), b)
  {
    forall k | k in b.keys && b.table.Jobs? ensures CoversJob(Delete(db, t, keys), b, k) {
      assert CoversJob(db, b, k);
    }
  }

  lemma DeleteKeepsKeys(db: Db, t: Table, keys: seq<Key>)
    requires KeysHold(db)
    ensures KeysHold(Delete(db, t, keys))
  {
    var gone := DeletedKeys(db, t, keys);
    if t.Jobs? {
      forall l | l in db.ledger && db.ledger[l].job.Some? ensures db.ledger[l].job.value !in gone {
        assert db.ledger[l].job == Some(db.ledger[l].job.value);
      }
    }
  }

  lemma RemovedAreArchived(sys: Sys, i: nat)
    requires Inv(sys) && At(sys, i) && sys.sweepers[i].Archived?
    ensures forall r :: r in Removed(sys.db, sys.sweepers[i].batch) ==> InArchive(sys.fs, r)
  {
    var pc := sys.sweepers[i];
    assert PcSound(sys, pc);
    forall r | r in Removed(sys.db, pc.batch) ensures InArchive(sys.fs, r) {
      assert pc.batch.table.Jobs? ==> CoversJob(sys.db, pc.batch, r.key);
      assert r in pc.batch.lines;
    }
  }

  /** Changing one sweeper and adding artifacts of its own keeps the others sound. */
  lemma OthersSound(sys: Sys, sys': Sys, i: nat)
    requires AllSound(sys) && Separate(sys.sweepers) && At(sys, i) && sys'.db == sys.db && sys.names <= sys'.names
    requires |sys'.sweepers| == |sys.sweepers| && sys'.sweepers == sys.sweepers[i := sys'.sweepers[i]]
    requires PcSound(sys', sys'.sweepers[i])
    requires HasArtifact(sys'.sweepers[i]) ==>
      (HasArtifact(sys.sweepers[i]) && sys'.sweepers[i].id == sys.sweepers[i].id) || sys'.sweepers[i].id !in sys.names
    requires forall id :: id in sys.fs.manifests ==>
      id in sys'.fs.manifests && sys'.fs.manifests[id] == sys.fs.manifests[id]
    requires forall id :: id in sys'.fs.manifests && id !in sys.fs.manifests ==>
      HasArtifact(sys.sweepers[i]) && id == sys.sweepers[i].id
    requires forall id :: !(HasArtifact(sys.sweepers[i]) && id == sys.sweepers[i].id) && id in sys.fs.data ==>
      id in sys'.fs.data && sys'.fs.data[id] == sys.fs.data[id]
    ensures AllSound(sys') && Separate(sys'.sweepers)
  {
    forall j | 0 <= j < |sys'.sweepers| ensures PcSound(sys', sys'.sweepers[j]) {
      if j != i {
        assert PcSound(sys, sys.sweepers[j]);
      }
    }
    forall j | 0 <= j < |sys'.sweepers| && j != i && HasArtifact(sys'.sweepers[j]) && HasArtifact(sys'.sweepers[i])
      ensures sys'.sweepers[j].id != sys'.sweepers[i].id
    {
      assert PcSound(sys, sys.sweepers[j]);
    }
  }

  /** A sweeper's own events, up to the manifest. */
  lemma WriteStepInv(sys: Sys, ev: Event)
    requires Inv(sys) && Enabled(sys, ev) && !ev.Env? && !ev.Erase?
    ensures Inv(Step(sys, ev))
  {
    var sys' := Step(sys, ev);
    var i := ev.i;
    assert PcSound(sys, sys.sweepers[i]);
    match ev {
      case Select(_, t, cutoff, limit, ks) =>
        BatchCovers(sys.db, t, ks);
        forall k | k in BatchOf(sys.db, t, ks).keys && t.Jobs? ensures CoversJob(sys.db, BatchOf(sys.db, t, ks), k) {
          assert Eligible(sys.db, t, cutoff, k);
        }
      case _ =>
    }
    assert PcSound(sys', sys'.sweepers[i]);
    hide Covers, BatchOf, KeysHold, Selection, PcSound, Backed, InArchive;
    ArchiveOnlyGrows(sys, ev);
    OthersSound(sys, sys', i);
  }

  /** No event of a sweeper touches a completed artifact. */
  lemma ArchiveOnlyGrows(sys: Sys, ev: Event)
    requires ManifestsSound(sys.fs) && AllSound(sys) && NamesKnown(sys) && DeletedArchived(sys)
    requires Enabled(sys, ev) && !ev.Env? && !ev.Erase?
    ensures var sys' := Step(sys, ev);
      && ManifestsSound(sys'.fs) && NamesKnown(sys') && DeletedArchived(sys')
  {
    var sys' := Step(sys, ev);
    assert PcSound(sys, sys.sweepers[ev.i]);
    hide Covers, BatchOf, Selection;
    forall id | id in sys'.fs.manifests ensures Backed(sys'.fs, id) {
      if id in sys.fs.manifests {
        assert Backed(sys.fs, id);
      }
    }
    forall r | r in sys'.deleted ensures InArchive(sys'.fs, r) {
      assert InArchive(sys.fs, r);
      var id :| id in sys.fs.manifests && r in sys.fs.manifests[id].digest;
      assert id in sys'.fs.manifests && r in sys'.fs.manifests[id].digest;
    }
  }

  lemma DbStepInv(sys: Sys, ev: Event)
    requires Inv(sys) && Enabled(sys, ev) && (ev.Env? || ev.Erase?)
    ensures Inv(Step(sys, ev))
  {
    var sys' := Step(sys, ev);
    match ev {
      case Env(c) => EnvKeepsKeys(sys.db, c);
      case Erase(i) =>
        DeleteKeepsKeys(sys.db, sys.sweepers[i].batch.table, sys.sweepers[i].batch.keys);
        RemovedAreArchived(sys, i);
    }
    hide Covers, KeysHold, Apply, Delete, Removed, InArchive;
    forall j | 0 <= j < |sys'.sweepers| ensures PcSound(sys', sys'.sweepers[j]) {
      assert PcSound(sys, sys.sweepers[j]);
      if !sys.sweepers[j].Idle? {
        if ev.Env? {
          EnvKeepsCovers(sys.db, ev.change, sys.sweepers[j].batch);
        } else {
          DeleteKeepsCovers(sys.db, sys.sweepers[ev.i].batch.table, sys.sweepers[ev.i].batch.keys,
                            sys.sweepers[j].batch);
        }
      }
    }
  }

  lemma StepInv(sys: Sys, ev: Event)
    requires Inv(sys) && Enabled(sys, ev)
    ensures Inv(Step(sys, ev))
  {
    if ev.Env? || ev.Erase? {
      DbStepInv(sys, ev);
    } else {
      WriteStepInv(sys, ev);
    }
  }

  lemma {:induction false} RunInv(sys: Sys, evs: seq<Event>)
    requires Inv(sys) && Legal(sys, evs)
    ensures Inv(Run(sys, evs))
    decreases |evs|
  {
    if evs != [] {
      StepInv(sys, evs[0]);
      hide Inv, Step, Enabled;
      RunInv(Step(sys, evs[0]), evs[1..]);
    }
  }

  // ---- Theorems ----

  /** A fresh deployment: n idle sweepers over any consistent database. */
  predicate Fresh(sys: Sys) {
    && sys.fs == Fs(map[], map[]) && sys.names == {} && sys.deleted == {} && KeysHold(sys.db)
    && forall i :: 0 <= i < |sys.sweepers| ==> sys.sweepers[i].Idle?
  }

  /** Archive before delete, in every run: any number of sweepers, crashes between
      any two steps, failed and corrupted writes, rows changing at any moment. Every
      row ever deleted, results removed by a job's cascade included, is on a line of
      a published data file whose complete manifest matches it. */
  lemma ArchivedBeforeDeleted(sys: Sys, evs: seq<Event>, r: Record)
    requires Fresh(sys) && Legal(sys, evs) && r in Run(sys, evs).deleted
    ensures var fs := Run(sys, evs).fs;
      exists id :: id in fs.manifests && fs.manifests[id].complete && id in fs.data
                   && fs.data[id] == fs.manifests[id].digest && |fs.data[id]| == fs.manifests[id].rows
                       && r in fs.data[id]
  {
    RunInv(sys, evs);
    var fs := Run(sys, evs).fs;
    assert InArchive(fs, r);
    var id :| id in fs.manifests && r in fs.manifests[id].digest;
    assert Backed(fs, id);
  }

  /** At every crash point a manifest on disk implies its full data file: the state
      after any prefix of any run is such a point. */
  lemma ManifestImpliesData(sys: Sys, evs: seq<Event>, id: Id)
    requires Fresh(sys) && Legal(sys, evs) && id in Run(sys, evs).fs.manifests
    ensures Backed(Run(sys, evs).fs, id)
  {
    RunInv(sys, evs);
  }

  // ---- Power loss ----

  lemma {:induction false} LegalPrefix(sys: Sys, evs: seq<Event>, n: nat)
    requires Legal(sys, evs) && n <= |evs|
    ensures Legal(sys, evs[..n]) && Legal(Run(sys, evs[..n]), evs[n..])
    ensures Run(sys, evs) == Run(Run(sys, evs[..n]), evs[n..])
    decreases n
  {
    hide Enabled, Step;
    if n == 0 {
      assert evs[n..] == evs;
    } else {
      LegalPrefix(Step(sys, evs[0]), evs[1..], n - 1);
      assert evs[..n][1..] == evs[1..][..n - 1] && evs[n..] == evs[1..][n - 1..];
    }
  }

  /** The sink syncs its files but never their directory. After a power loss the
      directory may hold any of the entries written so far, data files in any state,
      while the database keeps every delete it committed. */
  predicate Survives(fs: Fs, full: Fs) {
    forall id :: id in fs.manifests ==> id in full.manifests && fs.manifests[id] == full.manifests[id]
  }

  predicate Whole(fs: Fs, id: Id) {
    id in fs.manifests && Backed(fs, id)
  }

  predicate Retrievable(fs: Fs, r: Record) {
    exists id :: id in fs.manifests && Backed(fs, id) && r in fs.manifests[id].digest
  }

  /** A delete is safe for a directory that holds its batch's archive, or otherwise
      every row it removes. */
  predicate SafeErase(fs: Fs, sys: Sys, ev: Event) {
    ev.Erase? && At(sys, ev.i) && sys.sweepers[ev.i].Archived? ==>
      || Whole(fs, sys.sweepers[ev.i].id)
      || forall r :: r in Removed(sys.db, sys.sweepers[ev.i].batch) ==> Retrievable(fs, r)
  }

  /** Every delete of a run is. */
  predicate SafeFrom(fs: Fs, sys: Sys, evs: seq<Event>)
    decreases |evs|
  {
    evs == [] || (SafeErase(fs, sys, evs[0]) && SafeFrom(fs, Step(sys, evs[0]), evs[1..]))
  }

  lemma StepKeepsManifests(sys: Sys, ev: Event)
    requires Inv(sys) && Enabled(sys, ev)
    ensures Survives(sys.fs, Step(sys, ev).fs)
    ensures sys.deleted <= Step(sys, ev).deleted
  {
    if ev.Mark? {
      assert PcSound(sys, sys.sweepers[ev.i]);
    }
    hide Covers, BatchOf, Apply, Delete, Removed, Selection, KeysHold;
  }

  /** Manifests once on disk stay, and what is deleted stays deleted. */
  lemma {:induction false} RunKeepsManifests(sys: Sys, evs: seq<Event>)
    requires Inv(sys) && Legal(sys, evs)
    ensures Survives(sys.fs, Run(sys, evs).fs)
    ensures sys.deleted <= Run(sys, evs).deleted
    decreases |evs|
  {
    if evs != [] {
      StepInv(sys, evs[0]);
      StepKeepsManifests(sys, evs[0]);
      hide Inv, Step, Enabled;
      RunKeepsManifests(Step(sys, evs[0]), evs[1..]);
    }
  }

  /** What one delete adds, against a directory that is part of a later one. */
  lemma EraseRetrievable(sys: Sys, ev: Event, fs: Fs, full: Fs)
    requires Inv(sys) && Enabled(sys, ev) && Survives(fs, full) && Survives(sys.fs, full)
    requires forall r :: r in sys.deleted ==> Retrievable(fs, r)
    ensures (forall r :: r in Step(sys, ev).deleted ==> Retrievable(fs, r)) <==> SafeErase(fs, sys, ev)
  {
    if ev.Erase? {
      var pc := sys.sweepers[ev.i];
      assert PcSound(sys, pc);
      assert Step(sys, ev).deleted == sys.deleted + Removed(sys.db, pc.batch);
      if Whole(fs, pc.id) {
        forall r | r in Removed(sys.db, pc.batch) ensures Retrievable(fs, r) {
          assert pc.batch.table.Jobs? ==> CoversJob(sys.db, pc.batch, r.key);
          assert r in pc.batch.lines && r in fs.manifests[pc.id].digest;
        }
      }
    } else {
      assert Step(sys, ev).deleted == sys.deleted by {
        hide BatchOf, Apply;
      }
    }
    hide Step, Removed, Inv, Enabled, Whole;
  }

  /** From a state whose deleted rows are all in the directory, the rows deleted by
      the end are too, if and only if every delete on the way is safe for it. */
  lemma {:induction false} SafeIff(sys: Sys, evs: seq<Event>, fs: Fs)
    requires Inv(sys) && Legal(sys, evs) && Survives(fs, Run(sys, evs).fs)
    requires forall r :: r in sys.deleted ==> Retrievable(fs, r)
    ensures (forall r :: r in Run(sys, evs).deleted ==> Retrievable(fs, r)) <==> SafeFrom(fs, sys, evs)
    decreases |evs|
  {
    if evs != [] {
      var sys' := Step(sys, evs[0]);
      StepInv(sys, evs[0]);
      RunKeepsManifests(sys, evs);
      EraseRetrievable(sys, evs[0], fs, Run(sys, evs).fs);
      RunKeepsManifests(sys', evs[1..]);
      hide Inv, Step, Enabled, SafeErase, Survives, Retrievable;
      if SafeErase(fs, sys, evs[0]) {
        SafeIff(sys', evs[1..], fs);
      }
    }
  }

  /** Any power loss, entries lost in any order: every row deleted by then is still
      in a surviving, complete archive with its data, if and only if each delete of
      the run had its own batch's archive survive, or every row it removed survive in
      another one. */
  lemma PowerLossIff(sys: Sys, evs: seq<Event>, fs: Fs)
    requires Fresh(sys) && Legal(sys, evs) && Survives(fs, Run(sys, evs).fs)
    ensures (forall r :: r in Run(sys, evs).deleted ==> Retrievable(fs, r)) <==> SafeFrom(fs, sys, evs)
  {
    SafeIff(sys, evs, fs);
  }

  /** A power loss that brings the directory back as it was at moment n: manifests
      still imply their data, and only the deletes after that moment matter. A delete
      whose manifest was already in place then is safe. */
  lemma RollbackIff(sys: Sys, evs: seq<Event>, n: nat)
    requires Fresh(sys) && Legal(sys, evs) && n <= |evs|
    ensures var fs := Run(sys, evs[..n]).fs;
      && ManifestsSound(fs)
      && ((forall r :: r in Run(sys, evs).deleted ==> Retrievable(fs, r))
          <==> SafeFrom(fs, Run(sys, evs[..n]), evs[n..]))
  {
    LegalPrefix(sys, evs, n);
    RunInv(sys, evs[..n]);
    var mid := Run(sys, evs[..n]);
    RunKeepsManifests(mid, evs[n..]);
    forall r | r in mid.deleted ensures Retrievable(mid.fs, r) {
      assert InArchive(mid.fs, r);
      var id :| id in mid.fs.manifests && r in mid.fs.manifests[id].digest;
      assert Whole(mid.fs, id);
    }
    hide Run, Legal, Fresh, Retrievable;
    SafeIff(mid, evs[n..], mid.fs);
  }

  // ---- What survives ----

  predicate Protected(db: Db, t: Table, k: Key) {
    || (t.Jobs? && k in db.jobs && (!db.jobs[k].terminal || Anchored(db, k)))
    || (t.Ledger? && k in db.ledger && db.ledger[k].reserved)
  }

  /** No event deletes a queued, running or ledger-anchored job, or a reserved
      ledger row; nor does deleting anything leave a dangling reference. */
  lemma NothingLiveIsDeleted(sys: Sys, ev: Event, t: Table, k: Key)
    requires Inv(sys) && Enabled(sys, ev) && Protected(sys.db, t, k)
    ensures Present(Step(sys, ev).db, t, k)
    ensures Record(t, k) in Step(sys, ev).deleted ==> Record(t, k) in sys.deleted
    ensures KeysHold(Step(sys, ev).db)
  {
    hide BatchOf, Selection, Covers, KeysHold, Backed, AllSound, Separate, DeletedArchived, InArchive;
    StepInv(sys, ev);
  }

  predicate EndsProtection(ev: Event, t: Table, k: Key) {
    ev.Env? && ((t.Jobs? && ev.change.EndJob? && ev.change.key == k)
                || (t.Ledger? && ev.change.FinalizeLedgerRow? && ev.change.key == k))
  }

  /** So a job that stays live, or a ledger row that stays reserved, survives every
      run, whatever its age. */
  lemma {:induction false} LiveRowsSurvive(sys: Sys, evs: seq<Event>, t: Table, k: Key)
    requires Inv(sys) && Legal(sys, evs)
    requires (t.Jobs? && k in sys.db.jobs && !sys.db.jobs[k].terminal)
        || (t.Ledger? && k in sys.db.ledger && sys.db.ledger[k].reserved)
    requires forall ev :: ev in evs ==> !EndsProtection(ev, t, k)
    ensures var db := Run(sys, evs).db;
      (t.Jobs? && k in db.jobs && !db.jobs[k].terminal) || (t.Ledger? && k in db.ledger && db.ledger[k].reserved)
    decreases |evs|
  {
    if evs != [] {
      assert evs[0] in evs;
      StepInv(sys, evs[0]);
      NothingLiveIsDeleted(sys, evs[0], t, k);
      hide Inv, Enabled, BatchOf, Removed;
      LiveRowsSurvive(Step(sys, evs[0]), evs[1..], t, k);
    }
  }

  /** An undisturbed batch drains exactly what it selected: afterwards the eligible
      rows are the old ones without the first limit of them, so repeated batches
      converge. (For ledger rows the jobs they anchored become eligible later.) */
  lemma BatchDrains(db: Db, t: Table, cutoff: int, limit: nat, ks: seq<Key>, k: Key)
    requires KeysHold(db) && Selection(db, t, cutoff, limit, ks)
    ensures Eligible(Delete(db, t, BatchOf(db, t, ks).keys), t, cutoff, k) <==> Eligible(db, t, cutoff, k) && k !in ks
  {
    BatchCovers(db, t, ks);
    var db' := Delete(db, t, BatchOf(db, t, ks).keys);
    if k in ks {
      assert Eligible(db, t, cutoff, k);
    }
    hide BatchOf, Selection;
  }

  /** Archive names must be fresh. A second write under the name of a completed
      artifact replaces the data file its manifest vouches for, and a failure of
      that write removes it. */
  lemma ReusedNameBreaksArchive(db: Db, id: Id, r: Record, b: Batch)
    requires KeysHold(db) && b.lines != [r] && Covers(db, b)
    ensures var fs := Fs(map[id := [r]], map[id := Manifest(r.table, 1, [r], true)]);
      var sys := Sys(db, fs, [Staged(b, id)], {id}, {});
      && ManifestsSound(sys.fs)
      && !ManifestsSound(Step(sys, Publish(0, b.lines)).fs)
      && !ManifestsSound(Step(sys, Abort(0)).fs)
  {
    var fs := Fs(map[id := [r]], map[id := Manifest(r.table, 1, [r], true)]);
    var sys := Sys(db, fs, [Staged(b, id)], {id}, {});
    assert !Backed(Step(sys, Publish(0, b.lines)).fs, id);
    assert !Backed(Step(sys, Abort(0)).fs, id);
    hide Covers, KeysHold;
  }
}

/** The retention loop and the filesystem sink as step-by-step code
    (internal/lifecycle/sweeper.go, sink.go), proved to be legal runs of the archive
    machine, so everything proved of those runs holds of this code. */
module RetentionSweeper {
  import opened Common
  import opened Archive

  /** How the file operations of one write turn out. stored is what storage really
      holds after the data file was published. */
  datatype Io = Io(mkdir: bool, dataWritten: bool, stored: seq<Record>, readBack: bool, manifestWritten: bool,
                   removes: bool)

  /** What one batch meets; changes are other transactions that commit in between. */
  datatype Turn = Turn(cancelled: bool, beforeSelect: seq<Change>, selectFails: bool, id: Id, io: Io,
                       beforeDelete: seq<Change>, deleteFails: bool)

  /** An absent policy keeps rows for ever, a disabled one is a hold. */
  datatype Policy = Policy(ttl: int, enabled: bool)

  datatype Status = Skipped | DryRun | Completed | Failed

  datatype TableResult = TableResult(status: Status, eligible: nat, archived: nat, deleted: nat)

  lemma {:induction false} Extend(origin: Sys, trace: seq<Event>, ev: Event)
    requires Legal(origin, trace) && Enabled(Run(origin, trace), ev)
    ensures Legal(origin, trace + [ev]) && Run(origin, trace + [ev]) == Step(Run(origin, trace), ev)
    ensures Erased(origin, trace + [ev]) == Erased(origin, trace) + if ev.Erase? then ErasedBy(Run(origin, trace), ev)
        else 0
    ensures Marked(origin, trace + [ev]) == Marked(origin, trace) + if ev.Mark? then MarkedBy(Run(origin, trace), ev)
        else 0
    decreases |trace|
  {
    Tally(origin, trace, ev);
    assert (!ev.Erase? ==> ErasedBy(Run(origin, trace), ev) == 0)
        && (!ev.Mark? ==> MarkedBy(Run(origin, trace), ev) == 0);
    hide Step, Enabled, Erased, Marked, ErasedBy, MarkedBy;
    if trace == [] {
      assert trace + [ev] == [ev] && [ev][1..] == [];
    } else {
      assert (trace + [ev])[0] == trace[0] && (trace + [ev])[1..] == trace[1..] + [ev];
      Extend(Step(origin, trace[0]), trace[1..], ev);
    }
  }

  /** Rows the delete statements of a run removed, and lines whose archive it
      completed. */
  function Erased(sys: Sys, evs: seq<Event>): nat
    decreases |evs|
  {
    if evs == [] then 0 else ErasedBy(sys, evs[0]) + Erased(Step(sys, evs[0]), evs[1..])
  }

  function ErasedBy(sys: Sys, ev: Event): nat {
    if ev.Erase? && At(sys, ev.i) && sys.sweepers[ev.i].Archived? then
      |DeletedKeys(sys.db, sys.sweepers[ev.i].batch.table, sys.sweepers[ev.i].batch.keys)|
    else 0
  }

  function Marked(sys: Sys, evs: seq<Event>): nat
    decreases |evs|
  {
    if evs == [] then 0 else MarkedBy(sys, evs[0]) + Marked(Step(sys, evs[0]), evs[1..])
  }

  function MarkedBy(sys: Sys, ev: Event): nat {
    if ev.Mark? && At(sys, ev.i) && sys.sweepers[ev.i].Checked? then |sys.sweepers[ev.i].batch.lines| else 0
  }

  lemma {:induction false} Tally(origin: Sys, trace: seq<Event>, ev: Event)
    ensures Erased(origin, trace + [ev]) == Erased(origin, trace) + ErasedBy(Run(origin, trace), ev)
    ensures Marked(origin, trace + [ev]) == Marked(origin, trace) + MarkedBy(Run(origin, trace), ev)
    decreases |trace|
  {
    hide Step, ErasedBy, MarkedBy;
    if trace == [] {
      assert trace + [ev] == [ev] && [ev][1..] == [];
    } else {
      assert (trace + [ev])[0] == trace[0] && (trace + [ev])[1..] == trace[1..] + [ev];
      Tally(Step(origin, trace[0]), trace[1..], ev);
    }
  }

  function TableKeys(db: Db, t: Table): (r: set<Key>)
    ensures forall k :: k in r <==> Present(db, t, k)
  {
    match t
    case Requests => db.requests.Keys
    case Results => db.results.Keys
    case Jobs => db.jobs.Keys
    case Ledger => db.ledger.Keys
  }

  lemma BeforeIsTotal(db: Db, t: Table, a: Key, b: Key, c: Key)
    requires Present(db, t, a) && Present(db, t, b) && a != b
    ensures Before(db, t, a, b) || Before(db, t, b, a)
    ensures Before(db, t, a, b) && Before(db, t, b, c) ==> Before(db, t, a, c)
  {
  }

  lemma {:induction false} OldestExists(db: Db, t: Table, ks: set<Key>)
    requires ks != {} && forall k :: k in ks ==> Present(db, t, k)
    ensures exists k :: k in ks && forall o :: o in ks && o != k ==> Before(db, t, k, o)
    decreases |ks|
  {
    hide Before, Present;
    var x :| x in ks;
    var rest := ks - {x};
    if rest == {} {
      assert ks == {x};
    } else {
      OldestExists(db, t, rest);
      var y :| y in rest && forall o :: o in rest && o != y ==> Before(db, t, y, o);
      BeforeIsTotal(db, t, x, y, y);
      var least := if Before(db, t, x, y) then x else y;
      forall o | o in ks && o != least ensures Before(db, t, least, o) {
        if o != x && o != y && least == x {
          BeforeIsTotal(db, t, x, y, o);
        }
      }
    }
  }

  /** SELECT … WHERE eligible ORDER BY created_at, key LIMIT n. */
  method SelectKeys(db: Db, t: Table, cutoff: int, limit: nat) returns (ks: seq<Key>)
    ensures Selection(db, t, cutoff, limit, ks)
  {
    var rest := set k | k in TableKeys(db, t) && Eligible(db, t, cutoff, k);
    ks := [];
    while rest != {} && |ks| < limit
      invariant |ks| <= limit
      invariant forall k :: Eligible(db, t, cutoff, k) <==> k in ks || k in rest
      invariant forall k :: k in ks ==> k !in rest
      invariant forall i, j :: 0 <= i < j < |ks| ==> Before(db, t, ks[i], ks[j])
      invariant forall i, o :: 0 <= i < |ks| && o in rest ==> Before(db, t, ks[i], o)
      decreases |rest|
    {
      OldestExists(db, t, rest);
      var k :| k in rest && forall o :: o in rest && o != k ==> Before(db, t, k, o);
      ks := ks + [k];
      rest := rest - {k};
    }
  }

  /** One sweeper's steps, as changes of its own program counter and files. */
  function With(sys: Sys, pc: Pc): Sys {
    sys.(sweepers := [pc])
  }

  lemma Steps(sys: Sys, pc: Pc)
    requires sys.sweepers == [pc]
    ensures Enabled(sys, Crash(0)) && Step(sys, Crash(0)) == With(sys, Idle)
    ensures HasArtifact(pc) && !pc.Archived? ==>
      Enabled(sys, Abort(0)) && Step(sys, Abort(0)) == With(sys, Idle).(fs := sys.fs.(data := sys.fs.data - {pc.id}))
    ensures pc.Published? && pc.id in sys.fs.data && sys.fs.data[pc.id] == pc.batch.lines ==>
      Enabled(sys, Check(0)) && Step(sys, Check(0)) == With(sys, Checked(pc.batch, pc.id))
    ensures pc.Checked? ==>
      Enabled(sys, Mark(0)) &&
      Step(sys, Mark(0)) == With(sys, Archived(pc.batch, pc.id)).(fs := sys.fs.(manifests :=
        sys.fs.manifests[pc.id := Manifest(pc.batch.table, |pc.batch.lines|, pc.batch.lines, true)]))
    ensures pc.Archived? ==>
      Enabled(sys, Erase(0)) &&
      Step(sys, Erase(0)) == With(sys, Idle).(db := Delete(sys.db, pc.batch.table, pc.batch.keys),
                                              deleted := sys.deleted + Removed(sys.db, pc.batch))
  {
    hide Delete, Removed;
  }

  lemma StageStep(sys: Sys, batch: Batch, id: Id, stored: seq<Record>)
    ensures sys.sweepers == [Selected(batch)] && id !in sys.names ==>
      Enabled(sys, Stage(0, id)) && Step(sys, Stage(0, id)) == With(sys, Staged(batch, id)).(names := sys.names + {id})
    ensures sys.sweepers == [Staged(batch, id)] ==>
      Enabled(sys, Publish(0, stored)) &&
      Step(sys, Publish(0, stored)) == With(sys, Published(batch, id)).(fs :=
          sys.fs.(data := sys.fs.data[id := stored]))
  {
  }

  lemma SelectStep(sys: Sys, t: Table, cutoff: int, limit: nat, ks: seq<Key>)
    requires sys.sweepers == [Idle] && ks != [] && Selection(sys.db, t, cutoff, limit, ks)
    ensures Enabled(sys, Select(0, t, cutoff, limit, ks))
    ensures Step(sys, Select(0, t, cutoff, limit, ks)) == With(sys, Selected(BatchOf(sys.db, t, ks)))
  {
    hide BatchOf, Selection;
  }

  // ---- A power loss between delete and directory ----

  function OneRequest(): Sys {
    Sys(Db(map[0 := 0], map[], map[], map[], {}), Fs(map[], map[]), [Idle], {}, {})
  }

  function Line(): Record {
    Record(Requests, 0)
  }

  /** One request is archived and deleted. */
  function SweepOne(): seq<Event> {
    [Select(0, Requests, 1, 1, [0])]
    + ([Stage(0, "a")] + ([Publish(0, [Line()])] + ([Check(0)] + ([Mark(0)] + ([Erase(0)] + [])))))
  }

  lemma Follow(sys: Sys, ev: Event, rest: seq<Event>)
    ensures Run(sys, [ev] + rest) == Run(Step(sys, ev), rest)
    ensures Legal(sys, [ev] + rest) <==> Enabled(sys, ev) && Legal(Step(sys, ev), rest)
  {
    hide Step, Enabled;
    assert ([ev] + rest)[1..] == rest;
  }

  lemma Stop(sys: Sys)
    ensures Legal(sys, []) && Run(sys, []) == sys
  {
  }

  lemma OneLine(db: Db)
    ensures BatchOf(db, Requests, [0]) == Batch(Requests, [Line()], [0])
  {
    assert [0][..0] == [] && [] + [Line()] == [Line()] && [] + [0] == [0];
  }

  lemma OneRemoved(db: Db)
    requires 0 in db.requests
    ensures Line() in Removed(db, Batch(Requests, [Line()], [0]))
  {
    assert 0 in DeletedKeys(db, Requests, [0]);
  }

  lemma SweepOneRuns()
    ensures Legal(OneRequest(), SweepOne()) && Line() in Run(OneRequest(), SweepOne()).deleted
  {
    var sys := OneRequest();
    var b := Batch(Requests, [Line()], [0]);
    assert Selection(sys.db, Requests, 1, 1, [0]);
    OneLine(sys.db);
    OneRemoved(sys.db);
    hide Step, Run, Legal, Enabled, Selection, BatchOf, Removed;
    SelectStep(sys, Requests, 1, 1, [0]);
    var s1 := Step(sys, Select(0, Requests, 1, 1, [0]));
    StageStep(s1, b, "a", [Line()]);
    var s2 := Step(s1, Stage(0, "a"));
    StageStep(s2, b, "a", [Line()]);
    var s3 := Step(s2, Publish(0, [Line()]));
    Steps(s3, Published(b, "a"));
    var s4 := Step(s3, Check(0));
    Steps(s4, Checked(b, "a"));
    var s5 := Step(s4, Mark(0));
    Steps(s5, Archived(b, "a"));
    var s6 := Step(s5, Erase(0));
    Stop(s6);
    Follow(s5, Erase(0), []);
    Follow(s4, Mark(0), [Erase(0)] + []);
    Follow(s3, Check(0), [Mark(0)] + ([Erase(0)] + []));
    Follow(s2, Publish(0, [Line()]), [Check(0)] + ([Mark(0)] + ([Erase(0)] + [])));
    Follow(s1, Stage(0, "a"), [Publish(0, [Line()])] + ([Check(0)] + ([Mark(0)] + ([Erase(0)] + []))));
    Follow(sys, Select(0, Requests, 1, 1, [0]),
      [Stage(0, "a")] + ([Publish(0, [Line()])] + ([Check(0)] + ([Mark(0)] + ([Erase(0)] + [])))));
  }

  /** And it may not be safe: a row is archived and deleted, the power fails, and
      the directory is back as it was before the sweep. */
  lemma PowerLossCanLoseTheArchive()
    ensures exists sys: Sys, evs: seq<Event>, n: nat, r: Record ::
      && Archive.Fresh(sys) && Legal(sys, evs) && n <= |evs|
      && r in Run(sys, evs).deleted && !Retrievable(Run(sys, evs[..n]).fs, r)
  {
    SweepOneRuns();
    assert SweepOne()[..0] == [];
    assert Archive.Fresh(OneRequest()) && !Retrievable(OneRequest().fs, Line());
    Stop(OneRequest());
  }

  class Sweeper {
    var db: Db
    var data: map<Id, seq<Record>>
    var manifests: map<Id, Manifest>
    ghost var pc: Pc
    ghost var names: set<Id>
    ghost var deleted: set<Record>
    ghost var trace: seq<Event>
    ghost const origin: Sys

    constructor (db: Db)
      ensures View() == origin == Sys(db, Fs(map[], map[]), [Idle], {}, {}) && trace == [] && Valid()
    {
      this.db, data, manifests, pc, names, deleted, trace := db, map[], map[], Idle, {}, {}, [];
      origin := Sys(db, Fs(map[], map[]), [Idle], {}, {});
    }

    ghost function View(): Sys
      reads this
    {
      Sys(db, Fs(data, manifests), [pc], names, deleted)
    }

    /** Everything so far is a legal run of the machine. */
    ghost predicate Valid()
      reads this
    {
      Legal(origin, trace) && Run(origin, trace) == View()
    }

    /** What the run so far deleted and archived. */
    ghost function Deletions(): nat
      reads this
    {
      Erased(origin, trace)
    }

    ghost function Archivals(): nat
      reads this
    {
      Marked(origin, trace)
    }

    /** Other transactions commit; those the schema forbids are rejected. */
    method Interfere(changes: seq<Change>)
      requires Valid()
      modifies this`db, this`trace
      ensures Valid() && old(trace) <= trace
      ensures NoSelects(trace, |old(trace)|)
      ensures Deletions() == old(Deletions()) && Archivals() == old(Archivals())
    {
      hide Legal, Run, Apply, ChangeAllowed, Erased, Marked;
      for n := 0 to |changes|
        invariant Valid() && old(trace) <= trace && Deletions() == old(Deletions()) && Archivals() == old(Archivals())
        invariant NoSelects(trace, |old(trace)|)
      {
        if ChangeAllowed(db, changes[n]) {
          Extend(origin, trace, Env(changes[n]));
          db := Apply(db, changes[n]);
          trace := trace + [Env(changes[n])];
        }
      }
    }

    /** Removes a failed artifact's data file; a removal that fails is ignored. */
    method RemoveData(id: Id, removes: bool)
      requires Valid() && HasArtifact(pc) && !pc.Archived? && pc.id == id
      modifies this`data, this`pc, this`trace
      ensures Valid() && pc == Idle && old(trace) <= trace && NoSelects(trace, |old(trace)|)
      ensures data == if removes then old(data) - {id} else old(data)
      ensures Deletions() == old(Deletions()) && Archivals() == old(Archivals())
    {
      hide Legal, Run, Step, Enabled, Erased, Marked;
      Steps(View(), pc);
      if removes {
        Extend(origin, trace, Abort(0));
        data := data - {id};
        pc, trace := Idle, trace + [Abort(0)];
      } else {
        Extend(origin, trace, Crash(0));
        pc, trace := Idle, trace + [Crash(0)];
      }
    }

    /** Writes the data file under a temporary name and renames it into place. */
    method PublishData(batch: Batch, id: Id, io: Io) returns (ok: bool)
      requires Valid() && pc == Selected(batch) && id !in names
      modifies this
      ensures Valid() && old(trace) <= trace && NoSelects(trace, |old(trace)|)
      ensures db == old(db) && deleted == old(deleted) && names <= old(names) + {id} && manifests == old(manifests)
      ensures ok <==> io.mkdir && io.dataWritten
      ensures if ok then pc == Published(batch, id) && data == old(data)[id := io.stored] else pc == Idle
      ensures Deletions() == old(Deletions()) && Archivals() == old(Archivals())
    {
      hide Legal, Run, Step, Enabled, Erased, Marked, ErasedBy, MarkedBy, NoSelects;
      QuietStart(trace);
      if !io.mkdir {
        Steps(View(), pc);
        Extend(origin, trace, Crash(0));
        QuietEvent(trace, Crash(0), |trace|);
        pc, trace := Idle, trace + [Crash(0)];
        return false;
      }
      StageStep(View(), batch, id, io.stored);
      Extend(origin, trace, Stage(0, id));
      QuietEvent(trace, Stage(0, id), |trace|);
      pc, names, trace := Staged(batch, id), names + {id}, trace + [Stage(0, id)];
      ghost var staged := trace;
      if !io.dataWritten {
        RemoveData(id, io.removes);
        QuietJoin(staged, trace, |old(trace)|);
        return false;
      }
      StageStep(View(), batch, id, io.stored);
      Extend(origin, trace, Publish(0, io.stored));
      QuietEvent(trace, Publish(0, io.stored), |old(trace)|);
      data := data[id := io.stored];
      pc, trace := Published(batch, id), trace + [Publish(0, io.stored)];
      return true;
    }

    /** Writes the data file and reads it back; any failure removes it again. */
    method WriteData(batch: Batch, id: Id, io: Io) returns (ok: bool)
      requires Valid() && pc == Selected(batch) && id !in names
      modifies this
      ensures Valid() && old(trace) <= trace && db == old(db) && deleted == old(deleted) && names <= old(names) + {id}
      ensures NoSelects(trace, |old(trace)|)
      ensures ok <==> io.mkdir && io.dataWritten && io.readBack && io.stored == batch.lines
      ensures manifests == old(manifests)
      ensures if ok then pc == Checked(batch, id) && data == old(data)[id := batch.lines] else pc == Idle
      ensures Deletions() == old(Deletions()) && Archivals() == old(Archivals())
    {
      hide Legal, Run, Step, Enabled, Erased, Marked, ErasedBy, MarkedBy, NoSelects;
      var published := PublishData(batch, id, io);
      if !published {
        return false;
      }
      ghost var before := trace;
      if !io.readBack || data[id] != batch.lines {
        RemoveData(id, io.removes);
        QuietJoin(before, trace, |old(trace)|);
        return false;
      }
      Steps(View(), pc);
      Extend(origin, trace, Check(0));
      QuietEvent(trace, Check(0), |old(trace)|);
      pc, trace := Checked(batch, id), trace + [Check(0)];
      return true;
    }

    /** Data file, read-back, manifest, in that order; the manifest is returned only
        for an artifact whose stored lines matched. */
    method Write(batch: Batch, id: Id, io: Io) returns (manifest: Option<Manifest>)
      requires Valid() && pc == Selected(batch) && id !in names
      modifies this
      ensures Valid() && old(trace) <= trace && db == old(db) && deleted == old(deleted) && names <= old(names) + {id}
      ensures NoSelects(trace, |old(trace)|)
      ensures manifest.Some? <==>
        io.mkdir && io.dataWritten && io.readBack && io.stored == batch.lines && io.manifestWritten
      ensures if manifest.Some? then
                && pc == Archived(batch, id) && manifest.value ==
                    Manifest(batch.table, |batch.lines|, batch.lines, true)
                && data == old(data)[id := batch.lines] && manifests == old(manifests)[id := manifest.value]
              else pc == Idle && manifests == old(manifests)
      ensures Deletions() == old(Deletions())
      ensures Archivals() == old(Archivals()) + if manifest.Some? then |batch.lines| else 0
    {
      hide Legal, Run, Step, Enabled, Erased, Marked;
      var ok := WriteData(batch, id, io);
      if !ok {
        return None;
      }
      if !io.manifestWritten {
        RemoveData(id, io.removes);
        return None;
      }
      var m := Manifest(batch.table, |batch.lines|, batch.lines, true);
      Steps(View(), pc);
      Extend(origin, trace, Mark(0));
      manifests := manifests[id := m];
      pc, trace := Archived(batch, id), trace + [Mark(0)];
      return Some(m);
    }

    /** DELETE … WHERE key = ANY(keys) AND still deletable. */
    method DeleteBatch(batch: Batch, id: Id) returns (rows: nat)
      requires Valid() && pc == Archived(batch, id)
      modifies this
      ensures Valid() && trace == old(trace) + [Erase(0)] && pc == Idle && names == old(names)
      ensures db == Delete(old(db), batch.table, batch.keys) && deleted == old(deleted) + Removed(old(db), batch)
      ensures rows == |DeletedKeys(old(db), batch.table, batch.keys)|
      ensures data == old(data) && manifests == old(manifests)
      ensures Deletions() == old(Deletions()) + rows && Archivals() == old(Archivals())
    {
      hide Legal, Run, Delete, Removed, Step, Enabled, Erased, Marked, DeletedKeys;
      Steps(View(), pc);
      rows := |DeletedKeys(db, batch.table, batch.keys)|;
      Extend(origin, trace, Erase(0));
      deleted := deleted + Removed(db, batch);
      db := Delete(db, batch.table, batch.keys);
      pc, trace := Idle, trace + [Erase(0)];
    }

    /** One batch: its lines once selected, whether they were archived, and the rows
        deleted once the delete committed. */
    method RunBatch(table: Table, cutoff: int, batchSize: nat, turn: Turn)
      returns (lines: nat, archived: bool, deletedRows: Option<nat>, failed: bool)
      requires Valid() && pc == Idle && turn.id !in names
      modifies this
      ensures Valid() && old(trace) <= trace && pc == Idle && names <= old(names) + {turn.id}
      ensures SelectsAt(trace, |old(trace)|, table, cutoff, batchSize)
      ensures deletedRows.Some? ==> archived && !failed
      ensures !failed && lines > 0 ==> deletedRows.Some?
      ensures archived ==> lines > 0
      ensures deletedRows.None? ==> deleted == old(deleted)
      ensures deletedRows.Some? ==> |trace| > |old(trace)| && trace[|trace| - 1] == Erase(0)
      ensures !failed && lines == 0 && batchSize > 0 ==> NothingEligible(db, table, cutoff)
      ensures failed <==> turn.cancelled || turn.selectFails || (lines > 0 && (!archived || turn.deleteFails))
      ensures archived ==>
        turn.id in data && manifests == old(manifests)[turn.id := Manifest(table, lines, data[turn.id], true)]
      ensures archived ==>
        turn.io.mkdir && turn.io.dataWritten && turn.io.readBack && turn.io.manifestWritten
        && turn.io.stored == data[turn.id]
      ensures Deletions() == old(Deletions()) + deletedRows.GetOr(0)
      ensures Archivals() == old(Archivals()) + if archived then lines else 0
    {
      hide Erased, Marked, DeletedKeys, Legal, Run, Delete, Removed, Selection, BatchOf, Step, Enabled, NothingEligible,
          TableKeys, SelectsAt, NoSelects;
      SelectsNothing(trace, table, cutoff, batchSize);
      if turn.cancelled {
        return 0, false, None, true;
      }
      Interfere(turn.beforeSelect);
      SelectsExtend(old(trace), trace, |old(trace)|, table, cutoff, batchSize);
      if turn.selectFails {
        return 0, false, None, true;
      }
      var ks := SelectKeys(db, table, cutoff, batchSize);
      if ks == [] {
        if batchSize > 0 {
          EmptySelection(db, table, cutoff, batchSize);
        }
        return 0, false, None, false;
      }
      var batch := BatchOf(db, table, ks);
      NonEmptyBatch(db, table, ks);
      SelectStep(View(), table, cutoff, batchSize, ks);
      Extend(origin, trace, Select(0, table, cutoff, batchSize, ks));
      SelectsOnce(trace, Select(0, table, cutoff, batchSize, ks));
      SelectsExtend(trace, trace + [Select(0, table, cutoff, batchSize, ks)], |old(trace)|, table, cutoff, batchSize);
      pc, trace := Selected(batch), trace + [Select(0, table, cutoff, batchSize, ks)];
      ghost var selected := trace;
      var manifest := Write(batch, turn.id, turn.io);
      SelectsExtend(selected, trace, |old(trace)|, table, cutoff, batchSize);
      if manifest.None? {
        return |batch.lines|, false, None, true;
      }
      selected := trace;
      Interfere(turn.beforeDelete);
      SelectsExtend(selected, trace, |old(trace)|, table, cutoff, batchSize);
      EraseSelectsNothing(trace);
      selected := trace;
      if turn.deleteFails {
        Steps(View(), pc);
        Extend(origin, trace, Crash(0));
        pc, trace := Idle, trace + [Crash(0)];
        SelectsExtend(selected, trace, |old(trace)|, table, cutoff, batchSize);
        return |batch.lines|, true, None, true;
      }
      var rows := DeleteBatch(batch, turn.id);
      SelectsExtend(selected, trace, |old(trace)|, table, cutoff, batchSize);
      return |batch.lines|, true, Some(rows), false;
    }

    /** One table under its policy: bounded select, archive, delete batches; the
        first failure ends the table's run with what it did so far. Hold and dry run
        delete nothing and write nothing. Every selection is made at the policy's age
        limit. The counters are exact, also after a failure. */
    method RunTable(table: Table, policy: Option<Policy>, dryRun: bool, now: int, batchSize: nat, turns: seq<Turn>)
      returns (res: TableResult, ghost ran: nat)
      requires Valid() && pc == Idle
      requires forall n :: 0 <= n < |turns| ==> turns[n].id !in names
      requires forall m, n :: 0 <= m < n < |turns| ==> turns[m].id != turns[n].id
      modifies this
      ensures Valid() && old(trace) <= trace && pc == Idle
      ensures policy.None? || !policy.value.enabled ==> res == TableResult(Skipped, 0, 0, 0) && View() == old(View())
      ensures dryRun ==> View() == old(View())
      ensures policy.Some? ==> SelectsAt(trace, |old(trace)|, table, now - policy.value.ttl, batchSize)
      ensures dryRun && policy.Some? && policy.value.enabled ==>
        res == TableResult(DryRun, |set k | k in TableKeys(db, table)
                           && Eligible(db, table, now - policy.value.ttl, k)|, 0, 0)
      ensures Deletions() == old(Deletions()) + res.deleted && Archivals() == old(Archivals()) + res.archived
      ensures res.archived <= res.eligible && (res.status == Completed ==> res.archived == res.eligible)
      ensures res.archived == 0 ==> deleted == old(deleted)
      ensures res.status == Completed && batchSize > 0 && ran < |turns|
          ==> NothingEligible(db, table, now - policy.value.ttl)
      ensures res.status == Completed ==> policy.Some? && ran <= |turns| && (ran > 0 ==> res.archived > 0)
    {
      ran := 0;
      if policy.None? || !policy.value.enabled {
        return TableResult(Skipped, 0, 0, 0), 0;
      }
      var cutoff := now - policy.value.ttl;
      if dryRun {
        return TableResult(DryRun, |set k | k in TableKeys(db, table) && Eligible(db, table, cutoff, k)|, 0, 0), 0;
      }
      hide Legal, Run, Eligible, NothingEligible, Erased, Marked, SelectsAt;
      res := TableResult(Completed, 0, 0, 0);
      SelectsNothing(trace, table, cutoff, batchSize);
      for n := 0 to |turns|
        invariant Valid() && pc == Idle && old(trace) <= trace && res.status == Completed
        invariant forall m :: n <= m < |turns| ==> turns[m].id !in names
        invariant res.archived == res.eligible && (res.archived == 0 ==> deleted == old(deleted))
        invariant ran == n && (n > 0 ==> res.archived > 0)
        invariant SelectsAt(trace, |old(trace)|, table, now - policy.value.ttl, batchSize)
        invariant Deletions() == old(Deletions()) + res.deleted && Archivals() == old(Archivals()) + res.archived
      {
        ghost var before := trace;
        var lines, archived, rows, failed := RunBatch(table, cutoff, batchSize, turns[n]);
        SelectsExtend(before, trace, |old(trace)|, table, cutoff, batchSize);
        res := TableResult(if failed then Failed else Completed, res.eligible + lines,
                           res.archived + (if archived then lines else 0), res.deleted + rows.GetOr(0));
        if failed || lines == 0 {
          return;
        }
        ran := ran + 1;
      }
    }
  }

  /** Every selection from event number from on read this table at this cutoff. */
  ghost predicate SelectsAt(trace: seq<Event>, from: nat, table: Table, cutoff: int, limit: nat) {
    forall n :: from <= n < |trace| && trace[n].Select? ==>
      trace[n].table == table && trace[n].cutoff == cutoff && trace[n].limit == limit
  }

  ghost predicate NoSelects(trace: seq<Event>, from: nat) {
    forall n :: from <= n < |trace| ==> !trace[n].Select?
  }

  lemma QuietEvent(trace: seq<Event>, ev: Event, from: nat)
    requires from <= |trace| && NoSelects(trace, from) && !ev.Select?
    ensures NoSelects(trace + [ev], from)
  {
  }

  lemma QuietStart(trace: seq<Event>)
    ensures NoSelects(trace, |trace|)
  {
  }

  lemma QuietJoin(trace: seq<Event>, more: seq<Event>, from: nat)
    requires from <= |trace| && trace <= more && NoSelects(trace, from) && NoSelects(more, |trace|)
    ensures NoSelects(more, from)
  {
  }

  lemma SelectsNothing(trace: seq<Event>, table: Table, cutoff: int, limit: nat)
    ensures SelectsAt(trace, |trace|, table, cutoff, limit)
  {
  }

  lemma SelectsOnce(trace: seq<Event>, ev: Event)
    requires ev.Select?
    ensures SelectsAt(trace + [ev], |trace|, ev.table, ev.cutoff, ev.limit)
  {
  }

  lemma EraseSelectsNothing(trace: seq<Event>)
    ensures NoSelects(trace + [Erase(0)], |trace|) && NoSelects(trace + [Crash(0)], |trace|)
  {
  }

  lemma SelectsExtend(trace: seq<Event>, more: seq<Event>, from: nat, table: Table, cutoff: int, limit: nat)
    requires trace <= more && from <= |trace| && SelectsAt(trace, from, table, cutoff, limit)
    requires SelectsAt(more, |trace|, table, cutoff, limit) || NoSelects(more, |trace|)
    ensures SelectsAt(more, from, table, cutoff, limit)
  {
    forall n | from <= n < |trace| ensures more[n] == trace[n] {
    }
  }

  ghost predicate NothingEligible(db: Db, t: Table, cutoff: int) {
    forall k :: !Eligible(db, t, cutoff, k)
  }

  /** An empty page means that nothing is left. */
  lemma EmptySelection(db: Db, t: Table, cutoff: int, limit: nat)
    requires limit > 0 && Selection(db, t, cutoff, limit, [])
    ensures NothingEligible(db, t, cutoff)
  {
  }

  lemma NonEmptyBatch(db: Db, t: Table, ks: seq<Key>)
    requires ks != []
    ensures BatchOf(db, t, ks).lines != [] && BatchOf(db, t, ks).table == t
  {
    BatchCovers(db, t, ks);
  }
}

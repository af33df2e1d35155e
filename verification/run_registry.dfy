/** The registry of runs, in memory and on disk, and what a restart makes of it. */
module RunRegistries {
  import opened JsonValues
  import opened RunQueue

  datatype RunRecord = RunRecord(id: string, session: string, status: Status, error: string)

  const RESTARTED := "Run interrupted by server restart"

  predicate Stale(rec: RunRecord) {
    rec.status == Queued || rec.status == Running
  }

  function Interrupted(rec: RunRecord): RunRecord {
    rec.(status := Cancelled, error := RESTARTED)
  }

  /** The run files after reconciliation; an unreadable file (None) is left alone. */
  function Reconciled(disk: map<string, Option<RunRecord>>): map<string, Option<RunRecord>> {
    map id | id in disk ::
      match disk[id]
      case Some(rec) => if Stale(rec) then Some(Interrupted(rec)) else Some(rec)
      case None => None
  }

  lemma ReconciledIs(disk: map<string, Option<RunRecord>>)
    ensures forall id :: id in disk && Reconciled(disk)[id].Some? ==>
      && disk[id].Some?
      && var rec := disk[id].value;
      Reconciled(disk)[id].value
        == if rec.status == Queued || rec.status == Running
           then rec.(status := Cancelled, error := "Run interrupted by server restart") else rec
  {
  }

  /** The runs that reconciliation cancels, by file name. */
  function StaleRuns(disk: map<string, Option<RunRecord>>): set<string> {
    set id | id in disk && disk[id].Some? && Stale(disk[id].value)
  }

  /** Files are named after the run they hold. */
  ghost predicate WellNamed(disk: map<string, Option<RunRecord>>) {
    forall id :: id in disk && disk[id].Some? ==> disk[id].value.id == id
  }

  function Listed(bySession: map<string, seq<string>>, session: string): seq<string> {
    if session in bySession then bySession[session] else []
  }

  function Appended(bySession: map<string, seq<string>>, rec: RunRecord): map<string, seq<string>> {
    bySession[rec.session := Listed(bySession, rec.session) + [rec.id]]
  }

  ghost predicate Distinct(ids: seq<string>) {
    forall i, j :: 0 <= i < j < |ids| ==> ids[i] != ids[j]
  }

  /** Every run in memory is listed once, under its session. */
  ghost predicate Indexed(runs: map<string, RunRecord>, bySession: map<string, seq<string>>) {
    && (forall id :: id in runs ==> runs[id].id == id && id in Listed(bySession, runs[id].session))
    && (forall session :: Distinct(Listed(bySession, session)))
    && (forall session, id :: id in Listed(bySession, session) ==> id in runs && runs[id].session == session)
  }

  lemma IndexedAppend(runs: map<string, RunRecord>, bySession: map<string, seq<string>>, rec: RunRecord)
    requires Indexed(runs, bySession) && rec.id !in runs
    ensures Indexed(runs[rec.id := rec], Appended(bySession, rec))
  {
    var after := Appended(bySession, rec);
    assert rec.id !in Listed(bySession, rec.session);
    ListedAfter(bySession, rec);
    hide Listed, Appended;
    DistinctAppend(Listed(bySession, rec.session), rec.id);
    hide Distinct;
    forall session ensures Distinct(Listed(after, session)) {
      assert session != rec.session ==> Listed(after, session) == Listed(bySession, session);
    }
  }

  lemma ListedAfter(bySession: map<string, seq<string>>, rec: RunRecord)
    ensures Listed(Appended(bySession, rec), rec.session) == Listed(bySession, rec.session) + [rec.id]
    ensures forall session :: session != rec.session ==>
      Listed(Appended(bySession, rec), session) == Listed(bySession, session)
  {
  }

  lemma DistinctAppend(ids: seq<string>, id: string)
    requires Distinct(ids) && id !in ids
    ensures Distinct(ids + [id])
  {
  }

  class RunRegistry {
    var runs: map<string, RunRecord>
    var bySession: map<string, seq<string>>
    var disk: map<string, Option<RunRecord>>

    ghost predicate Valid()
      reads this
    {
      Indexed(runs, bySession) && WellNamed(disk)
    }

    /** A registry starts with what an earlier process left on disk. */
    constructor (disk: map<string, Option<RunRecord>>)
      requires WellNamed(disk)
      ensures Valid() && runs == map[] && bySession == map[] && this.disk == disk
    {
      runs, bySession, this.disk := map[], map[], disk;
    }

    method Create(id: string, session: string) returns (rec: RunRecord)
      requires Valid() && id !in runs
      modifies this
      ensures Valid() && rec == RunRecord(id, session, Queued, "")
      ensures runs == old(runs)[id := rec] && disk == old(disk)[id := Some(rec)]
      ensures bySession == Appended(old(bySession), rec)
    {
      rec := RunRecord(id, session, Queued, "");
      IndexedAppend(runs, bySession, rec);
      runs := runs[id := rec];
      bySession := bySession[session := Listed(bySession, session) + [id]];
      disk := disk[id := Some(rec)];
    }

    method Update(rec: RunRecord)
      requires Valid() && rec.id in runs && runs[rec.id].session == rec.session
      modifies this
      ensures Valid() && bySession == old(bySession)
      ensures runs == old(runs)[rec.id := rec] && disk == old(disk)[rec.id := Some(rec)]
    {
      runs := runs[rec.id := rec];
      disk := disk[rec.id := Some(rec)];
    }

    method Get(id: string) returns (rec: Option<RunRecord>)
      requires Valid()
      modifies this
      ensures Valid() && disk == old(disk)
      ensures rec == if id in old(runs) then Some(old(runs)[id])
                     else if id in old(disk) then old(disk)[id] else None
      ensures runs == if rec.Some? then old(runs)[id := rec.value] else old(runs)
    {
      if id in runs {
        assert runs == runs[id := runs[id]];
        return Some(runs[id]);
      }
      if id !in disk || disk[id].None? {
        return None;
      }
      rec := disk[id];
      IndexedAppend(runs, bySession, rec.value);
      bySession := bySession[rec.value.session := Listed(bySession, rec.value.session) + [id]];
      runs := runs[id := rec.value];
    }

    /** One run file read as queued or running. */
    method CancelStale(rec: RunRecord) returns (cancelled: RunRecord)
      requires Valid() && rec.id !in runs
      modifies this
      ensures Valid() && cancelled == Interrupted(rec)
      ensures runs == old(runs)[rec.id := cancelled] && disk == old(disk)[rec.id := Some(cancelled)]
    {
      cancelled := rec.(status := Cancelled, error := RESTARTED);
      IndexedAppend(runs, bySession, cancelled);
      runs := runs[rec.id := cancelled];
      bySession := bySession[rec.session := Listed(bySession, rec.session) + [rec.id]];
      disk := disk[rec.id := Some(cancelled)];
    }

    /** At start-up: every orphaned run is cancelled, in memory and on disk, and nothing else changes. */
    method ReconcileStaleRuns() returns (reconciled: seq<RunRecord>)
      requires Valid() && runs == map[]
      modifies this
      ensures Valid() && disk == Reconciled(old(disk))
      ensures forall id :: id in disk && disk[id].Some? ==>
        && old(disk)[id].Some?
        && var rec := old(disk)[id].value;
        disk[id].value
          == if rec.status == Queued || rec.status == Running
             then rec.(status := Cancelled, error := "Run interrupted by server restart") else rec
      ensures runs.Keys == StaleRuns(old(disk))
      ensures forall id :: id in runs ==> Some(runs[id]) == disk[id]
      ensures forall rec :: rec in reconciled <==> rec.id in runs && runs[rec.id] == rec
    {
      hide Indexed, Interrupted;
      ghost var start := disk;
      reconciled := [];
      var todo := disk.Keys;
      while todo != {}
        invariant Valid() && disk.Keys == start.Keys
        invariant forall id :: id in todo ==> id in start && disk[id] == start[id]
        invariant forall id :: id in start && id !in todo ==> disk[id] == Reconciled(start)[id]
        invariant forall id :: id in runs <==> id in StaleRuns(start) && id !in todo
        invariant forall id :: id in runs ==> Some(runs[id]) == disk[id]
        invariant forall rec :: rec in reconciled <==> rec.id in runs && runs[rec.id] == rec
        decreases todo
      {
        var id :| id in todo;
        todo := todo - {id};
        if disk[id].Some? && Stale(disk[id].value) {
          var rec := CancelStale(disk[id].value);
          reconciled := reconciled + [rec];
        }
      }
      assert disk == Reconciled(start);
      ReconciledIs(start);
    }
  }
}

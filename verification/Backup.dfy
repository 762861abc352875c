/** Backing up before a reset: the exported window is taken from samples and snapshots alone, and still covers every
    telemetry row the reset deletes. */
module Backup {
  import opened Rows
  import opened Throttle
  import opened Database
  import opened Retention
  import opened Journal
  import opened Export
  import opened TelemetryStore
  import opened Collector
  import opened Invariants

  lemma {:induction false} BoundsOfRows<T>(rows: seq<Row<T>>)
    ensures (MinTs(rows).None? <==> rows == []) && (MaxTs(rows).None? <==> rows == [])
    ensures forall r :: r in rows ==> MinTs(rows).value <= r.ts <= MaxTs(rows).value
    ensures rows != [] ==> MinTs(rows).value <= MaxTs(rows).value
  {
    if rows != [] {
      BoundsOfRows(rows[..|rows| - 1]);
      assert rows == rows[..|rows| - 1] + [rows[|rows| - 1]];
    }
  }

  /** The check lets a caller go ahead exactly when every sample and every snapshot is five seconds old. */
  lemma {:induction false} QuietMeaning(db: Db, now: int)
    ensures Quiet(db, now, QUIET_MS) <==>
              && (forall s :: s in db.samples.rows ==> now - s.ts >= 5 * 1000)
              && (forall s :: s in db.snapshots.rows ==> now - s.ts >= 5 * 1000)
  {
    BoundsOfRows(db.samples.rows);
    BoundsOfRows(db.snapshots.rows);
    if db.samples.rows != [] { NewestIsStored(db.samples.rows); }
    if db.snapshots.rows != [] { NewestIsStored(db.snapshots.rows); }
  }

  lemma {:induction false} NewestIsStored<T>(rows: seq<Row<T>>)
    requires rows != []
    ensures exists r :: r in rows && MaxTs(rows) == Some(r.ts)
    ensures exists r :: r in rows && MinTs(rows) == Some(r.ts)
  {
    var front, last := rows[..|rows| - 1], rows[|rows| - 1];
    assert last in rows;
    assert front == [] ==> MaxTs(front).None? && MinTs(front).None?;
    if MaxTs(rows) != Some(last.ts) {
      NewestIsStored(front);
      var newest :| newest in front && MaxTs(front) == Some(newest.ts);
      assert newest in rows;
    }
    if MinTs(rows) != Some(last.ts) {
      NewestIsStored(front);
      var oldest :| oldest in front && MinTs(front) == Some(oldest.ts);
      assert oldest in rows;
    }
  }

  /** The bounds are the times of stored rows, none older or newer. */
  lemma {:induction false} BoundsMeaning(db: Db)
    ensures Bounds(db).sampleCount == |db.samples.rows|
    ensures Bounds(db).min.None? <==> db.samples.rows == [] && db.snapshots.rows == []
    ensures Bounds(db).max.None? <==> db.samples.rows == [] && db.snapshots.rows == []
    ensures Bounds(db).min.Some? ==> AllWithin(db.samples.rows, Bounds(db).min.value, Bounds(db).max.value)
                                     && AllWithin(db.snapshots.rows, Bounds(db).min.value, Bounds(db).max.value)
    ensures Bounds(db).min.Some? ==> (exists s :: s in db.samples.rows && s.ts == Bounds(db).min.value)
                                     || exists s :: s in db.snapshots.rows && s.ts == Bounds(db).min.value
    ensures Bounds(db).max.Some? ==> (exists s :: s in db.samples.rows && s.ts == Bounds(db).max.value)
                                     || exists s :: s in db.snapshots.rows && s.ts == Bounds(db).max.value
  {
    BoundsOfRows(db.samples.rows);
    BoundsOfRows(db.snapshots.rows);
    if db.samples.rows != [] { NewestIsStored(db.samples.rows); }
    if db.snapshots.rows != [] { NewestIsStored(db.snapshots.rows); }
  }

  /** No telemetry at all. */
  predicate NothingCollected(db: Db) {
    && db.samples.rows == [] && db.transitions.rows == [] && db.journal.rows == [] && db.snapshots.rows == []
    && db.values.rows == [] && db.contextTransitions.rows == [] && db.contextJournal.rows == []
  }

  ghost predicate AllWithin<T>(rows: seq<Row<T>>, from: int, to: int) {
    forall r :: r in rows ==> from <= r.ts <= to
  }

  /** Rows of every table that has a time of its own lie between the bounds, since children carry a parent's time. */
  lemma {:induction false} BoundsCoverEverything(db: Db, from: int, to: int)
    requires Linked(db) && Bounds(db).min == Some(from) && Bounds(db).max == Some(to)
    ensures from <= to
    ensures AllWithin(db.samples.rows, from, to) && AllWithin(db.snapshots.rows, from, to)
    ensures AllWithin(db.transitions.rows, from, to) && AllWithin(db.values.rows, from, to) && AllWithin(db.contextTransitions.rows, from, to)
  {
    BoundsOfRows(db.samples.rows);
    BoundsOfRows(db.snapshots.rows);
    forall t | t in db.transitions.rows ensures from <= t.ts <= to { assert SampleOf(db, t); }
    forall v | v in db.values.rows ensures from <= v.ts <= to { assert SnapshotOf(db, v.body.snapshotId, v.ts); }
    forall t | t in db.contextTransitions.rows ensures from <= t.ts <= to { assert SnapshotOf(db, t.body.snapshotId, t.ts); }
  }

  /** "no telemetry data to dump" is the truth: no table holds a telemetry row. */
  lemma {:induction false} NoBoundsNoData(db: Db)
    requires Linked(db)
    ensures Bounds(db).min.None? <==> NothingCollected(db)
    ensures Bounds(db).min.None? <==> Bounds(db).max.None?
  {
    BoundsOfRows(db.samples.rows);
    BoundsOfRows(db.snapshots.rows);
    if Bounds(db).min.None? {
      Barren(db);
    }
  }

  lemma {:induction false} Barren(db: Db)
    requires Linked(db) && db.samples.rows == [] && db.snapshots.rows == []
    ensures NothingCollected(db)
  {
    assert db.transitions.rows != [] ==> SampleOf(db, db.transitions.rows[0]);
    assert db.values.rows != [] ==> SnapshotOf(db, db.values.rows[0].body.snapshotId, db.values.rows[0].ts);
    assert db.contextTransitions.rows != [] ==>
      SnapshotOf(db, db.contextTransitions.rows[0].body.snapshotId, db.contextTransitions.rows[0].ts);
    assert db.journal.rows != [] ==> HasId(db.transitions, db.journal.rows[0].body.transitionId);
    assert db.contextJournal.rows != [] ==> HasId(db.contextTransitions, db.contextJournal.rows[0].body.transitionId);
  }

  /** The bundle holds every telemetry row of the store, each once. */
  ghost predicate Complete(db: Db, b: Bundle) {
    && multiset(b.samples) == multiset(db.samples.rows)
    && multiset(b.transitions) == multiset(db.transitions.rows)
    && multiset(b.journal) == multiset(db.journal.rows)
    && multiset(b.snapshots) == multiset(db.snapshots.rows)
    && multiset(b.values) == multiset(db.values.rows)
    && multiset(b.contextTransitions) == multiset(db.contextTransitions.rows)
    && multiset(b.contextJournal) == multiset(db.contextJournal.rows)
  }

  ghost predicate OnlyDevice(db: Db, device: Option<string>) {
    forall s :: s in db.samples.rows ==> Matches(device, s.body.device)
  }

  /** The lookup of all transitions is the whole journal. */
  lemma {:induction false} WholeJournal<T>(events: seq<Row<JournalEvent>>, parents: Table<T>)
    requires IdsAscend(events) && IdsAscend(parents.rows)
    requires forall e :: e in events ==> HasId(parents, e.body.transitionId)
    ensures multiset(EventsFor(events, Ids(SortByTs(parents.rows)))) == multiset(events)
  {
    var listing := SortByTs(parents.rows);
    SortKeepsDistinct(parents.rows);
    forall e ensures multiset(EventsFor(events, Ids(listing)))[e] == multiset(events)[e] {
      EventsForListing(events, listing, e);
      RowsOnce(events, e);
      if e in events {
        var r :| r in parents.rows && r.id == e.body.transitionId;
        assert r in multiset(listing);
      }
    }
  }

  lemma {:induction false} CoveredTables(db: Db, from: int, to: int, device: Option<string>)
    requires Linked(db) && Bounds(db).min == Some(from) && Bounds(db).max == Some(to) && OnlyDevice(db, device)
    ensures Select(db.samples.rows, SampleIn(from, to, device)) == db.samples.rows
    ensures Select(db.transitions.rows, TransitionIn(from, to, device)) == db.transitions.rows
    ensures Select(db.snapshots.rows, InWindow(from, to)) == db.snapshots.rows
    ensures Select(db.values.rows, InWindow(from, to)) == db.values.rows
    ensures Select(db.contextTransitions.rows, InWindow(from, to)) == db.contextTransitions.rows
  {
    BoundsCoverEverything(db, from, to);
    SelectAll(db.samples.rows, SampleIn(from, to, device));
    forall t | t in db.transitions.rows ensures TransitionIn(from, to, device)(t) { assert SampleOf(db, t); }
    SelectAll(db.transitions.rows, TransitionIn(from, to, device));
    SelectAll(db.snapshots.rows, InWindow(from, to));
    SelectAll(db.values.rows, InWindow(from, to));
    SelectAll(db.contextTransitions.rows, InWindow(from, to));
  }

  lemma {:induction false} WholeListings(db: Db, from: int, to: int, device: Option<string>, b: Bundle, summaryOk: bool)
    requires BuildExportBundle(db, from, to, device, false, summaryOk) == Bundled(b) && Untruncated(db, from, to, device)
    requires Select(db.transitions.rows, TransitionIn(from, to, device)) == db.transitions.rows
    requires Select(db.contextTransitions.rows, InWindow(from, to)) == db.contextTransitions.rows
    ensures b.transitions == SortByTs(db.transitions.rows) && b.contextTransitions == SortByTs(db.contextTransitions.rows)
    ensures b.journal == EventsFor(db.journal.rows, Ids(b.transitions))
    ensures b.contextJournal == EventsFor(db.contextJournal.rows, Ids(b.contextTransitions))
  {
    ExportParts(db, from, to, device, b, false, summaryOk);
    UntruncatedLists(db, from, to, device);
  }

  lemma {:induction false} CoveredIsComplete(db: Db, from: int, to: int, device: Option<string>, b: Bundle, summaryOk: bool)
    requires Linked(db) && AllNumbered(db) && Bounds(db).min == Some(from) && Bounds(db).max == Some(to)
    requires BuildExportBundle(db, from, to, device, false, summaryOk) == Bundled(b)
    requires OnlyDevice(db, device) && b.warnings == []
    ensures Complete(db, b)
  {
    WarnedIsTruncated(db, from, to, device, false, summaryOk);
    CoveredTables(db, from, to, device);
    WholeListings(db, from, to, device, b, summaryOk);
    WholeJournal(db.journal.rows, db.transitions);
    WholeJournal(db.contextJournal.rows, db.contextTransitions);
  }

  lemma {:induction false} SameSize<T>(a: seq<T>, b: seq<T>)
    requires multiset(a) == multiset(b)
    ensures |a| == |b|
  {
    assert |multiset(a)| == |a| && |multiset(b)| == |b|;
  }

  lemma {:induction false} WholeListFits(db: Db, from: int, to: int, device: Option<string>)
    requires |ListTransitions(db, from, to, EXPORT_TRANSITION_LIMIT, device)| == |db.transitions.rows|
    requires |ListContextTransitions(db, from, to, EXPORT_TRANSITION_LIMIT)| == |db.contextTransitions.rows|
    ensures Untruncated(db, from, to, device)
  { }

  lemma {:induction false} AllListed(rows: seq<Row<Sample>>, from: int, to: int, device: Option<string>)
    requires multiset(SortByTs(Select(rows, SampleIn(from, to, device)))) == multiset(rows)
    ensures forall s :: s in rows ==> Matches(device, s.body.device)
  {
    SameMembers(SortByTs(Select(rows, SampleIn(from, to, device))), rows);
    SameMembers(SortByTs(Select(rows, SampleIn(from, to, device))), Select(rows, SampleIn(from, to, device)));
  }

  lemma {:induction false} CompleteIsCovered(db: Db, from: int, to: int, device: Option<string>, b: Bundle, summaryOk: bool)
    requires BuildExportBundle(db, from, to, device, false, summaryOk) == Bundled(b) && Complete(db, b)
    ensures OnlyDevice(db, device) && b.warnings == []
  {
    WarnedIsTruncated(db, from, to, device, false, summaryOk);
    AllListed(db.samples.rows, from, to, device);
    SameSize(b.transitions, db.transitions.rows);
    SameSize(b.contextTransitions, db.contextTransitions.rows);
    WholeListFits(db, from, to, device);
  }

  /** A dump over the time bounds holds every sample, transition, journal event, snapshot, value and context transition
      exactly when it carries no truncation warning and its filter excludes no stored sample. */
  lemma {:induction false} BackupLosesNothing(db: Db, from: int, to: int, device: Option<string>, b: Bundle, summaryOk: bool)
    requires Linked(db) && AllNumbered(db) && Bounds(db).min == Some(from) && Bounds(db).max == Some(to)
    requires BuildExportBundle(db, from, to, device, false, summaryOk) == Bundled(b)
    ensures Complete(db, b) <==> b.warnings == [] && OnlyDevice(db, device)
  {
    if b.warnings == [] && OnlyDevice(db, device) { CoveredIsComplete(db, from, to, device, b, summaryOk); }
    if Complete(db, b) { CompleteIsCovered(db, from, to, device, b, summaryOk); }
  }

  // ---- reset ----

  datatype ResetError = NotConfirmed | BackupConflict | OutputConflict | StillCollecting | Broken

  datatype Outcome = Done(backup: Option<Bundle>) | Failed(error: ResetError)

  /** `existing_bounds` or `dump_range`, then the unbounded export; a store without samples and snapshots has nothing
      to dump. */
  function DumpOf(db: Db, device: Option<string>, summaryOk: bool): Option<Bundle> {
    var bounds := Bounds(db);
    if bounds.min.None? || bounds.max.None? then None else
    var dump := BuildExportBundle(db, bounds.min.value, bounds.max.value, device, false, summaryOk);
    if dump.Bundled? then Some(dump.bundle) else None
  }

  /** In every reachable store: what a dump is worth. */
  lemma {:induction false} DumpIsWorth(db: Db, device: Option<string>, summaryOk: bool)
    requires Linked(db) && AllNumbered(db)
    ensures var backup := DumpOf(db, device, summaryOk);
            if backup.None? then NothingCollected(db)
            else Complete(db, backup.value) <==> backup.value.warnings == [] && OnlyDevice(db, device)
  {
    NoBoundsNoData(db);
    if Bounds(db).min.Some? {
      BoundsCoverEverything(db, Bounds(db).min.value, Bounds(db).max.value);
      BackupLosesNothing(db, Bounds(db).min.value, Bounds(db).max.value, device, DumpOf(db, device, summaryOk).value, summaryOk);
    }
  }

  /** `run_reset`: back up, check that nobody is writing, reset. Other processes may commit between these steps: the
      check finds the database `meanwhile`, the reset finds it `late`. */
  method RunReset(store: Store, yes: bool, noBackup: bool, backupFile: bool, backupDir: bool, meanwhile: Db, late: Db, now: int, summaryOk: bool)
    returns (r: Outcome)
    requires Integrity(meanwhile) && Integrity(late)
    modifies store`db
    ensures var refused := !yes || (noBackup && (backupFile || backupDir)) || (backupFile && backupDir);
            && (r.Done? <==> !refused && Quiet(meanwhile, now, QUIET_MS))
            && store.db == (if refused then old(store.db) else if r.Done? then EMPTY_DB else meanwhile)
    ensures r.Done? ==> r.backup == if noBackup then None else DumpOf(old(store.db), None, summaryOk)
    ensures r == Failed(NotConfirmed) <==> !yes
    ensures r == Failed(BackupConflict) <==> yes && noBackup && (backupFile || backupDir)
    ensures r == Failed(OutputConflict) <==> yes && !noBackup && backupFile && backupDir
  {
    if !yes {
      return Failed(NotConfirmed);
    }
    if noBackup && (backupFile || backupDir) {
      return Failed(BackupConflict);
    }
    var backup: Option<Bundle> := None;
    if !noBackup {
      if backupFile && backupDir {
        return Failed(OutputConflict);
      }
      backup := DumpOf(store.db, None, summaryOk);
    }
    store.db := meanwhile;
    if !Quiet(store.db, now, QUIET_MS) {
      return Failed(StillCollecting);
    }
    store.db := late;
    var reset := store.ResetDataCollection();
    r := Done(backup);
  }

  /** The store of a fresh capture: its start marker and the machine's inventory, both under id 1. */
  function CaptureStart(startedAt: int, issue: string, collectedAt: int, info: string): Db {
    EMPTY_DB.(markers := Table([Row(1, startedAt, Marker("capture_start", Some(issue)))], 1),
             systemInfo := Table([Row(1, collectedAt, info)], 1))
  }

  /** The writing part: reset, mark the start, record the machine. */
  method StartCapture(store: Store, startedAt: int, issue: string, collectedAt: int, info: string) returns (ok: bool)
    requires Integrity(store.db)
    modifies store
    ensures ok <==> old(store.quota) >= 2
    ensures ok ==> store.db == CaptureStart(startedAt, issue, collectedAt, info)
    ensures !ok ==> store.db == if old(store.quota) == 0 then EMPTY_DB
                                else EMPTY_DB.(markers := CaptureStart(startedAt, issue, collectedAt, info).markers)
  {
    var reset := store.ResetDataCollection();
    var marker := store.InsertCaptureMarker(startedAt, Marker("capture_start", Some(issue)));
    if marker.Err? {
      return false;
    }
    var inventory := store.InsertSystemInfoSnapshot(collectedAt, info);
    ok := inventory.Ok?;
  }

  /** The part of `run_capture` before collection: check for writers, dump under the capture's device filter, reset,
      mark the start, record the machine. The dump finds the database `meanwhile`, the reset finds it `late`. */
  method BeginCapture(store: Store, now: int, device: Option<string>, skipBackup: bool, meanwhile: Db, late: Db, summaryOk: bool,
                      startedAt: int, issue: string, collectedAt: int, info: string)
    returns (r: Outcome)
    requires Integrity(meanwhile) && Integrity(late)
    modifies store
    ensures r.Done? <==> Quiet(old(store.db), now, QUIET_MS) && old(store.quota) >= 2
    ensures r.Done? ==> store.db == CaptureStart(startedAt, issue, collectedAt, info)
    ensures !Quiet(old(store.db), now, QUIET_MS) ==> store.db == old(store.db)
    ensures r.Done? ==> r.backup == if skipBackup then None else DumpOf(meanwhile, device, summaryOk)
    ensures r == Failed(Broken) <==> Quiet(old(store.db), now, QUIET_MS) && old(store.quota) < 2
  {
    if !Quiet(store.db, now, QUIET_MS) {
      return Failed(StillCollecting);
    }
    store.db := meanwhile;
    var backup: Option<Bundle> := None;
    if !skipBackup {
      backup := DumpOf(store.db, device, summaryOk);
    }
    store.db := late;
    var started := StartCapture(store, startedAt, issue, collectedAt, info);
    if !started {
      return Failed(Broken);
    }
    r := Done(backup);
  }

  /** In every reachable store, whatever was interleaved, failed, pruned or reset before. */
  lemma {:induction false} ReachableBackup(names: BitNames, policies: map<string, Context.Policy>, events: seq<Event>, device: Option<string>, summaryOk: bool)
    ensures var db := Run(names, policies, INITIAL, events).db;
            var backup := DumpOf(db, device, summaryOk);
            if backup.None? then NothingCollected(db)
            else Complete(db, backup.value) <==> backup.value.warnings == [] && OnlyDevice(db, device)
  {
    ReachableInv(names, policies, events);
    DumpIsWorth(Run(names, policies, INITIAL, events).db, device, summaryOk);
  }
}

/** Backups while others write: exactly when the dump taken before a reset holds everything the reset deletes. */
module BackupRuns {
  import opened Rows
  import opened Throttle
  import opened Database
  import opened Retention
  import opened Export
  import opened Collector
  import opened Growth
  import opened Invariants
  import opened Backup
  import opened Scenarios

  /** The bundle holds every telemetry row of the store. */
  ghost predicate Holds(b: Bundle, db: Db) {
    && (forall r :: r in db.samples.rows ==> r in b.samples)
    && (forall r :: r in db.transitions.rows ==> r in b.transitions)
    && (forall r :: r in db.journal.rows ==> r in b.journal)
    && (forall r :: r in db.snapshots.rows ==> r in b.snapshots)
    && (forall r :: r in db.values.rows ==> r in b.values)
    && (forall r :: r in db.contextTransitions.rows ==> r in b.contextTransitions)
    && (forall r :: r in db.contextJournal.rows ==> r in b.contextJournal)
  }

  /** What a reset of the store deletes is in the backup; without one there is nothing to delete. */
  ghost predicate Saved(backup: Option<Bundle>, db: Db) {
    if backup.None? then NothingCollected(db) else Holds(backup.value, db)
  }

  /** No row was numbered after the table's earlier state. */
  predicate NothingAdded<T(==)>(before: Table<T>, after: Table<T>) {
    forall r :: r in after.rows ==> r.id <= before.sequence
  }

  /** No sample, snapshot, or row that carries the time of one. */
  predicate NoTicksAdded(before: Db, after: Db) {
    && NothingAdded(before.samples, after.samples) && NothingAdded(before.transitions, after.transitions)
    && NothingAdded(before.snapshots, after.snapshots) && NothingAdded(before.values, after.values)
    && NothingAdded(before.contextTransitions, after.contextTransitions)
  }

  predicate NoEventsAdded(before: Db, after: Db) {
    NothingAdded(before.journal, after.journal) && NothingAdded(before.contextJournal, after.contextJournal)
  }

  /** A complete copy of a table holds what became of it exactly when nothing was added that is still there. */
  lemma {:induction false} CopyHolds<T(!new)>(before: Table<T>, after: Table<T>, copy: seq<Row<T>>)
    requires Numbered(before) && Grown(before, after, None) && multiset(copy) == multiset(before.rows)
    ensures (forall r :: r in after.rows ==> r in copy) <==> NothingAdded(before, after)
  {
    SameMembers(copy, before.rows);
  }

  ghost predicate CompleteBackup(db: Db, backup: Option<Bundle>) {
    if backup.None? then NothingCollected(db) else Complete(db, backup.value)
  }

  lemma {:induction false} CompleteBundleHolds(before: Db, after: Db, b: Bundle, since: Option<int>)
    requires AllNumbered(before) && GrownDb(before, after, since) && Complete(before, b)
    ensures Holds(b, after) <==> NoTicksAdded(before, after) && NoEventsAdded(before, after)
  {
    CopyHolds(before.samples, after.samples, b.samples);
    CopyHolds(before.transitions, after.transitions, b.transitions);
    CopyHolds(before.journal, after.journal, b.journal);
    CopyHolds(before.snapshots, after.snapshots, b.snapshots);
    CopyHolds(before.values, after.values, b.values);
    CopyHolds(before.contextTransitions, after.contextTransitions, b.contextTransitions);
    CopyHolds(before.contextJournal, after.contextJournal, b.contextJournal);
  }

  /** From nothing, only what is added is there. */
  lemma {:induction false} NothingHolds<T>(before: Table<T>, after: Table<T>)
    requires before.rows == [] && Grown(before, after, None)
    ensures after.rows == [] <==> NothingAdded(before, after)
  {
    assert after.rows != [] ==> after.rows[0] in after.rows;
  }

  lemma {:induction false} NoBundleHolds(before: Db, after: Db, since: Option<int>)
    requires GrownDb(before, after, since) && NothingCollected(before)
    ensures NothingCollected(after) <==> NoTicksAdded(before, after) && NoEventsAdded(before, after)
  {
    NothingHolds(before.samples, after.samples);
    NothingHolds(before.transitions, after.transitions);
    NothingHolds(before.journal, after.journal);
    NothingHolds(before.snapshots, after.snapshots);
    NothingHolds(before.values, after.values);
    NothingHolds(before.contextTransitions, after.contextTransitions);
    NothingHolds(before.contextJournal, after.contextJournal);
  }

  lemma {:induction false} SavedExactly(before: Db, after: Db, backup: Option<Bundle>, since: Option<int>)
    requires AllNumbered(before) && GrownDb(before, after, since) && CompleteBackup(before, backup)
    ensures Saved(backup, after) <==> NoTicksAdded(before, after) && NoEventsAdded(before, after)
  {
    if backup.None? { NoBundleHolds(before, after, since); } else { CompleteBundleHolds(before, after, backup.value, since); }
  }

  /** The exact condition, over every reachable store and everything others do between a complete dump and the reset
      other than resetting themselves: the reset loses nothing if and only if no table holds a row numbered since. */
  lemma {:induction false} BackupUnderWriters(names: BitNames, policies: map<string, Context.Policy>, before: seq<Event>, mid: seq<Event>,
                                              device: Option<string>, summaryOk: bool)
    requires var db, backup := Run(names, policies, INITIAL, before).db, DumpOf(Run(names, policies, INITIAL, before).db, device, summaryOk);
             Resets(mid) == 0 && (backup.Some? ==> backup.value.warnings == [] && OnlyDevice(db, device))
    ensures var dumped, found := Run(names, policies, INITIAL, before).db, Run(names, policies, INITIAL, before + mid).db;
            Saved(DumpOf(dumped, device, summaryOk), found) <==> NoTicksAdded(dumped, found) && NoEventsAdded(dumped, found)
  {
    var st := Run(names, policies, INITIAL, before);
    ReachableInv(names, policies, before);
    DumpIsWorth(st.db, device, summaryOk);
    RunAppend(names, policies, INITIAL, before, mid);
    RunGrows(names, policies, st, mid, None);
    SavedExactly(st.db, Run(names, policies, st, mid).db, DumpOf(st.db, device, summaryOk), None);
  }

  // ---- what a check after the dump adds ----

  lemma {:induction false} QuietIsOld(db: Db, now: int)
    requires Quiet(db, now, QUIET_MS)
    ensures forall s :: s in db.samples.rows ==> s.ts <= now - QUIET_MS
    ensures forall s :: s in db.snapshots.rows ==> s.ts <= now - QUIET_MS
  {
    BoundsOfRows(db.samples.rows);
    BoundsOfRows(db.snapshots.rows);
  }

  /** A passing check leaves no row of a current tick in any table, since children carry their parent's time. */
  lemma {:induction false} WritersAreNoticed(before: Db, after: Db, now: int)
    requires Linked(after) && AllNumbered(before) && GrownDb(before, after, Some(now - QUIET_MS)) && Quiet(after, now, QUIET_MS)
    ensures NoTicksAdded(before, after)
  {
    QuietIsOld(after, now);
    forall t | t in after.transitions.rows ensures t.ts <= now - QUIET_MS { assert SampleOf(after, t); }
    forall v | v in after.values.rows ensures v.ts <= now - QUIET_MS { assert SnapshotOf(after, v.body.snapshotId, v.ts); }
    forall t | t in after.contextTransitions.rows ensures t.ts <= now - QUIET_MS { assert SnapshotOf(after, t.body.snapshotId, t.ts); }
  }

  lemma {:induction false} AddedSince(before: Db, checked: Db, found: Db)
    requires AllNumbered(before) && NoTicksAdded(before, checked) && GrownDb(before, checked, None) && GrownDb(checked, found, None)
    ensures NoTicksAdded(before, found) <==> NoTicksAdded(checked, found)
  { }

  lemma {:induction false} CheckedRun(names: BitNames, policies: map<string, Context.Policy>, before: seq<Event>, mid: seq<Event>, late: seq<Event>, now: int)
    requires Resets(mid) == 0 && Resets(late) == 0 && forall e :: e in mid ==> Later(e, now - QUIET_MS)
    requires Quiet(Run(names, policies, INITIAL, before + mid).db, now, QUIET_MS)
    ensures var dumped, checked := Run(names, policies, INITIAL, before).db, Run(names, policies, INITIAL, before + mid).db;
            var found := Run(names, policies, INITIAL, before + mid + late).db;
            NoTicksAdded(dumped, found) <==> NoTicksAdded(checked, found)
  {
    var st, checked := Run(names, policies, INITIAL, before), Run(names, policies, INITIAL, before + mid);
    RunAppend(names, policies, INITIAL, before, mid);
    RunAppend(names, policies, INITIAL, before + mid, late);
    RunGrows(names, policies, st, mid, None);
    RunGrows(names, policies, st, mid, Some(now - QUIET_MS));
    RunGrows(names, policies, checked, late, None);
    ReachableInv(names, policies, before);
    ReachableInv(names, policies, before + mid);
    WritersAreNoticed(st.db, checked.db, now);
    AddedSince(st.db, checked.db, Run(names, policies, checked, late).db);
  }

  lemma {:induction false} BackupUnderBoth(names: BitNames, policies: map<string, Context.Policy>, before: seq<Event>, mid: seq<Event>, late: seq<Event>, summaryOk: bool)
    requires Resets(mid) == 0 && Resets(late) == 0
    requires var backup := DumpOf(Run(names, policies, INITIAL, before).db, None, summaryOk); backup.Some? ==> backup.value.warnings == []
    ensures var dumped, found := Run(names, policies, INITIAL, before).db, Run(names, policies, INITIAL, before + mid + late).db;
            Saved(DumpOf(dumped, None, summaryOk), found) <==> NoTicksAdded(dumped, found) && NoEventsAdded(dumped, found)
  {
    SelectAppend(mid, late, IsReset);
    assert before + mid + late == before + (mid + late);
    BackupUnderWriters(names, policies, before, mid + late, None, summaryOk);
  }

  /** `run_reset`, whose check follows its dump: if the collector's clock is not behind and the check passes, what can be
      lost is what is stored between check and reset, and journal events stored since the dump. */
  lemma {:induction false} ResetUnderWriters(names: BitNames, policies: map<string, Context.Policy>, before: seq<Event>, mid: seq<Event>, late: seq<Event>,
                                             now: int, summaryOk: bool)
    requires var backup := DumpOf(Run(names, policies, INITIAL, before).db, None, summaryOk);
             Resets(mid) == 0 && Resets(late) == 0 && (backup.Some? ==> backup.value.warnings == [])
    requires forall e :: e in mid ==> Later(e, now - QUIET_MS)
    requires Quiet(Run(names, policies, INITIAL, before + mid).db, now, QUIET_MS)
    ensures var dumped, checked := Run(names, policies, INITIAL, before).db, Run(names, policies, INITIAL, before + mid).db;
            var found := Run(names, policies, INITIAL, before + mid + late).db;
            Saved(DumpOf(dumped, None, summaryOk), found) <==> NoTicksAdded(checked, found) && NoEventsAdded(dumped, found)
  {
    CheckedRun(names, policies, before, mid, late, now);
    BackupUnderBoth(names, policies, before, mid, late, summaryOk);
  }

  // ---- both orders lose something ----

  /** Two readings are dumped whole. */
  lemma {:induction false} TwoReadingsAreSaved(policies: map<string, Context.Policy>, ts: int, summaryOk: bool) returns (b: Bundle)
    ensures DumpOf(AfterTwo(ONE_BIT, ts).db, None, summaryOk) == Some(b) && Complete(AfterTwo(ONE_BIT, ts).db, b) && b.warnings == []
  {
    var db := AfterTwo(ONE_BIT, ts).db;
    RunTwoReadings(policies, ts);
    ReachableInv(ONE_BIT, policies, TwoReadings(ts));
    DumpIsWorth(db, None, summaryOk);
    b := DumpOf(db, None, summaryOk).value;
    WarnedIsTruncated(db, Bounds(db).min.value, Bounds(db).max.value, None, false, summaryOk);
  }

  lemma {:induction false} SampleIsLost(dumped: Db, found: Db, b: Bundle, s: Row<Sample>)
    requires Complete(dumped, b) && s in found.samples.rows && s !in dumped.samples.rows
    ensures !Holds(b, found)
  {
    SameMembers(b.samples, dumped.samples.rows);
  }

  lemma {:induction false} EventIsLost(dumped: Db, found: Db, b: Bundle, e: Row<JournalEvent>)
    requires Complete(dumped, b) && e in found.journal.rows && e !in dumped.journal.rows
    ensures !Holds(b, found)
  {
    SameMembers(b.journal, dumped.journal.rows);
  }

  function ThirdRow(names: BitNames, now: int): Row<Sample> {
    Row(3, now, SampleFor(names, At(now, 0)))
  }

  lemma {:induction false} ThirdIsStored(policies: map<string, Context.Policy>, ts: int, now: int)
    ensures ThirdRow(ONE_BIT, now) in Run(ONE_BIT, policies, INITIAL, TwoReadings(ts) + [StoreReading(At(now, 0), 9)]).db.samples.rows
    ensures ThirdRow(ONE_BIT, now) !in AfterTwo(ONE_BIT, ts).db.samples.rows
  {
    RunTwoReadings(policies, ts);
    RunPush(ONE_BIT, policies, INITIAL, TwoReadings(ts), StoreReading(At(now, 0), 9));
    StoreOne(AfterTwo(ONE_BIT, ts), now, 0);
    var found := Run(ONE_BIT, policies, INITIAL, TwoReadings(ts) + [StoreReading(At(now, 0), 9)]).db;
    assert found.samples.rows == AfterTwo(ONE_BIT, ts).db.samples.rows + [ThirdRow(ONE_BIT, now)];
  }

  lemma {:induction false} CurrentIsNotQuiet(db: Db, s: Row<Sample>, now: int)
    requires s in db.samples.rows && s.ts > now - QUIET_MS
    ensures !Quiet(db, now, QUIET_MS)
  {
    if Quiet(db, now, QUIET_MS) { QuietIsOld(db, now); }
  }

  /** A capture's check passes, its dump is complete, and a reading stored before the reset is lost. The same check after
      the dump would have noticed it. */
  lemma {:induction false} CaptureLosesReading(policies: map<string, Context.Policy>, ts: int, now: int, summaryOk: bool) returns (b: Bundle)
    requires now - (ts + 1) >= QUIET_MS
    ensures var dumped := Run(ONE_BIT, policies, INITIAL, TwoReadings(ts)).db;
            var found := Run(ONE_BIT, policies, INITIAL, TwoReadings(ts) + [StoreReading(At(now, 0), 9)]).db;
            && Quiet(dumped, now, QUIET_MS) && DumpOf(dumped, None, summaryOk) == Some(b) && Complete(dumped, b)
            && ThirdRow(ONE_BIT, now) in found.samples.rows && !Holds(b, found) && !Quiet(found, now, QUIET_MS)
  {
    var s, found := ThirdRow(ONE_BIT, now), Run(ONE_BIT, policies, INITIAL, TwoReadings(ts) + [StoreReading(At(now, 0), 9)]).db;
    RunTwoReadings(policies, ts);
    TwoReadingsAreQuiet(ts, now);
    b := TwoReadingsAreSaved(policies, ts, summaryOk);
    ThirdIsStored(policies, ts, now);
    SampleIsLost(AfterTwo(ONE_BIT, ts).db, found, b, s);
    CurrentIsNotQuiet(found, s, now);
  }

  lemma {:induction false} QuietAlike(a: Db, b: Db, now: int)
    requires a.samples == b.samples && a.snapshots == b.snapshots
    ensures Quiet(a, now, QUIET_MS) <==> Quiet(b, now, QUIET_MS)
  { }

  /** A reset's dump is complete, its check passes, and a journal event that arrived between them is lost: an event
      leaves samples and snapshots alone. */
  lemma {:induction false} ResetLosesEvent(policies: map<string, Context.Policy>, ts: int, now: int, summaryOk: bool) returns (b: Bundle)
    requires now - (ts + 1) >= QUIET_MS
    ensures var dumped := Run(ONE_BIT, policies, INITIAL, TwoReadings(ts)).db;
            var found := Run(ONE_BIT, policies, INITIAL, TwoReadings(ts) + [Deliver(0, now, "throttled")]).db;
            && DumpOf(dumped, None, summaryOk) == Some(b) && Complete(dumped, b) && Quiet(found, now, QUIET_MS)
            && found.journal.rows == [Row(1, now, JournalEvent(1, "throttled"))] && !Holds(b, found)
  {
    var st, e := AfterTwo(ONE_BIT, ts), Row(1, now, JournalEvent(1, "throttled"));
    var found := st.db.(journal := Table([e], 1));
    RunTwoReadings(policies, ts);
    RunPush(ONE_BIT, policies, INITIAL, TwoReadings(ts), Deliver(0, now, "throttled"));
    DeliverFirst(policies, st, now, "throttled");
    TwoReadingsAreQuiet(ts, now);
    QuietAlike(st.db, found, now);
    b := TwoReadingsAreSaved(policies, ts, summaryOk);
    assert found.journal.rows[0] == e;
    EventIsLost(st.db, found, b, e);
  }
}

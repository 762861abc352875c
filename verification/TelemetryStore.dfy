/** The store object: inserts that may fail, and the two transactions that delete rows. */
module TelemetryStore {
  import opened Rows
  import opened Database
  import opened Retention

  datatype Error = Unavailable | ForeignKey

  datatype Result<+T> = Ok(value: T) | Err(error: Error) {
    predicate IsFailure() { Err? }
    function PropagateFailure<U>(): Result<U>
      requires Err?
    { Err(error) }
    function Extract(): T
      requires Ok?
    { value }
  }

  datatype PruneStats = PruneStats(
    journal: nat, contextJournal: nat, transitions: nat, contextTransitions: nat, values: nat, snapshots: nat,
    samples: nat, markers: nat, systemInfo: nat)

  /** Rows before = rows after + reported rows, table by table. */
  ghost predicate Balanced(before: Db, after: Db, stats: PruneStats) {
    && |before.journal.rows| == |after.journal.rows| + stats.journal
    && |before.contextJournal.rows| == |after.contextJournal.rows| + stats.contextJournal
    && |before.transitions.rows| == |after.transitions.rows| + stats.transitions
    && |before.contextTransitions.rows| == |after.contextTransitions.rows| + stats.contextTransitions
    && |before.values.rows| == |after.values.rows| + stats.values
    && |before.snapshots.rows| == |after.snapshots.rows| + stats.snapshots
    && |before.samples.rows| == |after.samples.rows| + stats.samples
    && |before.markers.rows| == |after.markers.rows| + stats.markers
    && |before.systemInfo.rows| == |after.systemInfo.rows| + stats.systemInfo
  }

  /** No row that stays has a parent that goes: what a caller would have to check before pruning. */
  ghost predicate NoStraddlers(db: Db, cutoff: int) {
    && (forall t :: t in db.transitions.rows && t.ts >= cutoff ==> HasId(Delete(db.samples, OlderThan(cutoff)), t.body.sampleId))
    && (forall v :: v in db.values.rows && v.ts >= cutoff ==> HasId(Delete(db.snapshots, OlderThan(cutoff)), v.body.snapshotId))
    && (forall t :: t in db.contextTransitions.rows && t.ts >= cutoff ==> HasId(Delete(db.snapshots, OlderThan(cutoff)), t.body.snapshotId))
  }

  lemma {:induction false} StraddlersAbort(db: Db, cutoff: int)
    requires Integrity(PruneUpTo(db, cutoff, PRUNE_STATEMENTS))
    ensures NoStraddlers(db, cutoff)
  {
    PruneTables(db, cutoff, PRUNE_STATEMENTS);
    var now := Prune(db, cutoff);
    forall t | t in db.transitions.rows && t.ts >= cutoff ensures t in now.transitions.rows { }
    forall v | v in db.values.rows && v.ts >= cutoff ensures v in now.values.rows { }
    forall t | t in db.contextTransitions.rows && t.ts >= cutoff ensures t in now.contextTransitions.rows { }
  }

  /** Without straddlers every statement of the prune leaves the foreign keys intact, and every journal row whose
      transition goes is gone before it. */
  lemma {:induction false} PruneStaysIntegral(db: Db, cutoff: int, k: nat)
    requires Integrity(db) && NoStraddlers(db, cutoff) && k <= PRUNE_STATEMENTS
    ensures Integrity(PruneUpTo(db, cutoff, k))
  {
    var now := PruneUpTo(db, cutoff, k);
    PruneTables(db, cutoff, k);
    forall e | e in now.journal.rows ensures HasId(now.transitions, e.body.transitionId) {
      if k > 2 { SurvivingParent(db.transitions, cutoff, e.body.transitionId); }
    }
    forall e | e in now.contextJournal.rows ensures HasId(now.contextTransitions, e.body.transitionId) {
      if k > 3 { SurvivingParent(db.contextTransitions, cutoff, e.body.transitionId); }
    }
  }

  /** Linked rows never straddle a cutoff. */
  lemma {:induction false} LinkedHasNoStraddlers(db: Db, cutoff: int)
    requires Linked(db)
    ensures NoStraddlers(db, cutoff)
  {
    PruneStaysLinked(db, cutoff, PRUNE_STATEMENTS);
    LinkedIsIntegral(Prune(db, cutoff));
    StraddlersAbort(db, cutoff);
  }

  lemma {:induction false} ResetStaysIntegral(db: Db, k: nat)
    requires Integrity(db) && k <= RESET_STATEMENTS
    ensures Integrity(ResetUpTo(db, k))
    ensures k == RESET_STATEMENTS ==> ResetUpTo(db, k) == EMPTY_DB
  {
    ResetTables(db, if k == RESET_STATEMENTS then k - 1 else k);
  }

  /** How many rows each DELETE's condition matches. */
  function Stats(db: Db, cutoff: int): PruneStats {
    PruneStats(
      |Select(db.journal.rows, ChildOf(OldIds(db.transitions, cutoff)))|,
      |Select(db.contextJournal.rows, ChildOf(OldIds(db.contextTransitions, cutoff)))|,
      |Select(db.transitions.rows, OlderThan(cutoff))|,
      |Select(db.contextTransitions.rows, OlderThan(cutoff))|,
      |Select(db.values.rows, OlderThan(cutoff))|,
      |Select(db.snapshots.rows, OlderThan(cutoff))|,
      |Select(db.samples.rows, OlderThan(cutoff))|,
      |Select(db.markers.rows, OlderThan(cutoff))|,
      |Select(db.systemInfo.rows, OutdatedInfo(db.systemInfo.rows, cutoff))|)
  }

  /** The rows the k-th DELETE of a prune removes. */
  function Affected(db: Db, cutoff: int, k: nat): nat
    requires k < PRUNE_STATEMENTS
  {
    var stats := Stats(db, cutoff);
    match k
    case 0 => stats.journal
    case 1 => stats.contextJournal
    case 2 => stats.transitions
    case 3 => stats.contextTransitions
    case 4 => stats.values
    case 5 => stats.snapshots
    case 6 => stats.samples
    case 7 => stats.markers
    case _ => stats.systemInfo
  }

  lemma {:induction false} DeleteBalance<T>(t: Table<T>, drop: Row<T> -> bool)
    ensures |t.rows| == |Delete(t, drop).rows| + |Select(t.rows, drop)|
  {
    SelectPartition(t.rows, drop);
  }

  lemma {:induction false} StatementBalance(db: Db, cutoff: int)
    ensures Balanced(db, Prune(db, cutoff), Stats(db, cutoff))
  {
    PruneTables(db, cutoff, PRUNE_STATEMENTS);
    DeleteBalance(db.journal, ChildOf(OldIds(db.transitions, cutoff)));
    DeleteBalance(db.contextJournal, ChildOf(OldIds(db.contextTransitions, cutoff)));
    DeleteBalance(db.transitions, OlderThan(cutoff));
    DeleteBalance(db.contextTransitions, OlderThan(cutoff));
    DeleteBalance(db.values, OlderThan(cutoff));
    DeleteBalance(db.snapshots, OlderThan(cutoff));
    DeleteBalance(db.samples, OlderThan(cutoff));
    DeleteBalance(db.markers, OlderThan(cutoff));
    DeleteBalance(db.systemInfo, OutdatedInfo(db.systemInfo.rows, cutoff));
  }

  /** Nothing an earlier statement did changes what the k-th one removes. */
  lemma {:induction false} AffectedInTransaction(db: Db, cutoff: int, k: nat)
    requires k < PRUNE_STATEMENTS
    ensures Affected(PruneUpTo(db, cutoff, k), cutoff, k) == Affected(db, cutoff, k)
  {
    PruneTables(db, cutoff, k);
    var now := PruneUpTo(db, cutoff, k);
    assert k <= 0 ==> now.journal == db.journal;
    assert k <= 1 ==> now.contextJournal == db.contextJournal;
    assert k <= 2 ==> now.transitions == db.transitions;
    assert k <= 3 ==> now.contextTransitions == db.contextTransitions;
    assert k <= 4 ==> now.values == db.values;
    assert k <= 5 ==> now.snapshots == db.snapshots;
    assert k <= 6 ==> now.samples == db.samples;
    assert k <= 7 ==> now.markers == db.markers;
    assert now.systemInfo == db.systemInfo;
  }

  class Store {
    var db: Db
    /** How many more INSERTs succeed before the database reports an error. */
    var quota: nat

    constructor (quota: nat)
      ensures db == EMPTY_DB && this.quota == quota
    {
      db := EMPTY_DB;
      this.quota := quota;
    }

    method InsertSample(ts: int, s: Sample) returns (r: Result<int>)
      modifies this
      ensures r == if old(quota) > 0 then Ok(old(db).samples.sequence + 1) else Err(Unavailable)
      ensures db == if r.Ok? then old(db).(samples := Insert(old(db).samples, ts, s)) else old(db)
      ensures quota == if r.Ok? then old(quota) - 1 else old(quota)
      ensures old(Integrity(db)) ==> Integrity(db)
    {
      if quota == 0 {
        return Err(Unavailable);
      }
      db := db.(samples := Insert(db.samples, ts, s));
      quota := quota - 1;
      r := Ok(db.samples.sequence);
    }

    method InsertTransition(ts: int, t: Database.Transition) returns (r: Result<int>)
      modifies this
      ensures r == if old(quota) == 0 then Err(Unavailable)
                   else if HasId(old(db).samples, t.sampleId) then Ok(old(db).transitions.sequence + 1) else Err(ForeignKey)
      ensures db == if r.Ok? then old(db).(transitions := Insert(old(db).transitions, ts, t)) else old(db)
      ensures quota == if r.Ok? then old(quota) - 1 else old(quota)
      ensures old(Integrity(db)) ==> Integrity(db)
    {
      if quota == 0 {
        return Err(Unavailable);
      }
      var next := Database.InsertTransition(db, ts, t);
      if next.None? {
        return Err(ForeignKey);
      }
      db := next.value;
      quota := quota - 1;
      r := Ok(db.transitions.sequence);
    }

    method InsertContextSnapshot(ts: int, s: SnapshotRow) returns (r: Result<int>)
      modifies this
      ensures r == if old(quota) > 0 then Ok(old(db).snapshots.sequence + 1) else Err(Unavailable)
      ensures db == if r.Ok? then old(db).(snapshots := Insert(old(db).snapshots, ts, s)) else old(db)
      ensures quota == if r.Ok? then old(quota) - 1 else old(quota)
      ensures old(Integrity(db)) ==> Integrity(db)
    {
      if quota == 0 {
        return Err(Unavailable);
      }
      db := db.(snapshots := Insert(db.snapshots, ts, s));
      quota := quota - 1;
      r := Ok(db.snapshots.sequence);
    }

    method InsertContextValue(ts: int, v: ValueRow) returns (r: Result<int>)
      modifies this
      ensures r == if old(quota) == 0 then Err(Unavailable)
                   else if HasId(old(db).snapshots, v.snapshotId) then Ok(old(db).values.sequence + 1) else Err(ForeignKey)
      ensures db == if r.Ok? then old(db).(values := Insert(old(db).values, ts, v)) else old(db)
      ensures quota == if r.Ok? then old(quota) - 1 else old(quota)
      ensures old(Integrity(db)) ==> Integrity(db)
    {
      if quota == 0 {
        return Err(Unavailable);
      }
      var next := Database.InsertContextValue(db, ts, v);
      if next.None? {
        return Err(ForeignKey);
      }
      db := next.value;
      quota := quota - 1;
      r := Ok(db.values.sequence);
    }

    method InsertContextTransition(ts: int, t: Database.ContextTransition) returns (r: Result<int>)
      modifies this
      ensures r == if old(quota) == 0 then Err(Unavailable)
                   else if HasId(old(db).snapshots, t.snapshotId) then Ok(old(db).contextTransitions.sequence + 1) else Err(ForeignKey)
      ensures db == if r.Ok? then old(db).(contextTransitions := Insert(old(db).contextTransitions, ts, t)) else old(db)
      ensures quota == if r.Ok? then old(quota) - 1 else old(quota)
      ensures old(Integrity(db)) ==> Integrity(db)
    {
      if quota == 0 {
        return Err(Unavailable);
      }
      var next := Database.InsertContextTransition(db, ts, t);
      if next.None? {
        return Err(ForeignKey);
      }
      db := next.value;
      quota := quota - 1;
      r := Ok(db.contextTransitions.sequence);
    }

    method InsertJournalEvent(ts: int, e: Database.JournalEvent) returns (r: Result<()>)
      modifies this
      ensures r == if old(quota) == 0 then Err(Unavailable)
                   else if HasId(old(db).transitions, e.transitionId) then Ok(()) else Err(ForeignKey)
      ensures db == if r.Ok? then old(db).(journal := Insert(old(db).journal, ts, e)) else old(db)
      ensures quota == if r.Ok? then old(quota) - 1 else old(quota)
      ensures old(Integrity(db)) ==> Integrity(db)
    {
      if quota == 0 {
        return Err(Unavailable);
      }
      var next := Database.InsertJournalEvent(db, ts, e);
      if next.None? {
        return Err(ForeignKey);
      }
      db := next.value;
      quota := quota - 1;
      r := Ok(());
    }

    method InsertContextJournalEvent(ts: int, e: Database.JournalEvent) returns (r: Result<()>)
      modifies this
      ensures r == if old(quota) == 0 then Err(Unavailable)
                   else if HasId(old(db).contextTransitions, e.transitionId) then Ok(()) else Err(ForeignKey)
      ensures db == if r.Ok? then old(db).(contextJournal := Insert(old(db).contextJournal, ts, e)) else old(db)
      ensures quota == if r.Ok? then old(quota) - 1 else old(quota)
      ensures old(Integrity(db)) ==> Integrity(db)
    {
      if quota == 0 {
        return Err(Unavailable);
      }
      var next := Database.InsertContextJournalEvent(db, ts, e);
      if next.None? {
        return Err(ForeignKey);
      }
      db := next.value;
      quota := quota - 1;
      r := Ok(());
    }

    method InsertCaptureMarker(ts: int, m: Marker) returns (r: Result<int>)
      modifies this
      ensures r == if old(quota) > 0 then Ok(old(db).markers.sequence + 1) else Err(Unavailable)
      ensures db == if r.Ok? then old(db).(markers := Insert(old(db).markers, ts, m)) else old(db)
      ensures quota == if r.Ok? then old(quota) - 1 else old(quota)
      ensures old(Integrity(db)) ==> Integrity(db)
    {
      if quota == 0 {
        return Err(Unavailable);
      }
      db := db.(markers := Insert(db.markers, ts, m));
      quota := quota - 1;
      r := Ok(db.markers.sequence);
    }

    method InsertSystemInfoSnapshot(collectedAt: int, info: string) returns (r: Result<int>)
      modifies this
      ensures r == if old(quota) > 0 then Ok(old(db).systemInfo.sequence + 1) else Err(Unavailable)
      ensures db == if r.Ok? then old(db).(systemInfo := Insert(old(db).systemInfo, collectedAt, info)) else old(db)
      ensures quota == if r.Ok? then old(quota) - 1 else old(quota)
      ensures old(Integrity(db)) ==> Integrity(db)
    {
      if quota == 0 {
        return Err(Unavailable);
      }
      db := db.(systemInfo := Insert(db.systemInfo, collectedAt, info));
      quota := quota - 1;
      r := Ok(db.systemInfo.sequence);
    }

    /** One DELETE inside the prune's transaction: refused when it would leave a dangling row. */
    method Execute(ghost start: Db, tx: Db, cutoff: int, k: nat) returns (r: Result<(Db, nat)>)
      requires k < PRUNE_STATEMENTS && Integrity(start) && tx == PruneUpTo(start, cutoff, k)
      ensures r.Ok? ==> r.value == (PruneUpTo(start, cutoff, k + 1), Affected(start, cutoff, k)) && Integrity(r.value.0)
      ensures r.Err? ==> !NoStraddlers(start, cutoff)
    {
      var after, affected := PruneStatement(tx, cutoff, k), Affected(tx, cutoff, k);
      AffectedInTransaction(start, cutoff, k);
      if !Integrity(after) {
        if NoStraddlers(start, cutoff) { PruneStaysIntegral(start, cutoff, k + 1); }
        return Err(ForeignKey);
      }
      r := Ok((after, affected));
    }

    /** The nine DELETEs in one transaction; an error rolls everything back. */
    method PruneOlderThan(cutoff: int) returns (r: Result<PruneStats>)
      requires Integrity(db)
      modifies this`db
      ensures Integrity(db)
      ensures r.Ok? <==> NoStraddlers(old(db), cutoff)
      ensures r.Ok? ==> db == Prune(old(db), cutoff) && Balanced(old(db), db, r.value)
      ensures r.Err? ==> db == old(db)
    {
      ghost var start := db;
      var journal :- Execute(start, db, cutoff, 0);
      var contextJournal :- Execute(start, journal.0, cutoff, 1);
      var transitions :- Execute(start, contextJournal.0, cutoff, 2);
      var contextTransitions :- Execute(start, transitions.0, cutoff, 3);
      var values :- Execute(start, contextTransitions.0, cutoff, 4);
      var snapshots :- Execute(start, values.0, cutoff, 5);
      var samples :- Execute(start, snapshots.0, cutoff, 6);
      var markers :- Execute(start, samples.0, cutoff, 7);
      var systemInfo :- Execute(start, markers.0, cutoff, 8);
      StraddlersAbort(start, cutoff);
      StatementBalance(start, cutoff);
      db := systemInfo.0;
      r := Ok(PruneStats(journal.1, contextJournal.1, transitions.1, contextTransitions.1, values.1, snapshots.1,
                         samples.1, markers.1, systemInfo.1));
    }

    /** Every table emptied, children first, and the id sequences cleared. */
    method ResetDataCollection() returns (r: Result<()>)
      requires Integrity(db)
      modifies this`db
      ensures r.Ok? && db == EMPTY_DB
    {
      var tx := db;
      for k := 0 to RESET_STATEMENTS
        invariant tx == ResetUpTo(db, k) && db == old(db)
      {
        tx := ResetStatement(tx, k);
        ResetStaysIntegral(db, k + 1);
        if !Integrity(tx) {
          return Err(ForeignKey);
        }
      }
      ResetStaysIntegral(db, RESET_STATEMENTS);
      db := tx;
      r := Ok(());
    }
  }
}

/** What every reachable state satisfies: numbered tables, linked rows, faithful flag lists, and lookups that can
    only meet the transition that spawned them. */
module Invariants {
  import opened Rows
  import opened Throttle
  import opened Database
  import opened Context
  import opened Retention
  import opened Collector
  import ContextRuns

  /** Every stored sample lists exactly the known flags of its own mask. */
  ghost predicate FlagsFaithful(names: BitNames, db: Db) {
    forall s :: s in db.samples.rows ==> s.body.flags == ActiveFlags(names, MaskOf(s.body))
  }

  /** Within the epoch that spawned it, a lookup's id is used up and at most its own spawner carries it. */
  ghost predicate LookupValid(st: State, l: Lookup) {
    l.epoch <= st.epoch &&
    match l
    case FlagLookup(row, epoch) =>
      epoch == st.epoch ==>
        row.id <= st.db.transitions.sequence && forall t :: t in st.db.transitions.rows && t.id == row.id ==> t == row
    case ContextLookup(row, epoch) =>
      epoch == st.epoch ==>
        row.id <= st.db.contextTransitions.sequence && forall t :: t in st.db.contextTransitions.rows && t.id == row.id ==> t == row
  }

  ghost predicate Inv(names: BitNames, st: State) {
    && AllNumbered(st.db) && Linked(st.db) && FlagsFaithful(names, st.db)
    && (forall l :: l in st.lookups ==> LookupValid(st, l))
  }

  // ---- building blocks ----

  lemma {:induction false} NumberedInsert<T>(t: Table<T>, ts: int, body: T)
    requires Numbered(t)
    ensures Numbered(Insert(t, ts, body))
    ensures Row(t.sequence + 1, ts, body) in Insert(t, ts, body).rows
    ensures forall r :: r in t.rows ==> r in Insert(t, ts, body).rows && r.id != t.sequence + 1
    ensures forall r :: r in Insert(t, ts, body).rows ==> r in t.rows || r == Row(t.sequence + 1, ts, body)
  {
    forall i | 0 <= i < |t.rows| ensures t.rows[i].id <= t.sequence { assert t.rows[i] in t.rows; }
  }

  lemma {:induction false} NumberedDelete<T>(t: Table<T>, drop: Row<T> -> bool)
    requires Numbered(t)
    ensures Numbered(Delete(t, drop))
  {
    SelectAscends(t.rows, Not(drop));
  }

  /** Adding parents never breaks a link, and neither does a child that comes linked. */
  lemma {:induction false} StaysLinked(db: Db, after: Db)
    requires Linked(db)
    requires forall r :: r in db.samples.rows ==> r in after.samples.rows
    requires forall r :: r in db.transitions.rows ==> r in after.transitions.rows
    requires forall r :: r in db.snapshots.rows ==> r in after.snapshots.rows
    requires forall r :: r in db.contextTransitions.rows ==> r in after.contextTransitions.rows
    requires forall t :: t in after.transitions.rows ==> t in db.transitions.rows || SampleOf(after, t)
    requires forall e :: e in after.journal.rows ==> e in db.journal.rows || HasId(db.transitions, e.body.transitionId)
    requires forall v :: v in after.values.rows ==> v in db.values.rows || SnapshotOf(after, v.body.snapshotId, v.ts)
    requires forall t :: t in after.contextTransitions.rows ==> t in db.contextTransitions.rows || SnapshotOf(after, t.body.snapshotId, t.ts)
    requires forall e :: e in after.contextJournal.rows ==> e in db.contextJournal.rows || HasId(db.contextTransitions, e.body.transitionId)
    ensures Linked(after)
  {
    forall t | t in db.transitions.rows ensures SampleOf(after, t) { assert SampleOf(db, t); }
    forall v | v in db.values.rows ensures SnapshotOf(after, v.body.snapshotId, v.ts) { assert SnapshotOf(db, v.body.snapshotId, v.ts); }
    forall t | t in db.contextTransitions.rows ensures SnapshotOf(after, t.body.snapshotId, t.ts) { assert SnapshotOf(db, t.body.snapshotId, t.ts); }
  }

  // ---- tick_gpu ----

  lemma {:induction false} LogChangeKeeps(names: BitNames, st: State, ts: int, t: Transition)
    requires Inv(names, st) && SampleOf(st.db, Row(0, ts, t))
    ensures Inv(names, LogChange(st, ts, t))
  {
    var next := LogChange(st, ts, t);
    NumberedInsert(st.db.transitions, ts, t);
    assert SampleOf(next.db, Row(st.db.transitions.sequence + 1, ts, t));
    StaysLinked(st.db, next.db);
    forall l | l in next.lookups ensures LookupValid(next, l) {
      if l in st.lookups { assert LookupValid(st, l); }
    }
  }

  /** Logging touches the transition table and the lookups, nothing else. */
  lemma {:induction false} LogChangesFrame(st: State, ts: int, sampleId: int, device: string, changes: seq<Throttle.Change>)
    ensures var next := LogChanges(st, ts, sampleId, device, changes);
            next == st.(db := st.db.(transitions := next.db.transitions), lookups := next.lookups)
  {
    if changes != [] { LogChangesFrame(st, ts, sampleId, device, changes[..|changes| - 1]); }
  }

  lemma {:induction false} LogChangesKeep(names: BitNames, st: State, ts: int, sampleId: int, device: string, changes: seq<Throttle.Change>)
    requires Inv(names, st)
    requires exists s :: s in st.db.samples.rows && s.id == sampleId && s.ts == ts && s.body.device == device
    ensures Inv(names, LogChanges(st, ts, sampleId, device, changes))
  {
    if changes != [] {
      var front := changes[..|changes| - 1];
      LogChangesKeep(names, st, ts, sampleId, device, front);
      LogChangesFrame(st, ts, sampleId, device, front);
      var t := TransitionFor(sampleId, device, changes[|changes| - 1]);
      assert SampleOf(LogChanges(st, ts, sampleId, device, front).db, Row(0, ts, t));
      LogChangeKeeps(names, LogChanges(st, ts, sampleId, device, front), ts, t);
    }
  }

  lemma {:induction false} RememberKeeps(names: BitNames, st: State, r: Reading)
    requires Inv(names, st)
    ensures Inv(names, Remember(names, st, r))
  {
    var next := Remember(names, st, r);
    NumberedInsert(st.db.samples, r.ts, SampleFor(names, r));
    MaskRoundTrip(r.mask);
    StaysLinked(st.db, next.db);
    forall l | l in next.lookups ensures LookupValid(next, l) { assert LookupValid(st, l); }
  }

  lemma {:induction false} StoreKeeps(names: BitNames, st: State, r: Reading, quota: nat)
    requires Inv(names, st)
    ensures Inv(names, Store(names, st, r, quota))
  {
    if quota > 0 {
      RememberKeeps(names, st, r);
      NumberedInsert(st.db.samples, r.ts, SampleFor(names, r));
      LogChangesKeep(names, Remember(names, st, r), r.ts, st.db.samples.sequence + 1, r.device,
                     Limit(ChangesFor(names, st.masks, r), quota - 1));
    }
  }

  // ---- tick_context ----

  /** A context tick leaves the GPU side of the state alone. */
  ghost predicate SameGpuSide(a: State, b: State) {
    && a.db.samples == b.db.samples && a.db.transitions == b.db.transitions && a.db.journal == b.db.journal
    && a.masks == b.masks && a.epoch == b.epoch && a.runStart == b.runStart
  }

  lemma {:induction false} StoreValuesKeep(names: BitNames, st: State, id: int, snap: Snapshot, values: seq<ContextValue>, quota: nat)
    requires Inv(names, st) && SnapshotOf(st.db, id, snap.ts)
    ensures Inv(names, StoreValues(st, id, snap, values, quota).0)
    ensures SameGpuSide(st, StoreValues(st, id, snap, values, quota).0)
    ensures StoreValues(st, id, snap, values, quota).0.db.snapshots == st.db.snapshots
    decreases values
  {
    if values != [] && quota > 0 {
      var v := values[0];
      var next := StoreValue(st, id, snap, v);
      NumberedInsert(st.db.values, snap.ts, ValueRow(id, snap.source, FullKey(snap.source, v.key), v.num, v.str));
      assert SnapshotOf(next.db, id, snap.ts);
      StaysLinked(st.db, next.db);
      forall l | l in next.lookups ensures LookupValid(next, l) { assert LookupValid(st, l); }
      StoreValuesKeep(names, next, id, snap, values[1..], quota - 1);
    }
  }

  /** The ids handed to the tick's sources belong to snapshots of the tick's time. */
  ghost predicate IdsStored(db: Db, ids: map<string, int>, ts: int) {
    forall source :: source in ids ==> SnapshotOf(db, ids[source], ts)
  }

  lemma {:induction false} StoreSnapshotKeeps(names: BitNames, st: State, snap: Snapshot)
    requires Inv(names, st)
    ensures Inv(names, StoreSnapshot(st, snap))
    ensures SnapshotOf(StoreSnapshot(st, snap).db, st.db.snapshots.sequence + 1, snap.ts)
    ensures forall s :: s in st.db.snapshots.rows ==> s in StoreSnapshot(st, snap).db.snapshots.rows
  {
    var next := StoreSnapshot(st, snap);
    NumberedInsert(st.db.snapshots, snap.ts, SnapshotRow(snap.source, snap.health));
    StaysLinked(st.db, next.db);
    forall l | l in next.lookups ensures LookupValid(next, l) { assert LookupValid(st, l); }
  }

  /** One snapshot with its values: the ids handed out so far stay stored, its own included. */
  lemma {:induction false} NextIdsStored(st: State, inserted: State, stored: State, ids: map<string, int>, source: string, id: int, ts: int)
    requires IdsStored(st.db, ids, ts) && SnapshotOf(inserted.db, id, ts)
    requires forall s :: s in st.db.snapshots.rows ==> s in inserted.db.snapshots.rows
    requires stored.db.snapshots == inserted.db.snapshots
    ensures IdsStored(stored.db, ids[source := id], ts)
  {
    var nextIds := ids[source := id];
    forall other | other in nextIds ensures SnapshotOf(stored.db, nextIds[other], ts) {
      assert other != source ==> SnapshotOf(st.db, nextIds[other], ts);
      assert SnapshotOf(inserted.db, nextIds[other], ts);
    }
  }

  lemma {:induction false} OneSnapshotKeeps(names: BitNames, st: State, ids: map<string, int>, snap: Snapshot, quota: nat)
    requires Inv(names, st) && IdsStored(st.db, ids, snap.ts)
    ensures var id := st.db.snapshots.sequence + 1;
            var stored := StoreValues(StoreSnapshot(st, snap), id, snap, snap.values, quota).0;
            Inv(names, stored) && SameGpuSide(st, stored) && IdsStored(stored.db, ids[snap.source := id], snap.ts)
  {
    var inserted, id := StoreSnapshot(st, snap), st.db.snapshots.sequence + 1;
    StoreSnapshotKeeps(names, st, snap);
    StoreValuesKeep(names, inserted, id, snap, snap.values, quota);
    NextIdsStored(st, inserted, StoreValues(inserted, id, snap, snap.values, quota).0, ids, snap.source, id, snap.ts);
  }

  lemma {:induction false} StoreSnapshotsKeep(names: BitNames, st: State, ids: map<string, int>, obs: seq<Observation>, quota: nat, ts: int)
    requires Inv(names, st) && IdsStored(st.db, ids, ts)
    requires forall i :: 0 <= i < |obs| ==> obs[i].snap.ts == ts
    ensures var (next, nextIds, left) := StoreSnapshots(st, ids, obs, quota);
            Inv(names, next) && SameGpuSide(st, next) && IdsStored(next.db, nextIds, ts)
    decreases obs
  {
    if obs != [] && quota > 0 {
      var snap, id := obs[0].snap, st.db.snapshots.sequence + 1;
      OneSnapshotKeeps(names, st, ids, snap, quota - 1);
      var (stored, left) := StoreValues(StoreSnapshot(st, snap), id, snap, snap.values, quota - 1);
      if left.Some? {
        StoreSnapshotsKeep(names, stored, ids[snap.source := id], obs[1..], left.value, ts);
      }
    }
  }

  lemma {:induction false} LogContextChangesKeep(names: BitNames, st: State, ids: map<string, int>, changes: seq<ContextChange>, quota: nat, ts: int)
    requires Inv(names, st) && IdsStored(st.db, ids, ts)
    requires forall c :: c in changes ==> c.ts == ts
    ensures Inv(names, LogContextChanges(st, ids, changes, quota))
    ensures SameGpuSide(st, LogContextChanges(st, ids, changes, quota))
    decreases changes
  {
    if changes != [] {
      var c := changes[0];
      if c.source !in ids {
        LogContextChangesKeep(names, st, ids, changes[1..], quota, ts);
      } else if quota > 0 {
        var next := LogContextChange(st, ids[c.source], c);
        NumberedInsert(st.db.contextTransitions, c.ts, ContextTransition(ids[c.source], c.source, c.key, c.oldValue, c.newValue));
        forall source | source in ids ensures SnapshotOf(next.db, ids[source], ts) { assert SnapshotOf(st.db, ids[source], ts); }
        StaysLinked(st.db, next.db);
        forall l | l in next.lookups ensures LookupValid(next, l) {
          if l in st.lookups { assert LookupValid(st, l); }
        }
        LogContextChangesKeep(names, next, ids, changes[1..], quota - 1, ts);
      }
    }
  }

  lemma {:induction false} LogCarriesTickTime(policies: map<string, Policy>, last: map<string, Snapshot>, obs: seq<Observation>, ts: int)
    requires forall i :: 0 <= i < |obs| ==> obs[i].snap.ts == ts
    ensures forall c :: c in Log(policies, last, obs) ==> c.ts == ts
  {
    if obs != [] {
      var front, o := obs[..|obs| - 1], obs[|obs| - 1];
      LogCarriesTickTime(policies, last, front, ts);
      ContextRuns.DiffIsOwn(PolicyOf(policies, o.snap.source), Remembered(LastAfter(last, front), o.snap.source), o);
    }
  }

  /** What the registry remembers is no concern of the database. */
  lemma {:induction false} MemoryKeeps(names: BitNames, st: State, last: map<string, Snapshot>)
    requires Inv(names, st)
    ensures Inv(names, st.(last := last)) && SameGpuSide(st, st.(last := last))
  {
    var next := st.(last := last);
    forall l | l in next.lookups ensures LookupValid(next, l) { assert LookupValid(st, l); }
  }

  lemma {:induction false} StoreTickKeeps(names: BitNames, st: State, obs: seq<Observation>, changes: seq<ContextChange>, quota: nat, ts: int)
    requires Inv(names, st) && forall i :: 0 <= i < |obs| ==> obs[i].snap.ts == ts
    requires forall c :: c in changes ==> c.ts == ts
    ensures Inv(names, StoreTick(st, obs, changes, quota)) && SameGpuSide(st, StoreTick(st, obs, changes, quota))
  {
    StoreSnapshotsKeep(names, st, map[], obs, quota, ts);
    var (stored, ids, left) := StoreSnapshots(st, map[], obs, quota);
    if left.Some? { LogContextChangesKeep(names, stored, ids, changes, left.value, ts); }
  }

  lemma {:induction false} TickContextKeeps(names: BitNames, policies: map<string, Policy>, st: State, ts: int, obs: seq<Observation>, quota: nat)
    requires Inv(names, st)
    ensures Inv(names, TickContext(policies, st, ts, obs, quota))
    ensures SameGpuSide(st, TickContext(policies, st, ts, obs, quota))
  {
    var stamped := Stamped(ts, obs);
    MemoryKeeps(names, st, LastAfter(st.last, stamped));
    LogCarriesTickTime(policies, st.last, stamped, ts);
    StoreTickKeeps(names, st.(last := LastAfter(st.last, stamped)), stamped, Log(policies, st.last, stamped), quota, ts);
  }

  // ---- the other steps ----

  lemma {:induction false} DeliverKeeps(names: BitNames, st: State, l: Lookup, ts: int, message: string)
    requires Inv(names, st) && DeliverTo(st.db, l, ts, message).Some?
    ensures Inv(names, st.(db := DeliverTo(st.db, l, ts, message).value))
  {
    var next := st.(db := DeliverTo(st.db, l, ts, message).value);
    match l {
      case FlagLookup(row, _) => NumberedInsert(st.db.journal, ts, JournalEvent(row.id, message));
      case ContextLookup(row, _) => NumberedInsert(st.db.contextJournal, ts, JournalEvent(row.id, message));
    }
    StaysLinked(st.db, next.db);
    forall k | k in next.lookups ensures LookupValid(next, k) { assert LookupValid(st, k); }
  }

  lemma {:induction false} PruneKeeps(names: BitNames, st: State, cutoff: int)
    requires Inv(names, st)
    ensures Inv(names, st.(db := Prune(st.db, cutoff)))
  {
    var db, next := st.db, st.(db := Prune(st.db, cutoff));
    PruneStaysLinked(db, cutoff, PRUNE_STATEMENTS);
    PruneTables(db, cutoff, PRUNE_STATEMENTS);
    NumberedDelete(db.samples, OlderThan(cutoff));
    NumberedDelete(db.transitions, OlderThan(cutoff));
    NumberedDelete(db.journal, ChildOf(OldIds(db.transitions, cutoff)));
    NumberedDelete(db.snapshots, OlderThan(cutoff));
    NumberedDelete(db.values, OlderThan(cutoff));
    NumberedDelete(db.contextTransitions, OlderThan(cutoff));
    NumberedDelete(db.contextJournal, ChildOf(OldIds(db.contextTransitions, cutoff)));
    NumberedDelete(db.systemInfo, OutdatedInfo(db.systemInfo.rows, cutoff));
    NumberedDelete(db.markers, OlderThan(cutoff));
    forall l | l in next.lookups ensures LookupValid(next, l) { assert LookupValid(st, l); }
  }

  lemma {:induction false} HousekeepingKeeps(names: BitNames, policies: map<string, Policy>, st: State, e: Event)
    requires Inv(names, st) && (e.LookupDone? || e.Reset? || e.Restart? || e.Harvest? || e.Mark?)
    ensures Inv(names, Step(names, policies, st, e))
  {
    var next := Step(names, policies, st, e);
    match e {
      case LookupDone(_) =>
      case Reset => ResetStaysLinked(st.db, RESET_STATEMENTS);
      case Restart =>
      case Harvest(ts, info) =>
        NumberedInsert(st.db.systemInfo, ts, info);
        StaysLinked(st.db, next.db);
      case Mark(ts, name, detail) =>
        NumberedInsert(st.db.markers, ts, Marker(name, detail));
        StaysLinked(st.db, next.db);
    }
    forall l | l in next.lookups ensures LookupValid(next, l) { assert LookupValid(st, l); }
  }

  lemma {:induction false} StepKeeps(names: BitNames, policies: map<string, Policy>, st: State, e: Event)
    requires Inv(names, st)
    ensures Inv(names, Step(names, policies, st, e))
  {
    match e {
      case StoreReading(r, quota) => StoreKeeps(names, st, r, quota);
      case ContextTick(ts, obs, quota) => TickContextKeeps(names, policies, st, ts, obs, quota);
      case Deliver(i, ts, message) =>
        if i < |st.lookups| && DeliverTo(st.db, st.lookups[i], ts, message).Some? {
          DeliverKeeps(names, st, st.lookups[i], ts, message);
        }
      case PruneBefore(cutoff) => PruneKeeps(names, st, cutoff);
      case _ => HousekeepingKeeps(names, policies, st, e);
    }
  }

  lemma {:induction false} RunKeeps(names: BitNames, policies: map<string, Policy>, st: State, events: seq<Event>)
    requires Inv(names, st)
    ensures Inv(names, Run(names, policies, st, events))
  {
    if events != [] {
      RunKeeps(names, policies, st, events[..|events| - 1]);
      StepKeeps(names, policies, Run(names, policies, st, events[..|events| - 1]), events[|events| - 1]);
    }
  }

  /** Every reachable state, whatever was interleaved and wherever an INSERT failed. */
  lemma {:induction false} ReachableInv(names: BitNames, policies: map<string, Policy>, events: seq<Event>)
    ensures Inv(names, Run(names, policies, INITIAL, events))
  {
    RunKeeps(names, policies, INITIAL, events);
  }

  // ---- referential integrity ----

  /** No reachable state holds a dangling row, and none appears after any single DELETE of a prune or statement of a
      reset started there. */
  lemma {:induction false} ReachableIntegrity(names: BitNames, policies: map<string, Policy>, events: seq<Event>, cutoff: int, k: nat)
    ensures var db := Run(names, policies, INITIAL, events).db;
            && Integrity(db)
            && (k <= PRUNE_STATEMENTS ==> Integrity(PruneUpTo(db, cutoff, k)))
            && (k <= RESET_STATEMENTS ==> Integrity(ResetUpTo(db, k)))
  {
    var db := Run(names, policies, INITIAL, events).db;
    ReachableInv(names, policies, events);
    LinkedIsIntegral(db);
    if k <= PRUNE_STATEMENTS {
      PruneStaysLinked(db, cutoff, k);
      LinkedIsIntegral(PruneUpTo(db, cutoff, k));
    }
    if k <= RESET_STATEMENTS {
      ResetStaysLinked(db, k);
      LinkedIsIntegral(ResetUpTo(db, k));
    }
  }
}

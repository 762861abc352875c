/** Ids are never handed out twice between two resets: whatever a table holds later it held before, or holds under an id
    above its old sequence. */
module Growth {
  import opened Rows
  import opened Throttle
  import opened Database
  import opened Context
  import opened Retention
  import opened Collector
  import opened Invariants

  /** What is new carries a new id, and a time after `since` if one is given. */
  ghost predicate Grown<T>(before: Table<T>, after: Table<T>, since: Option<int>) {
    && before.sequence <= after.sequence
    && forall r :: r in after.rows ==> r in before.rows || (r.id > before.sequence && After(r.ts, since))
  }

  /** Journal events come with the time the journal gives them, however old. */
  ghost predicate GrownDb(a: Db, b: Db, since: Option<int>) {
    && Grown(a.samples, b.samples, since) && Grown(a.transitions, b.transitions, since) && Grown(a.snapshots, b.snapshots, since)
    && Grown(a.values, b.values, since) && Grown(a.contextTransitions, b.contextTransitions, since)
    && Grown(a.journal, b.journal, None) && Grown(a.contextJournal, b.contextJournal, None)
  }

  predicate After(ts: int, since: Option<int>) {
    since.Some? ==> ts > since.value
  }

  predicate CollectsAfter(e: Event, since: Option<int>) {
    since.Some? ==> Later(e, since.value)
  }

  lemma {:induction false} GrowthAddsUp(a: Db, b: Db, c: Db, since: Option<int>)
    requires GrownDb(a, b, since) && GrownDb(b, c, since)
    ensures GrownDb(a, c, since)
  { }

  lemma {:induction false} LogChangesGrow(st: State, ts: int, sampleId: int, device: string, changes: seq<Throttle.Change>, since: Option<int>)
    requires After(ts, since)
    ensures GrownDb(st.db, LogChanges(st, ts, sampleId, device, changes).db, since)
  {
    if changes != [] {
      var prev := LogChanges(st, ts, sampleId, device, changes[..|changes| - 1]);
      LogChangesGrow(st, ts, sampleId, device, changes[..|changes| - 1], since);
      GrowthAddsUp(st.db, prev.db, LogChanges(st, ts, sampleId, device, changes).db, since);
    }
  }

  lemma {:induction false} StoreGrows(names: BitNames, st: State, r: Reading, quota: nat, since: Option<int>)
    requires After(r.ts, since)
    ensures GrownDb(st.db, Store(names, st, r, quota).db, since)
  {
    if quota > 0 {
      var start := Remember(names, st, r);
      LogChangesGrow(start, r.ts, st.db.samples.sequence + 1, r.device, Limit(ChangesFor(names, st.masks, r), quota - 1), since);
      GrowthAddsUp(st.db, start.db, Store(names, st, r, quota).db, since);
    }
  }

  lemma {:induction false} StoreValuesGrow(st: State, id: int, snap: Snapshot, values: seq<ContextValue>, quota: nat, since: Option<int>)
    requires After(snap.ts, since)
    ensures GrownDb(st.db, StoreValues(st, id, snap, values, quota).0.db, since)
    decreases values
  {
    if values != [] && quota > 0 {
      var next := StoreValue(st, id, snap, values[0]);
      StoreValuesGrow(next, id, snap, values[1..], quota - 1, since);
      GrowthAddsUp(st.db, next.db, StoreValues(st, id, snap, values, quota).0.db, since);
    }
  }

  lemma {:induction false} StoreSnapshotsGrow(st: State, ids: map<string, int>, obs: seq<Observation>, quota: nat, since: Option<int>)
    requires forall i :: 0 <= i < |obs| ==> After(obs[i].snap.ts, since)
    ensures GrownDb(st.db, StoreSnapshots(st, ids, obs, quota).0.db, since)
    decreases obs
  {
    if obs != [] && quota > 0 {
      var snap, id := obs[0].snap, st.db.snapshots.sequence + 1;
      var inserted := StoreSnapshot(st, snap);
      StoreValuesGrow(inserted, id, snap, snap.values, quota - 1, since);
      var (stored, left) := StoreValues(inserted, id, snap, snap.values, quota - 1);
      GrowthAddsUp(st.db, inserted.db, stored.db, since);
      if left.Some? {
        StoreSnapshotsGrow(stored, ids[snap.source := id], obs[1..], left.value, since);
        GrowthAddsUp(st.db, stored.db, StoreSnapshots(st, ids, obs, quota).0.db, since);
      }
    }
  }

  lemma {:induction false} LogContextChangesGrow(st: State, ids: map<string, int>, changes: seq<ContextChange>, quota: nat, since: Option<int>)
    requires forall c :: c in changes ==> After(c.ts, since)
    ensures GrownDb(st.db, LogContextChanges(st, ids, changes, quota).db, since)
    decreases changes
  {
    if changes != [] {
      if changes[0].source !in ids {
        LogContextChangesGrow(st, ids, changes[1..], quota, since);
      } else if quota > 0 {
        var next := LogContextChange(st, ids[changes[0].source], changes[0]);
        LogContextChangesGrow(next, ids, changes[1..], quota - 1, since);
        GrowthAddsUp(st.db, next.db, LogContextChanges(st, ids, changes, quota).db, since);
      }
    }
  }

  lemma {:induction false} StoreTickGrows(st: State, obs: seq<Observation>, changes: seq<ContextChange>, quota: nat, since: Option<int>)
    requires forall i :: 0 <= i < |obs| ==> After(obs[i].snap.ts, since)
    requires forall c :: c in changes ==> After(c.ts, since)
    ensures GrownDb(st.db, StoreTick(st, obs, changes, quota).db, since)
  {
    StoreSnapshotsGrow(st, map[], obs, quota, since);
    var (stored, ids, left) := StoreSnapshots(st, map[], obs, quota);
    if left.Some? {
      LogContextChangesGrow(stored, ids, changes, left.value, since);
      GrowthAddsUp(st.db, stored.db, StoreTick(st, obs, changes, quota).db, since);
    }
  }

  lemma {:induction false} PruneGrows(db: Db, cutoff: int, since: Option<int>)
    ensures GrownDb(db, Prune(db, cutoff), since)
  {
    PruneTables(db, cutoff, PRUNE_STATEMENTS);
  }

  lemma {:induction false} DeliveryGrows(db: Db, l: Lookup, ts: int, message: string, since: Option<int>)
    requires DeliverTo(db, l, ts, message).Some?
    ensures GrownDb(db, DeliverTo(db, l, ts, message).value, since)
  { }

  lemma {:induction false} StepGrows(names: BitNames, policies: map<string, Policy>, st: State, e: Event, since: Option<int>)
    requires !e.Reset? && CollectsAfter(e, since)
    ensures GrownDb(st.db, Step(names, policies, st, e).db, since)
  {
    match e {
      case StoreReading(r, quota) => StoreGrows(names, st, r, quota, since);
      case ContextTick(ts, obs, quota) =>
        var stamped := Stamped(ts, obs);
        LogCarriesTickTime(policies, st.last, stamped, ts);
        StoreTickGrows(st.(last := LastAfter(st.last, stamped)), stamped, Log(policies, st.last, stamped), quota, since);
      case PruneBefore(cutoff) => PruneGrows(st.db, cutoff, since);
      case Deliver(i, ts, message) =>
        if i < |st.lookups| && DeliverTo(st.db, st.lookups[i], ts, message).Some? { DeliveryGrows(st.db, st.lookups[i], ts, message, since); }
      case _ =>
    }
  }

  lemma {:induction false} NoResetAmong(events: seq<Event>, e: Event)
    requires Resets(events) == 0 && e in events
    ensures !e.Reset?
  {
    assert e.Reset? ==> e in Select(events, IsReset);
  }

  /** Between two resets every table only grows at its end, whatever is pruned from it. */
  lemma {:induction false} RunGrows(names: BitNames, policies: map<string, Policy>, st: State, events: seq<Event>, since: Option<int>)
    requires Resets(events) == 0 && forall e :: e in events ==> CollectsAfter(e, since)
    ensures GrownDb(st.db, Run(names, policies, st, events).db, since)
  {
    if events != [] {
      var front, last := events[..|events| - 1], events[|events| - 1];
      NoResetAmong(events, last);
      RunGrows(names, policies, st, front, since);
      StepGrows(names, policies, Run(names, policies, st, front), last, since);
      GrowthAddsUp(st.db, Run(names, policies, st, front).db, Run(names, policies, st, events).db, since);
    }
  }
}

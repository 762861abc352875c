/** The collector service: the loops behind the state machine's steps. */
module Service {
  import opened Rows
  import opened Throttle
  import opened Database
  import opened Context
  import opened Retention
  import opened TelemetryStore
  import opened Collector
  import opened Invariants
  import opened TickRows

  const HOUR_MS := 3_600_000

  const I64_MIN := -0x8000_0000_0000_0000

  /** The retention cutoff: `now.saturating_sub(hours * 3_600_000)`. */
  function Cutoff(now: int, hours: nat): int {
    if now - hours * HOUR_MS < I64_MIN then I64_MIN else now - hours * HOUR_MS
  }

  /** A tick that has failed stays as it failed. */
  lemma {:induction false} GpuTickStops(names: BitNames, st: State, readings: seq<Reading>, quota: nat, k: nat, n: nat)
    requires k <= n <= |readings| && GpuTick(names, st, readings, quota, k).1.None?
    ensures GpuTick(names, st, readings, quota, n) == GpuTick(names, st, readings, quota, k)
  {
    if k < n { GpuTickStops(names, st, readings, quota, k, n - 1); }
  }

  lemma {:induction false} LogOneMore(st: State, ts: int, sampleId: int, device: string, changes: seq<Throttle.Change>, j: nat)
    requires j < |changes|
    ensures LogChanges(st, ts, sampleId, device, changes[..j + 1])
         == LogChange(LogChanges(st, ts, sampleId, device, changes[..j]), ts, TransitionFor(sampleId, device, changes[j]))
    ensures LogChanges(st, ts, sampleId, device, changes[..j]).db.samples == st.db.samples
  {
    LogChangesFrame(st, ts, sampleId, device, changes[..j]);
    assert changes[..j + 1][..j] == changes[..j];
  }

  /** The events a lookup task gets into the database, by index: those whose INSERT does not find it busy. */
  function Admitted(n: nat, busy: set<nat>): (order: seq<nat>)
    ensures forall i, j :: 0 <= i < j < |order| ==> order[i] < order[j]
    ensures forall i :: 0 <= i < |order| ==> order[i] < n && order[i] !in busy
    ensures forall i :: 0 <= i < n && i !in busy ==> i in order
  {
    if n == 0 then [] else
    var front := Admitted(n - 1, busy);
    if n - 1 in busy then front else front + [n - 1]
  }

  /** One event, and what is left of the quota: an event that fails is logged and skipped. */
  function FileOne(now: Db, left: nat, l: Lookup, event: (int, string), isBusy: bool): (Db, nat) {
    var next := DeliverTo(now, l, event.0, event.1);
    if isBusy || left == 0 || next.None? then (now, left) else (next.value, left - 1)
  }

  /** What a lookup task does to the database: every event is tried. */
  function Filed(db: Db, l: Lookup, events: seq<(int, string)>, busy: set<nat>, quota: nat): (Db, nat)
    decreases events
  {
    if events == [] then (db, quota) else
    var n := |events| - 1;
    var front := Filed(db, l, events[..n], busy, quota);
    FileOne(front.0, front.1, l, events[n], n in busy)
  }

  predicate ParentStored(db: Db, l: Lookup) {
    match l
    case FlagLookup(row, _) => HasId(db.transitions, row.id)
    case ContextLookup(row, _) => HasId(db.contextTransitions, row.id)
  }

  /** The table gained one row per listed event, in order, under the next ids. */
  ghost predicate Appends(before: Table<JournalEvent>, after: Table<JournalEvent>, transitionId: int,
                          events: seq<(int, string)>, order: seq<nat>, n: nat)
    requires n <= |order| && forall k :: 0 <= k < n ==> order[k] < |events|
  {
    && |after.rows| == |before.rows| + n
    && after.sequence == before.sequence + n
    && (forall k :: 0 <= k < |before.rows| ==> after.rows[k] == before.rows[k])
    && (forall k :: 0 <= k < n ==>
          after.rows[|before.rows| + k] == Row(before.sequence + 1 + k, events[order[k]].0, JournalEvent(transitionId, events[order[k]].1)))
  }

  ghost predicate FilesRows(before: Db, after: Db, l: Lookup, events: seq<(int, string)>, order: seq<nat>, n: nat)
    requires n <= |order| && forall k :: 0 <= k < n ==> order[k] < |events|
  {
    match l
    case FlagLookup(row, _) =>
      Appends(before.journal, after.journal, row.id, events, order, n) && after == before.(journal := after.journal)
    case ContextLookup(row, _) =>
      Appends(before.contextJournal, after.contextJournal, row.id, events, order, n)
      && after == before.(contextJournal := after.contextJournal)
  }

  function Fit(n: nat, quota: nat): nat {
    if n <= quota then n else quota
  }

  ghost predicate Files(before: Db, after: (Db, nat), l: Lookup, events: seq<(int, string)>, order: seq<nat>, quota: nat)
    requires forall k :: 0 <= k < |order| ==> order[k] < |events|
  {
    if ParentStored(before, l)
    then after.1 == quota - Fit(|order|, quota) && FilesRows(before, after.0, l, events, order, Fit(|order|, quota))
    else after == (before, quota)
  }

  lemma {:induction false} FileNext(db: Db, now: (Db, nat), l: Lookup, events: seq<(int, string)>, order: seq<nat>, quota: nat, n: nat)
    requires n < |events| && forall k :: 0 <= k < |order| ==> order[k] < |events|
    requires Files(db, now, l, events, order, quota)
    ensures Files(db, FileOne(now.0, now.1, l, events[n], false), l, events, order + [n], quota)
    ensures FileOne(now.0, now.1, l, events[n], true) == now
  { }

  lemma {:induction false} FiledUpTo(db: Db, l: Lookup, events: seq<(int, string)>, busy: set<nat>, quota: nat, n: nat)
    requires n <= |events|
    ensures Files(db, Filed(db, l, events[..n], busy, quota), l, events, Admitted(n, busy), quota)
  {
    if n > 0 {
      FiledUpTo(db, l, events, busy, quota, n - 1);
      assert events[..n][..n - 1] == events[..n - 1];
      FileNext(db, Filed(db, l, events[..n - 1], busy, quota), l, events, Admitted(n - 1, busy), quota, n - 1);
    }
  }

  /** While the transition is stored every admitted event is filed, until the quota runs out; without it none is. */
  lemma {:induction false} FiledRows(db: Db, l: Lookup, events: seq<(int, string)>, busy: set<nat>, quota: nat)
    ensures Files(db, Filed(db, l, events, busy, quota), l, events, Admitted(|events|, busy), quota)
  {
    FiledUpTo(db, l, events, busy, quota, |events|);
    assert events[..|events|] == events;
  }

  lemma {:induction false} QuotaLeft(db: Db, now: (Db, nat), l: Lookup, events: seq<(int, string)>, order: seq<nat>, quota: nat, n: nat, isBusy: bool)
    requires n < |events| && forall k :: 0 <= k < |order| ==> order[k] < |events|
    requires Files(db, now, l, events, order, quota)
    ensures |order| < quota ==> now.1 > 0
    ensures |order| >= quota || isBusy ==> FileOne(now.0, now.1, l, events[n], isBusy) == now
  { }

  lemma {:induction false} DeliverStep(names: BitNames, policies: map<string, Policy>, st: State, now: State, i: nat, ts: int, message: string)
    requires i < |st.lookups| && now == st.(db := now.db)
    ensures Step(names, policies, now, Deliver(i, ts, message))
         == st.(db := if DeliverTo(now.db, st.lookups[i], ts, message).Some? then DeliverTo(now.db, st.lookups[i], ts, message).value else now.db)
  { }

  /** One delivery per admitted event, until the quota runs out. */
  ghost predicate Delivers(run: seq<Event>, i: nat, events: seq<(int, string)>, order: seq<nat>, quota: nat)
    requires forall k :: 0 <= k < |order| ==> order[k] < |events|
  {
    && |run| == (if |order| <= quota then |order| else quota)
    && forall k :: 0 <= k < |run| ==> run[k] == Deliver(i, events[order[k]].0, events[order[k]].1)
  }

  lemma {:induction false} DeliverOneMore(run: seq<Event>, i: nat, events: seq<(int, string)>, order: seq<nat>, quota: nat, n: nat)
    requires n < |events| && forall k :: 0 <= k < |order| ==> order[k] < |events|
    requires Delivers(run, i, events, order, quota)
    ensures |order| < quota ==> Delivers(run + [Deliver(i, events[n].0, events[n].1)], i, events, order + [n], quota)
    ensures |order| >= quota ==> Delivers(run, i, events, order + [n], quota)
  { }

  /** With quota left, the next event is one more delivery step. */
  lemma {:induction false} DeliverNext(names: BitNames, policies: map<string, Policy>, st: State, run: seq<Event>, i: nat,
                                       event: (int, string), now: (Db, nat))
    requires i < |st.lookups| && Run(names, policies, st, run) == st.(db := now.0) && now.1 > 0
    ensures Run(names, policies, st, run + [Deliver(i, event.0, event.1)]) == st.(db := FileOne(now.0, now.1, st.lookups[i], event, false).0)
  {
    RunPush(names, policies, st, run, Deliver(i, event.0, event.1));
    DeliverStep(names, policies, st, st.(db := now.0), i, event.0, event.1);
  }

  lemma {:induction false} FiledSplits(db: Db, l: Lookup, events: seq<(int, string)>, busy: set<nat>, quota: nat, n: nat)
    requires n < |events|
    ensures var front := Filed(db, l, events[..n], busy, quota);
            Filed(db, l, events[..n + 1], busy, quota) == FileOne(front.0, front.1, l, events[n], n in busy)
  {
    assert events[..n + 1][..n] == events[..n];
  }

  lemma {:induction false} FiledRunUpTo(names: BitNames, policies: map<string, Policy>, st: State, i: nat,
                                        events: seq<(int, string)>, busy: set<nat>, quota: nat, n: nat) returns (run: seq<Event>)
    requires i < |st.lookups| && n <= |events|
    ensures Run(names, policies, st, run) == st.(db := Filed(st.db, st.lookups[i], events[..n], busy, quota).0)
    ensures Delivers(run, i, events, Admitted(n, busy), quota)
  {
    run := [];
    if n > 0 {
      run := FiledRunUpTo(names, policies, st, i, events, busy, quota, n - 1);
      var now, order := Filed(st.db, st.lookups[i], events[..n - 1], busy, quota), Admitted(n - 1, busy);
      FiledUpTo(st.db, st.lookups[i], events, busy, quota, n - 1);
      QuotaLeft(st.db, now, st.lookups[i], events, order, quota, n - 1, n - 1 in busy);
      FiledSplits(st.db, st.lookups[i], events, busy, quota, n - 1);
      DeliverOneMore(run, i, events, order, quota, n - 1);
      if n - 1 !in busy && |order| < quota {
        DeliverNext(names, policies, st, run, i, events[n - 1], now);
        run := run + [Deliver(i, events[n - 1].0, events[n - 1].1)];
      }
    }
  }

  /** A lookup task is one delivery per admitted event, in order, until the quota runs out, so whatever holds of every
      run holds around it. */
  lemma {:induction false} FiledIsARun(names: BitNames, policies: map<string, Policy>, st: State, i: nat,
                                       events: seq<(int, string)>, busy: set<nat>, quota: nat)
    returns (run: seq<Event>)
    requires i < |st.lookups|
    ensures Run(names, policies, st, run) == st.(db := Filed(st.db, st.lookups[i], events, busy, quota).0)
    ensures Delivers(run, i, events, Admitted(|events|, busy), quota)
  {
    run := FiledRunUpTo(names, policies, st, i, events, busy, quota, |events|);
    assert events[..|events|] == events;
  }

  // ---- retention ----

  /** After a prune, exactly the rows from the given time on are left, with their journal events; of the system
      inventories the newest is left in any case. */
  ghost predicate KeepsFrom(before: Db, after: Db, time: int) {
    && (forall r :: r in after.samples.rows <==> r in before.samples.rows && r.ts >= time)
    && (forall r :: r in after.transitions.rows <==> r in before.transitions.rows && r.ts >= time)
    && (forall r :: r in after.snapshots.rows <==> r in before.snapshots.rows && r.ts >= time)
    && (forall r :: r in after.values.rows <==> r in before.values.rows && r.ts >= time)
    && (forall r :: r in after.contextTransitions.rows <==> r in before.contextTransitions.rows && r.ts >= time)
    && (forall r :: r in after.markers.rows <==> r in before.markers.rows && r.ts >= time)
  }

  ghost predicate KeepsEvents(before: Db, after: Db, time: int) {
    && (forall e :: e in after.journal.rows <==>
          e in before.journal.rows && forall t :: t in before.transitions.rows && t.id == e.body.transitionId ==> t.ts >= time)
    && (forall e :: e in after.contextJournal.rows <==>
          e in before.contextJournal.rows && forall t :: t in before.contextTransitions.rows && t.id == e.body.transitionId ==> t.ts >= time)
    && (forall r :: r in after.systemInfo.rows <==>
          r in before.systemInfo.rows && (r.ts >= time || forall other :: other in before.systemInfo.rows ==> other.ts <= r.ts))
  }

  lemma {:induction false} PruneKeepsFrom(db: Db, cutoff: int)
    ensures KeepsFrom(db, Prune(db, cutoff), cutoff)
  {
    PruneTables(db, cutoff, PRUNE_STATEMENTS);
  }

  lemma {:induction false} PruneKeepsEvents(db: Db, cutoff: int)
    ensures KeepsEvents(db, Prune(db, cutoff), cutoff)
  {
    PruneTables(db, cutoff, PRUNE_STATEMENTS);
  }

  class CollectorService {
    const names: BitNames
    const store: Store
    const context: ContextRegistry
    var lastMasks: map<string, u64>

    /** The tasks spawned so far, and the machine's two history variables. */
    ghost var lookups: seq<Lookup>
    ghost var epoch: nat
    ghost var runStart: nat

    constructor (names: BitNames, store: Store, policies: map<string, Policy>, ghost epoch: nat)
      ensures this.names == names && this.store == store && fresh(context) && context.policies == policies
      ensures Abstract() == State(store.db, map[], map[], [], epoch, store.db.samples.sequence)
    {
      this.names := names;
      this.store := store;
      lastMasks := map[];
      lookups := [];
      this.epoch := epoch;
      runStart := store.db.samples.sequence;
      var registry := new ContextRegistry(policies);
      context := registry;
    }

    ghost function Abstract(): State
      reads this, store, context
    {
      State(store.db, lastMasks, context.lastSnapshots, lookups, epoch, runStart)
    }

    /** A transition and a lookup per change, until an insert fails. */
    method LogTransitions(sample: Reading, sampleId: int, changes: seq<Throttle.Change>) returns (r: Result<()>)
      requires HasId(store.db.samples, sampleId)
      modifies this`lookups, store
      ensures Abstract() == LogChanges(old(Abstract()), sample.ts, sampleId, sample.device, Limit(changes, old(store.quota)))
      ensures r.Ok? <==> old(store.quota) >= |changes|
      ensures r.Ok? ==> store.quota == old(store.quota) - |changes|
    {
      ghost var start, quota := Abstract(), store.quota;
      for j := 0 to |changes|
        invariant Abstract() == LogChanges(start, sample.ts, sampleId, sample.device, changes[..j])
        invariant store.quota == quota - j
      {
        LogOneMore(start, sample.ts, sampleId, sample.device, changes, j);
        var t := TransitionFor(sampleId, sample.device, changes[j]);
        ghost var prev := Abstract();
        var inserted := store.InsertTransition(sample.ts, t);
        if inserted.Err? {
          assert Abstract() == prev && j == quota;
          return Err(inserted.error);
        }
        lookups := lookups + [FlagLookup(Row(inserted.value, sample.ts, t), epoch)];
        assert Abstract() == LogChange(prev, sample.ts, t);
      }
      assert changes[..|changes|] == changes;
      r := Ok(());
    }

    /** One round of the loop: the sample, the remembered mask, then the changes. */
    method StoreReading(sample: Reading) returns (r: Result<()>)
      modifies this`lastMasks, this`lookups, store
      ensures Abstract() == Collector.Store(names, old(Abstract()), sample, old(store.quota))
      ensures r.Ok? <==> old(store.quota) >= Cost(names, old(Abstract()), sample)
      ensures r.Ok? ==> store.quota == old(store.quota) - Cost(names, old(Abstract()), sample)
    {
      ghost var before := Abstract();
      var sampleId :- store.InsertSample(sample.ts, SampleFor(names, sample));
      var previous := if sample.device in lastMasks then lastMasks[sample.device] else sample.mask;
      var changes := DiffFlags(names, previous, sample.mask);
      lastMasks := lastMasks[sample.device := sample.mask];
      assert Abstract() == Remember(names, before, sample);
      assert Row(sampleId, sample.ts, SampleFor(names, sample)) in store.db.samples.rows;
      r := LogTransitions(sample, sampleId, changes);
    }

    /** `tick_gpu`: the first error ends the tick. */
    method TickGpu(samples: seq<Reading>) returns (r: Result<()>)
      modifies this`lastMasks, this`lookups, store
      ensures Abstract() == GpuTick(names, old(Abstract()), samples, old(store.quota), |samples|).0
      ensures GpuTick(names, old(Abstract()), samples, old(store.quota), |samples|).1 == if r.Ok? then Some(store.quota) else None
      ensures r.Ok? ==> AppendsReadings(names, old(store.db).samples, store.db.samples, samples, |samples|)
      ensures old(store.quota) >= 65 * |samples| ==> r.Ok?
    {
      ghost var before, quota := Abstract(), store.quota;
      for i := 0 to |samples|
        invariant GpuTick(names, before, samples, quota, i) == (Abstract(), Some(store.quota))
      {
        var stored := StoreReading(samples[i]);
        if stored.Err? {
          GpuTickStops(names, before, samples, quota, i + 1, |samples|);
          WholeTickRows(names, before, samples, quota);
          return stored;
        }
      }
      WholeTickRows(names, before, samples, quota);
      r := Ok(());
    }

    /** A stored snapshot's values, each under its full key. */
    method StoreContextValues(snapshotId: int, snap: Snapshot) returns (r: Result<()>)
      requires HasId(store.db.snapshots, snapshotId)
      modifies store
      ensures (Abstract(), if r.Ok? then Some(store.quota) else None)
           == StoreValues(old(Abstract()), snapshotId, snap, snap.values, old(store.quota))
      ensures store.db.snapshots == old(store.db.snapshots)
    {
      ghost var before, quota := Abstract(), store.quota;
      for j := 0 to |snap.values|
        invariant store.db.snapshots == before.db.snapshots
        invariant StoreValues(Abstract(), snapshotId, snap, snap.values[j..], store.quota)
               == StoreValues(before, snapshotId, snap, snap.values, quota)
      {
        var value := snap.values[j];
        assert snap.values[j..][1..] == snap.values[j + 1..];
        var stored := ValueRow(snapshotId, snap.source, FullKey(snap.source, value.key), value.num, value.str);
        var id :- store.InsertContextValue(snap.ts, stored);
      }
      r := Ok(());
    }

    ghost predicate IdsKnown(ids: map<string, int>)
      reads store
    {
      forall source :: source in ids ==> HasId(store.db.snapshots, ids[source])
    }

    method StoreContextSnapshots(snapshots: seq<Observation>) returns (r: Result<map<string, int>>)
      modifies store
      ensures r.Ok? ==> IdsKnown(r.value)
      ensures r.Ok? ==> (Abstract(), r.value, Some(store.quota)) == StoreSnapshots(old(Abstract()), map[], snapshots, old(store.quota))
      ensures r.Err? ==> var (now, _, left) := StoreSnapshots(old(Abstract()), map[], snapshots, old(store.quota));
                         now == Abstract() && left == None
    {
      ghost var before, quota := Abstract(), store.quota;
      var snapshotIds: map<string, int> := map[];
      for i := 0 to |snapshots|
        invariant IdsKnown(snapshotIds)
        invariant StoreSnapshots(Abstract(), snapshotIds, snapshots[i..], store.quota)
               == StoreSnapshots(before, map[], snapshots, quota)
      {
        var snap := snapshots[i].snap;
        assert snapshots[i..][1..] == snapshots[i + 1..];
        ghost var rows := store.db.snapshots.rows;
        var snapshotId :- store.InsertContextSnapshot(snap.ts, SnapshotRow(snap.source, snap.health));
        assert Row(snapshotId, snap.ts, SnapshotRow(snap.source, snap.health)) in store.db.snapshots.rows;
        assert forall x :: x in rows ==> x in store.db.snapshots.rows;
        snapshotIds := snapshotIds[snap.source := snapshotId];
        var _ :- StoreContextValues(snapshotId, snap);
      }
      r := Ok(snapshotIds);
    }

    method LogContextTransitions(snapshotIds: map<string, int>, transitions: seq<ContextChange>) returns (r: Result<()>)
      requires IdsKnown(snapshotIds)
      modifies this`lookups, store
      ensures Abstract() == LogContextChanges(old(Abstract()), snapshotIds, transitions, old(store.quota))
    {
      ghost var before, quota := Abstract(), store.quota;
      for i := 0 to |transitions|
        invariant IdsKnown(snapshotIds)
        invariant LogContextChanges(Abstract(), snapshotIds, transitions[i..], store.quota)
               == LogContextChanges(before, snapshotIds, transitions, quota)
      {
        var change := transitions[i];
        assert transitions[i..][1..] == transitions[i + 1..];
        if change.source in snapshotIds {
          var t := ContextTransition(snapshotIds[change.source], change.source, change.key, change.oldValue, change.newValue);
          var transitionId :- store.InsertContextTransition(change.ts, t);
          lookups := lookups + [ContextLookup(Row(transitionId, change.ts, t), epoch)];
        }
      }
      r := Ok(());
    }

    /** `tick_context`. */
    method TickContext(ts: int, obs: seq<Observation>) returns (r: Result<()>)
      modifies this`lookups, store, context
      ensures Abstract() == Collector.TickContext(context.policies, old(Abstract()), ts, obs, old(store.quota))
      ensures old(store.quota) >= |obs| + ValuesBefore(obs, |obs|) ==>
                && AppendsSnapshots(old(store.db).snapshots, store.db.snapshots, Stamped(ts, obs))
                && AppendsValues(old(store.db).values, store.db.values, Stamped(ts, obs), old(store.db).snapshots.sequence)
    {
      if store.quota >= |obs| + ValuesBefore(obs, |obs|) { ContextTickRows(context.policies, Abstract(), ts, obs, store.quota); }
      var snapshots := Stamped(ts, obs);
      var transitions := context.TransitionsForTick(snapshots);
      var snapshotIds :- StoreContextSnapshots(snapshots);
      r := LogContextTransitions(snapshotIds, transitions);
    }

    /** The task a transition spawns, once the journal has answered. `busy` lists the events whose INSERT finds the
        database locked: each such event is lost alone. Without the transition nothing changes at all. */
    method FileEvents(l: Lookup, events: seq<(int, string)>, busy: set<nat>)
      modifies store
      ensures (store.db, store.quota) == Filed(old(store.db), l, events, busy, old(store.quota))
      ensures var order := Admitted(|events|, busy);
              var n := if |order| <= old(store.quota) then |order| else old(store.quota);
              if ParentStored(old(store.db), l)
              then FilesRows(old(store.db), store.db, l, events, order, n) && store.quota == old(store.quota) - n
              else store.db == old(store.db) && store.quota == old(store.quota)
    {
      ghost var db, quota := store.db, store.quota;
      for i := 0 to |events|
        invariant (store.db, store.quota) == Filed(db, l, events[..i], busy, quota)
      {
        assert events[..i + 1][..i] == events[..i];
        var stored: Result<()> := Err(Unavailable);
        if i !in busy {
          match l {
            case FlagLookup(row, _) => stored := store.InsertJournalEvent(events[i].0, JournalEvent(row.id, events[i].1));
            case ContextLookup(row, _) => stored := store.InsertContextJournalEvent(events[i].0, JournalEvent(row.id, events[i].1));
          }
        }
      }
      assert events[..|events|] == events;
      FiledRows(db, l, events, busy, quota);
    }

    /** `prune_if_enabled`: zero hours keep everything, and a refused prune is only logged. On a linked database, which
        every reachable one is, no prune is refused: what is left begins the given hours ago, or, when that leaves
        64 bits, at the least time there is. */
    method PruneIfEnabled(now: int, hours: nat)
      requires Integrity(store.db)
      modifies store`db
      ensures Integrity(store.db)
      ensures store.db == if hours > 0 && NoStraddlers(old(store.db), Cutoff(now, hours)) then Prune(old(store.db), Cutoff(now, hours))
                          else old(store.db)
      ensures hours > 0 && Linked(old(store.db)) ==> store.db == Prune(old(store.db), Cutoff(now, hours))
      ensures hours > 0 && Linked(old(store.db)) ==>
                var oldest := if now - hours * 60 * 60 * 1000 >= -9_223_372_036_854_775_808 then now - hours * 60 * 60 * 1000
                              else -9_223_372_036_854_775_808;
                KeepsFrom(old(store.db), store.db, oldest) && KeepsEvents(old(store.db), store.db, oldest)
    {
      if hours == 0 {
        return;
      }
      if Linked(store.db) { LinkedHasNoStraddlers(store.db, Cutoff(now, hours)); }
      PruneKeepsFrom(store.db, Cutoff(now, hours));
      PruneKeepsEvents(store.db, Cutoff(now, hours));
      var stats := store.PruneOlderThan(Cutoff(now, hours));
    }
  }
}

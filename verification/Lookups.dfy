/** Journal lookups answer arbitrarily late. Until a reset hands ids out again, an answer reaches the transition that
    asked for it or nothing at all. */
module Lookups {
  import opened Rows
  import opened Throttle
  import opened Database
  import opened Context
  import opened Retention
  import opened Collector
  import opened Growth
  import opened Invariants
  import opened Scenarios

  /** The transition that spawned the lookup is still stored. */
  predicate SpawnerStored(db: Db, l: Lookup) {
    match l
    case FlagLookup(row, _) => row in db.transitions.rows
    case ContextLookup(row, _) => row in db.contextTransitions.rows
  }

  /** No other row has this row's id. */
  ghost predicate OnlyRow<T>(rows: seq<Row<T>>, row: Row<T>) {
    forall t :: t in rows && t.id == row.id ==> t == row
  }

  /** The id the lookup will file its events under belongs to its spawner or to no row at all. */
  ghost predicate OnlySpawner(db: Db, l: Lookup) {
    if l.FlagLookup? then OnlyRow(db.transitions.rows, l.flagRow) else OnlyRow(db.contextTransitions.rows, l.contextRow)
  }

  lemma {:induction false} FreshDelivery(names: BitNames, st: State, l: Lookup, ts: int, message: string)
    requires Inv(names, st) && l in st.lookups && l.epoch == st.epoch
    ensures OnlySpawner(st.db, l)
    ensures DeliverTo(st.db, l, ts, message).Some? <==> SpawnerStored(st.db, l)
  {
    assert LookupValid(st, l);
  }

  // ---- which lookups are fresh ----

  lemma {:induction false} LogChangesSpawn(st: State, ts: int, sampleId: int, device: string, changes: seq<Throttle.Change>)
    ensures forall l :: l in LogChanges(st, ts, sampleId, device, changes).lookups ==> l in st.lookups || l.epoch == st.epoch
  {
    if changes != [] {
      LogChangesSpawn(st, ts, sampleId, device, changes[..|changes| - 1]);
      LogChangesFrame(st, ts, sampleId, device, changes[..|changes| - 1]);
    }
  }

  lemma {:induction false} StoreValuesSpawn(st: State, id: int, snap: Snapshot, values: seq<ContextValue>, quota: nat)
    ensures var next := StoreValues(st, id, snap, values, quota).0; next.lookups == st.lookups && next.epoch == st.epoch
    decreases values
  {
    if values != [] && quota > 0 {
      StoreValuesSpawn(StoreValue(st, id, snap, values[0]), id, snap, values[1..], quota - 1);
    }
  }

  lemma {:induction false} StoreSnapshotsSpawn(st: State, ids: map<string, int>, obs: seq<Observation>, quota: nat)
    ensures var next := StoreSnapshots(st, ids, obs, quota).0; next.lookups == st.lookups && next.epoch == st.epoch
    decreases obs
  {
    if obs != [] && quota > 0 {
      var snap, id := obs[0].snap, st.db.snapshots.sequence + 1;
      StoreValuesSpawn(StoreSnapshot(st, snap), id, snap, snap.values, quota - 1);
      var (stored, left) := StoreValues(StoreSnapshot(st, snap), id, snap, snap.values, quota - 1);
      if left.Some? { StoreSnapshotsSpawn(stored, ids[snap.source := id], obs[1..], left.value); }
    }
  }

  lemma {:induction false} LogContextChangesSpawn(st: State, ids: map<string, int>, changes: seq<ContextChange>, quota: nat)
    ensures LogContextChanges(st, ids, changes, quota).epoch == st.epoch
    ensures forall l :: l in LogContextChanges(st, ids, changes, quota).lookups ==> l in st.lookups || l.epoch == st.epoch
    decreases changes
  {
    if changes != [] {
      if changes[0].source !in ids {
        LogContextChangesSpawn(st, ids, changes[1..], quota);
      } else if quota > 0 {
        LogContextChangesSpawn(LogContextChange(st, ids[changes[0].source], changes[0]), ids, changes[1..], quota - 1);
      }
    }
  }

  /** A step spawns lookups of the current epoch only, and only a reset starts a new one. */
  lemma {:induction false} StepSpawns(names: BitNames, policies: map<string, Policy>, st: State, e: Event)
    ensures var next := Step(names, policies, st, e);
            && next.epoch == (if e.Reset? then st.epoch + 1 else st.epoch)
            && forall l :: l in next.lookups ==> l in st.lookups || l.epoch == next.epoch
  {
    match e {
      case StoreReading(r, quota) =>
        if quota > 0 {
          var changes := Limit(ChangesFor(names, st.masks, r), quota - 1);
          LogChangesSpawn(Remember(names, st, r), r.ts, st.db.samples.sequence + 1, r.device, changes);
          LogChangesFrame(Remember(names, st, r), r.ts, st.db.samples.sequence + 1, r.device, changes);
        }
      case ContextTick(ts, obs, quota) =>
        var stamped := Stamped(ts, obs);
        var start := st.(last := LastAfter(st.last, stamped));
        StoreSnapshotsSpawn(start, map[], stamped, quota);
        var (stored, ids, left) := StoreSnapshots(start, map[], stamped, quota);
        if left.Some? { LogContextChangesSpawn(stored, ids, Log(policies, st.last, stamped), left.value); }
      case _ =>
    }
  }

  lemma {:induction false} EpochCountsResets(names: BitNames, policies: map<string, Policy>, st: State, events: seq<Event>)
    ensures Run(names, policies, st, events).epoch == st.epoch + Resets(events)
  {
    if events != [] {
      var front := events[..|events| - 1];
      EpochCountsResets(names, policies, st, front);
      StepSpawns(names, policies, Run(names, policies, st, front), events[|events| - 1]);
    }
  }

  /** The lookup was spawned by step e of a run and is still in flight after the rest of it. */
  ghost predicate SpawnedBy(names: BitNames, policies: map<string, Policy>, before: seq<Event>, e: Event, rest: seq<Event>, l: Lookup) {
    && l !in Run(names, policies, INITIAL, before).lookups
    && l in Run(names, policies, INITIAL, before + [e]).lookups
    && l in Run(names, policies, INITIAL, before + [e] + rest).lookups
  }

  lemma {:induction false} SpawnEpoch(names: BitNames, policies: map<string, Policy>, before: seq<Event>, e: Event, l: Lookup)
    requires l !in Run(names, policies, INITIAL, before).lookups
    requires l in Run(names, policies, INITIAL, before + [e]).lookups
    ensures l.epoch == Run(names, policies, INITIAL, before + [e]).epoch
  {
    assert (before + [e])[..|before|] == before;
    StepSpawns(names, policies, Run(names, policies, INITIAL, before), e);
  }

  lemma {:induction false} QuietRun(names: BitNames, policies: map<string, Policy>, before: seq<Event>, rest: seq<Event>)
    requires Resets(rest) == 0
    ensures Run(names, policies, INITIAL, before + rest).epoch == Run(names, policies, INITIAL, before).epoch
  {
    RunAppend(names, policies, INITIAL, before, rest);
    EpochCountsResets(names, policies, Run(names, policies, INITIAL, before), rest);
  }

  /** In every run without a reset since the lookup was spawned, whatever was pruned or inserted meanwhile: the event
      is accepted exactly when the spawning transition is still stored, and no other row carries its id. */
  lemma {:induction false} DeliveredToItsSpawner(names: BitNames, policies: map<string, Policy>, before: seq<Event>, e: Event, rest: seq<Event>,
                              l: Lookup, ts: int, message: string)
    requires SpawnedBy(names, policies, before, e, rest, l) && Resets(rest) == 0
    ensures var db := Run(names, policies, INITIAL, before + [e] + rest).db;
            OnlySpawner(db, l) && (DeliverTo(db, l, ts, message).Some? <==> SpawnerStored(db, l))
  {
    SpawnEpoch(names, policies, before, e, l);
    QuietRun(names, policies, before + [e], rest);
    ReachableInv(names, policies, before + [e] + rest);
    FreshDelivery(names, Run(names, policies, INITIAL, before + [e] + rest), l, ts, message);
  }

  // ---- lookups that outlive a reset ----

  function SpawnTime(l: Lookup): int {
    match l
    case FlagLookup(row, _) => row.ts
    case ContextLookup(row, _) => row.ts
  }

  /** Some stored transition has the id the lookup will file its events under. */
  predicate IdInUse(db: Db, l: Lookup) {
    if l.FlagLookup? then HasId(db.transitions, l.flagRow.id) else HasId(db.contextTransitions, l.contextRow.id)
  }

  /** What is collected after a reset is collected later. Both callers of a reset see to it: they wait until the newest
      sample or snapshot is five seconds old. */
  ghost predicate LaterAfterReset(events: seq<Event>, time: int) {
    forall i, j :: 0 <= i < j < |events| && events[i].Reset? ==> Later(events[j], time)
  }

  ghost predicate AllLater<T>(rows: seq<Row<T>>, time: int) {
    forall t :: t in rows ==> t.ts > time
  }

  lemma {:induction false} StepTime(names: BitNames, policies: map<string, Policy>, st: State, e: Event, time: int)
    requires !e.Reset? && Later(e, time)
    requires AllLater(st.db.transitions.rows, time) && AllLater(st.db.contextTransitions.rows, time)
    ensures var db := Step(names, policies, st, e).db;
            AllLater(db.transitions.rows, time) && AllLater(db.contextTransitions.rows, time)
  {
    StepGrows(names, policies, st, e, Some(time));
  }

  lemma {:induction false} ResetClears(names: BitNames, policies: map<string, Policy>, st: State, time: int)
    ensures var db := Step(names, policies, st, Reset).db;
            AllLater(db.transitions.rows, time) && AllLater(db.contextTransitions.rows, time)
  {
    ResetIsEmpty(st.db);
  }

  /** Once a run has reset, it stores only transitions it collected since. */
  lemma {:induction false} OnlyLaterRows(names: BitNames, policies: map<string, Policy>, st: State, rest: seq<Event>, time: int)
    requires LaterAfterReset(rest, time) && Resets(rest) > 0
    ensures var db := Run(names, policies, st, rest).db;
            AllLater(db.transitions.rows, time) && AllLater(db.contextTransitions.rows, time)
  {
    var front, last := rest[..|rest| - 1], rest[|rest| - 1];
    if last.Reset? {
      ResetClears(names, policies, Run(names, policies, st, front), time);
    } else {
      assert Resets(front) == Resets(rest);
      var i := FirstReset(front);
      assert rest[i].Reset?;
      OnlyLaterRows(names, policies, st, front, time);
      StepTime(names, policies, Run(names, policies, st, front), last, time);
    }
  }

  lemma {:induction false} FirstReset(events: seq<Event>) returns (i: nat)
    requires Resets(events) > 0
    ensures i < |events| && events[i].Reset?
  {
    var e := Select(events, IsReset)[0];
    assert e in Select(events, IsReset);
    i :| 0 <= i < |events| && events[i] == e;
  }

  /** Among rows that are all later than the spawner, whatever carries its id is another transition. */
  lemma {:induction false} LaterIsAnother(db: Db, l: Lookup, ts: int, message: string)
    requires AllLater(db.transitions.rows, SpawnTime(l)) && AllLater(db.contextTransitions.rows, SpawnTime(l))
    ensures !SpawnerStored(db, l) && (OnlySpawner(db, l) <==> !IdInUse(db, l))
    ensures DeliverTo(db, l, ts, message).Some? <==> IdInUse(db, l)
  { }

  /** After a reset, however much later, no lookup pending at it meets its spawner: its events are accepted exactly when
      the id is in use again, and then they are filed under another transition. */
  lemma {:induction false} ResetOrphansLookups(names: BitNames, policies: map<string, Policy>, events: seq<Event>, rest: seq<Event>,
                            l: Lookup, ts: int, message: string)
    requires l in Run(names, policies, INITIAL, events).lookups
    requires forall e :: e in rest ==> Later(e, SpawnTime(l))
    ensures var st := Run(names, policies, INITIAL, events + ([Reset] + rest));
            && !SpawnerStored(st.db, l) && l.epoch < st.epoch && (OnlySpawner(st.db, l) <==> !IdInUse(st.db, l))
            && (DeliverTo(st.db, l, ts, message).Some? <==> IdInUse(st.db, l))
  {
    var before, since := Run(names, policies, INITIAL, events), [Reset] + rest;
    ReachableInv(names, policies, events);
    assert LookupValid(before, l);
    RunAppend(names, policies, INITIAL, events, since);
    SelectAppend([Reset], rest, IsReset);
    SelectAll([Reset], IsReset);
    EpochCountsResets(names, policies, before, since);
    forall i, j | 0 <= i < j < |since| && since[i].Reset? ensures Later(since[j], SpawnTime(l)) { assert since[j] in rest; }
    OnlyLaterRows(names, policies, before, since, SpawnTime(l));
    LaterIsAnother(Run(names, policies, before, since).db, l, ts, message);
  }

  /** An event finds its own transition or is refused. */
  ghost predicate DeliveredRight(db: Db, l: Lookup, ts: int, message: string) {
    OnlySpawner(db, l) && (DeliverTo(db, l, ts, message).Some? <==> SpawnerStored(db, l))
  }

  lemma {:induction false} StaleDelivery(names: BitNames, policies: map<string, Policy>, before: seq<Event>, rest: seq<Event>, l: Lookup, ts: int, message: string)
    requires Resets(rest) > 0 && LaterAfterReset(rest, SpawnTime(l))
    ensures var db := Run(names, policies, INITIAL, before + rest).db;
            !SpawnerStored(db, l) && (DeliveredRight(db, l, ts, message) <==> !IdInUse(db, l))
  {
    RunAppend(names, policies, INITIAL, before, rest);
    OnlyLaterRows(names, policies, Run(names, policies, INITIAL, before), rest, SpawnTime(l));
    LaterIsAnother(Run(names, policies, INITIAL, before + rest).db, l, ts, message);
  }

  /** The exact condition, for throttle and context lookups alike and over every run: an event delivered arbitrarily
      late reaches its own transition or none exactly when there was no reset since, or its id is not in use again. */
  lemma {:induction false} DeliveryIsRightExactly(names: BitNames, policies: map<string, Policy>, before: seq<Event>, e: Event, rest: seq<Event>,
                               l: Lookup, ts: int, message: string)
    requires SpawnedBy(names, policies, before, e, rest, l) && LaterAfterReset(rest, SpawnTime(l))
    ensures var db := Run(names, policies, INITIAL, before + [e] + rest).db;
            DeliveredRight(db, l, ts, message) <==> Resets(rest) == 0 || !IdInUse(db, l)
  {
    if Resets(rest) == 0 {
      DeliveredToItsSpawner(names, policies, before, e, rest, l, ts, message);
    } else {
      StaleDelivery(names, policies, before + [e], rest, l, ts, message);
    }
  }

  // ---- why the reset matters ----

  /** Two readings, a reset at the time `now`, a reading then, and the late answer to the second reading's lookup. */
  function ResetWhilePending(ts: int, now: int): seq<Event> {
    TwoReadings(ts) + [Reset, StoreReading(At(now, 0), 9), Deliver(0, now + 1, "throttled")]
  }

  /** The transition that gets the spawner's id. */
  function Heir(now: int): Row<Transition> {
    Row(1, now, Transition(1, DEVICE, "SPL", true, false))
  }

  function AfterReset(names: BitNames, policies: map<string, Policy>, ts: int, now: int): State {
    Store(names, Step(names, policies, AfterTwo(names, ts), Reset), At(now, 0), 9)
  }

  /** The second reading spawned a lookup for transition 1; after the reset the third reading reuses the id. */
  lemma {:induction false} ReusedId(policies: map<string, Policy>, ts: int, now: int)
    ensures var s4 := AfterReset(ONE_BIT, policies, ts, now);
            && s4.db.transitions.rows == [Heir(now)] && s4.db.journal == Table([], 0)
            && s4.lookups == [FlagLookup(Assertion(ts), 0), FlagLookup(Heir(now), 1)]
  {
    ResetIsEmpty(AfterTwo(ONE_BIT, ts).db);
    StoreOne(Step(ONE_BIT, policies, AfterTwo(ONE_BIT, ts), Reset), now, 0);
  }

  lemma {:induction false} ResetIsEmpty(db: Db)
    ensures ResetUpTo(db, RESET_STATEMENTS) == EMPTY_DB
  {
    ResetTables(db, RESET_STATEMENTS - 1);
  }

  /** With a reset while the lookup is in flight the property fails, even though the reset waited for its quiet period:
      the event spawned by the SPL assertion is filed under the later transition that got the same id. */
  lemma {:induction false} ResetMisattaches(policies: map<string, Policy>, ts: int, now: int)
    requires now - (ts + 1) >= QUIET_MS
    ensures var events := ResetWhilePending(ts, now);
            var end := Run(ONE_BIT, policies, INITIAL, events);
            && Quiet(Run(ONE_BIT, policies, INITIAL, events[..2]).db, now, QUIET_MS)
            && Run(ONE_BIT, policies, INITIAL, events[..4]).lookups != []
            && Run(ONE_BIT, policies, INITIAL, events[..4]).lookups[0] == FlagLookup(Assertion(ts), 0)
            && end.db.transitions.rows == [Heir(now)] && end.db.journal.rows == [Row(1, now + 1, JournalEvent(1, "throttled"))]
  {
    RunPending(policies, ts, now);
    ReusedId(policies, ts, now);
    TwoReadingsAreQuiet(ts, now);
    DeliverFirst(policies, AfterReset(ONE_BIT, policies, ts, now), now + 1, "throttled");
  }

  lemma {:induction false} RunPending(policies: map<string, Policy>, ts: int, now: int)
    ensures var events := ResetWhilePending(ts, now);
            && Run(ONE_BIT, policies, INITIAL, events[..2]) == AfterTwo(ONE_BIT, ts)
            && Run(ONE_BIT, policies, INITIAL, events[..4]) == AfterReset(ONE_BIT, policies, ts, now)
            && Run(ONE_BIT, policies, INITIAL, events) == Step(ONE_BIT, policies, AfterReset(ONE_BIT, policies, ts, now), Deliver(0, now + 1, "throttled"))
  {
    var two := TwoReadings(ts);
    var three := two + [Reset];
    var four := three + [StoreReading(At(now, 0), 9)];
    RunTwoReadings(policies, ts);
    RunPush(ONE_BIT, policies, INITIAL, two, Reset);
    RunPush(ONE_BIT, policies, INITIAL, three, StoreReading(At(now, 0), 9));
    RunPush(ONE_BIT, policies, INITIAL, four, Deliver(0, now + 1, "throttled"));
    assert ResetWhilePending(ts, now) == four + [Deliver(0, now + 1, "throttled")];
    assert ResetWhilePending(ts, now)[..2] == two && ResetWhilePending(ts, now)[..4] == four;
  }
}

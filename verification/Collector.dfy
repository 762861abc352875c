/** The collector as a state machine: every way its ticks, journal lookups, prunes, resets and restarts interleave. */
module Collector {
  import opened Rows
  import opened Throttle
  import opened Database
  import opened Context

  /** What the hardware collector reports for one device at one tick. */
  datatype Reading = Reading(
    ts: int, device: string, deviceName: string, raw: Option<int>, mask: u64,
    apuPower: Option<u32>, temperature: Option<real>)

  /** A journal lookup in flight, and the transition that spawned it. `epoch` counts the resets seen so far. */
  datatype Lookup =
    | FlagLookup(flagRow: Row<Transition>, epoch: nat)
    | ContextLookup(contextRow: Row<ContextTransition>, epoch: nat)

  /** The database, the collector process's memory, and two history variables: how many resets there have been, and
      the last sample id that was stored before this process started (0 after a reset). */
  datatype State = State(
    db: Db, masks: map<string, u64>, last: map<string, Snapshot>, lookups: seq<Lookup>, epoch: nat, runStart: nat)

  const INITIAL := State(EMPTY_DB, map[], map[], [], 0, 0)

  /** `quota` is the number of INSERTs the database accepts before one fails and ends the tick. */
  datatype Event =
    | StoreReading(reading: Reading, quota: nat)
    | ContextTick(ts: int, obs: seq<Observation>, quota: nat)
    | Deliver(lookup: nat, eventTs: int, message: string)
    | LookupDone(lookup: nat)
    | PruneBefore(cutoff: int)
    | Reset
    | Restart
    | Harvest(collectedAt: int, info: string)
    | Mark(markTs: int, name: string, detail: Option<string>)

  // ---- tick_gpu ----

  /** The row a reading is stored as; the collector itself derives the flag list from the mask. */
  function SampleFor(names: BitNames, r: Reading): Sample {
    Sample(r.device, r.deviceName, r.raw, AsI64(r.mask), ActiveFlags(names, r.mask), r.apuPower, r.temperature)
  }

  /** Without a remembered mask the device is compared with itself, so its first reading logs nothing. */
  function ChangesFor(names: BitNames, masks: map<string, u64>, r: Reading): seq<Throttle.Change> {
    Diff(names, if r.device in masks then masks[r.device] else r.mask, r.mask)
  }

  function TransitionFor(sampleId: int, device: string, c: Throttle.Change): Transition {
    Transition(sampleId, device, c.flag, c.oldValue, c.newValue)
  }

  /** One transition row and one spawned lookup per change. */
  function LogChanges(st: State, ts: int, sampleId: int, device: string, changes: seq<Throttle.Change>): State {
    if changes == [] then st else
    var prev := LogChanges(st, ts, sampleId, device, changes[..|changes| - 1]);
    LogChange(prev, ts, TransitionFor(sampleId, device, changes[|changes| - 1]))
  }

  function LogChange(st: State, ts: int, t: Transition): State {
    st.(db := st.db.(transitions := Insert(st.db.transitions, ts, t)),
        lookups := st.lookups + [FlagLookup(Row(st.db.transitions.sequence + 1, ts, t), st.epoch)])
  }

  /** The sample is in, and the remembered mask replaced, before any transition is inserted. */
  function Remember(names: BitNames, st: State, r: Reading): State {
    st.(db := st.db.(samples := Insert(st.db.samples, r.ts, SampleFor(names, r))), masks := st.masks[r.device := r.mask])
  }

  /** One round of the loop in `tick_gpu`. */
  function Store(names: BitNames, st: State, r: Reading, quota: nat): State {
    if quota == 0 then st else
    LogChanges(Remember(names, st, r), r.ts, st.db.samples.sequence + 1, r.device,
               Limit(ChangesFor(names, st.masks, r), quota - 1))
  }

  /** How many INSERTs a reading needs. */
  function Cost(names: BitNames, st: State, r: Reading): nat {
    1 + |ChangesFor(names, st.masks, r)|
  }

  /** `tick_gpu` over the first n readings; the first failing INSERT ends the tick and leaves no quota. */
  function GpuTick(names: BitNames, st: State, readings: seq<Reading>, quota: nat, n: nat): (State, Option<nat>)
    requires n <= |readings|
  {
    if n == 0 then (st, Some(quota)) else
    var (now, left) := GpuTick(names, st, readings, quota, n - 1);
    if left.None? then (now, None) else
    var cost := Cost(names, now, readings[n - 1]);
    (Store(names, now, readings[n - 1], left.value), if left.value < cost then None else Some(left.value - cost))
  }

  // ---- tick_context ----

  function Stamped(ts: int, obs: seq<Observation>): (r: seq<Observation>)
    ensures |r| == |obs| && forall i :: 0 <= i < |obs| ==> r[i].snap.ts == ts
  {
    seq(|obs|, i requires 0 <= i < |obs| => obs[i].(snap := obs[i].snap.(ts := ts)))
  }

  function StoreValue(st: State, id: int, snap: Snapshot, v: ContextValue): State {
    st.(db := st.db.(values := Insert(st.db.values, snap.ts, ValueRow(id, snap.source, FullKey(snap.source, v.key), v.num, v.str))))
  }

  /** The values of one snapshot; no quota is left over when an INSERT failed. */
  function StoreValues(st: State, id: int, snap: Snapshot, values: seq<ContextValue>, quota: nat): (State, Option<nat>)
    decreases values
  {
    if values == [] then (st, Some(quota))
    else if quota == 0 then (st, None)
    else StoreValues(StoreValue(st, id, snap, values[0]), id, snap, values[1..], quota - 1)
  }

  function StoreSnapshot(st: State, snap: Snapshot): State {
    st.(db := st.db.(snapshots := Insert(st.db.snapshots, snap.ts, SnapshotRow(snap.source, snap.health))))
  }

  /** The snapshots of a tick, and the id each source's snapshot received. */
  function StoreSnapshots(st: State, ids: map<string, int>, obs: seq<Observation>, quota: nat): (State, map<string, int>, Option<nat>)
    decreases obs
  {
    if obs == [] then (st, ids, Some(quota))
    else if quota == 0 then (st, ids, None)
    else
      var snap, id := obs[0].snap, st.db.snapshots.sequence + 1;
      var (stored, left) := StoreValues(StoreSnapshot(st, snap), id, snap, snap.values, quota - 1);
      if left.None? then (stored, ids[snap.source := id], None)
      else StoreSnapshots(stored, ids[snap.source := id], obs[1..], left.value)
  }

  function LogContextChange(st: State, id: int, c: ContextChange): State {
    var t := ContextTransition(id, c.source, c.key, c.oldValue, c.newValue);
    st.(db := st.db.(contextTransitions := Insert(st.db.contextTransitions, c.ts, t)),
        lookups := st.lookups + [ContextLookup(Row(st.db.contextTransitions.sequence + 1, c.ts, t), st.epoch)])
  }

  /** A change without a stored snapshot is skipped. */
  function LogContextChanges(st: State, ids: map<string, int>, changes: seq<ContextChange>, quota: nat): State
    decreases changes
  {
    if changes == [] then st
    else if changes[0].source !in ids then LogContextChanges(st, ids, changes[1..], quota)
    else if quota == 0 then st
    else LogContextChanges(LogContextChange(st, ids[changes[0].source], changes[0]), ids, changes[1..], quota - 1)
  }

  /** The INSERTs of a tick: its snapshots with their values, then its changes. */
  function StoreTick(st: State, obs: seq<Observation>, changes: seq<ContextChange>, quota: nat): State {
    var (stored, ids, left) := StoreSnapshots(st, map[], obs, quota);
    if left.None? then stored else LogContextChanges(stored, ids, changes, left.value)
  }

  /** `tick_context`: the registry has already moved on when the first INSERT fails. */
  function TickContext(policies: map<string, Policy>, st: State, ts: int, obs: seq<Observation>, quota: nat): State {
    var stamped := Stamped(ts, obs);
    StoreTick(st.(last := LastAfter(st.last, stamped)), stamped, Log(policies, st.last, stamped), quota)
  }

  // ---- journal lookups ----

  /** One event arriving from a lookup; the database refuses it when the transition is gone. */
  function DeliverTo(db: Db, lookup: Lookup, ts: int, message: string): Option<Db> {
    match lookup
    case FlagLookup(row, _) => InsertJournalEvent(db, ts, JournalEvent(row.id, message))
    case ContextLookup(row, _) => InsertContextJournalEvent(db, ts, JournalEvent(row.id, message))
  }

  // ---- the machine ----

  function Step(names: BitNames, policies: map<string, Policy>, st: State, e: Event): State {
    match e
    case StoreReading(r, quota) => Store(names, st, r, quota)
    case ContextTick(ts, obs, quota) => TickContext(policies, st, ts, obs, quota)
    case Deliver(i, ts, message) =>
      if i >= |st.lookups| then st else
      var db := DeliverTo(st.db, st.lookups[i], ts, message);
      if db.Some? then st.(db := db.value) else st
    case LookupDone(i) =>
      if i >= |st.lookups| then st else st.(lookups := st.lookups[..i] + st.lookups[i + 1..])
    case PruneBefore(cutoff) => st.(db := Prune(st.db, cutoff))
    case Reset => st.(db := ResetUpTo(st.db, RESET_STATEMENTS), epoch := st.epoch + 1, runStart := 0)
    case Restart => st.(masks := map[], last := map[], lookups := [], runStart := st.db.samples.sequence)
    case Harvest(ts, info) => st.(db := st.db.(systemInfo := Insert(st.db.systemInfo, ts, info)))
    case Mark(ts, name, detail) => st.(db := st.db.(markers := Insert(st.db.markers, ts, Marker(name, detail))))
  }

  /** The state after a whole run. */
  function Run(names: BitNames, policies: map<string, Policy>, st: State, events: seq<Event>): State {
    if events == [] then st else
    Step(names, policies, Run(names, policies, st, events[..|events| - 1]), events[|events| - 1])
  }

  lemma {:induction false} RunAppend(names: BitNames, policies: map<string, Policy>, st: State, a: seq<Event>, b: seq<Event>)
    ensures Run(names, policies, st, a + b) == Run(names, policies, Run(names, policies, st, a), b)
  {
    if b == [] {
      assert a + b == a;
    } else {
      assert (a + b)[..|a + b| - 1] == a + b[..|b| - 1];
      RunAppend(names, policies, st, a, b[..|b| - 1]);
    }
  }

  predicate IsReset(e: Event) { e.Reset? }

  function Resets(events: seq<Event>): nat {
    |Select(events, IsReset)|
  }

  /** If the step collects at all, it collects at a later time. */
  predicate Later(e: Event, time: int) {
    match e
    case StoreReading(r, _) => r.ts > time
    case ContextTick(ts, _, _) => ts > time
    case _ => true
  }

  function TickEvents(names: BitNames, st: State, readings: seq<Reading>, quota: nat, n: nat): seq<Event>
    requires n <= |readings|
  {
    if n == 0 then [] else
    var left := GpuTick(names, st, readings, quota, n - 1).1;
    var before := TickEvents(names, st, readings, quota, n - 1);
    if left.None? then before else before + [StoreReading(readings[n - 1], left.value)]
  }

  lemma {:induction false} RunPush(names: BitNames, policies: map<string, Policy>, st: State, events: seq<Event>, e: Event)
    ensures Run(names, policies, st, events + [e]) == Step(names, policies, Run(names, policies, st, events), e)
  {
    assert (events + [e])[..|events|] == events;
  }

  lemma {:induction false} RunStore(names: BitNames, policies: map<string, Policy>, st: State, events: seq<Event>, r: Reading, quota: nat)
    ensures Run(names, policies, st, events + [StoreReading(r, quota)]) == Store(names, Run(names, policies, st, events), r, quota)
  {
    RunPush(names, policies, st, events, StoreReading(r, quota));
  }

  /** A whole GPU tick is a run of single-reading steps, so a statement about every run covers every tick. */
  lemma {:induction false} GpuTickIsARun(names: BitNames, policies: map<string, Policy>, st: State, readings: seq<Reading>, quota: nat, n: nat)
    requires n <= |readings|
    ensures GpuTick(names, st, readings, quota, n).0 == Run(names, policies, st, TickEvents(names, st, readings, quota, n))
  {
    if n > 0 {
      GpuTickIsARun(names, policies, st, readings, quota, n - 1);
      var before, events := GpuTick(names, st, readings, quota, n - 1), TickEvents(names, st, readings, quota, n - 1);
      if before.1.None? {
        assert TickEvents(names, st, readings, quota, n) == events;
      } else {
        RunStore(names, policies, st, events, readings[n - 1], before.1.value);
        assert TickEvents(names, st, readings, quota, n) == events + [StoreReading(readings[n - 1], before.1.value)];
      }
    }
  }
}

/** What a tick leaves in its tables, row by row. */
module TickRows {
  import opened Rows
  import opened Throttle
  import opened Database
  import opened Context
  import opened Collector
  import opened ContextTicks
  import opened Invariants

  // ---- tick_gpu ----

  /** The stored form of a reading, the mask through the signed column. */
  ghost predicate Stores(names: BitNames, row: Row<Sample>, id: int, r: Reading) {
    && row.id == id && row.ts == r.ts
    && row.body.device == r.device && row.body.deviceName == r.deviceName
    && row.body.raw == r.raw && row.body.apuPower == r.apuPower && row.body.temperature == r.temperature
    && (row.body.status == r.mask || row.body.status == r.mask - 0x1_0000_0000_0000_0000) && AsU64(row.body.status) == r.mask
    && row.body.flags == ActiveFlags(names, r.mask)
  }

  /** The table gained one row per reading, in order, under the next ids. */
  ghost predicate AppendsReadings(names: BitNames, before: Table<Sample>, after: Table<Sample>, readings: seq<Reading>, n: nat)
    requires n <= |readings|
  {
    && |after.rows| == |before.rows| + n && after.sequence == before.sequence + n
    && (forall k :: 0 <= k < |before.rows| ==> after.rows[k] == before.rows[k])
    && (forall k :: 0 <= k < n ==> Stores(names, after.rows[|before.rows| + k], before.sequence + 1 + k, readings[k]))
  }

  /** The k-th of the first n readings is the last one of its device. */
  ghost predicate LastReading(readings: seq<Reading>, n: nat, k: nat)
    requires n <= |readings|
  {
    k < n && forall j :: k < j < n ==> readings[j].device != readings[k].device
  }

  ghost predicate NotRead(readings: seq<Reading>, n: nat, device: string)
    requires n <= |readings|
  {
    forall j :: 0 <= j < n ==> readings[j].device != device
  }

  /** Every reading's mask is remembered until the device's next one. */
  ghost predicate Remembers(before: map<string, u64>, after: map<string, u64>, readings: seq<Reading>, n: nat)
    requires n <= |readings|
  {
    && (forall k :: 0 <= k < n && LastReading(readings, n, k) ==>
          readings[k].device in after && after[readings[k].device] == readings[k].mask)
    && (forall device :: NotRead(readings, n, device) ==>
          (device in after <==> device in before) && (device in before ==> after[device] == before[device]))
  }

  lemma {:induction false} LogChangesCount(st: State, ts: int, sampleId: int, device: string, changes: seq<Throttle.Change>)
    ensures |LogChanges(st, ts, sampleId, device, changes).db.transitions.rows| == |st.db.transitions.rows| + |changes|
  {
    if changes != [] { LogChangesCount(st, ts, sampleId, device, changes[..|changes| - 1]); }
  }

  /** One round: the sample, then as many changes as the quota allows. */
  lemma {:induction false} StoreRows(names: BitNames, st: State, r: Reading, quota: nat)
    requires quota > 0
    ensures var now := Store(names, st, r, quota);
            && AppendsReadings(names, st.db.samples, now.db.samples, [r], 1)
            && now.masks == st.masks[r.device := r.mask]
            && |now.db.transitions.rows| == |st.db.transitions.rows| + (if quota < Cost(names, st, r) then quota else Cost(names, st, r)) - 1
  {
    var start, changes := Remember(names, st, r), Limit(ChangesFor(names, st.masks, r), quota - 1);
    LogChangesFrame(start, r.ts, st.db.samples.sequence + 1, r.device, changes);
    LogChangesCount(start, r.ts, st.db.samples.sequence + 1, r.device, changes);
    MaskRoundTrip(r.mask);
  }

  function GpuRows(st: State): nat {
    |st.db.samples.rows| + |st.db.transitions.rows|
  }

  lemma {:induction false} OneMoreReading(names: BitNames, before: Table<Sample>, now: Table<Sample>, next: Table<Sample>, readings: seq<Reading>, n: nat)
    requires n < |readings|
    requires AppendsReadings(names, before, now, readings, n) && AppendsReadings(names, now, next, [readings[n]], 1)
    ensures AppendsReadings(names, before, next, readings, n + 1)
  {
    assert Stores(names, next.rows[|now.rows| + 0], now.sequence + 1 + 0, [readings[n]][0]);
    forall k | 0 <= k < n ensures Stores(names, next.rows[|before.rows| + k], before.sequence + 1 + k, readings[k]) {
      assert Stores(names, now.rows[|before.rows| + k], before.sequence + 1 + k, readings[k]);
    }
  }

  lemma {:induction false} OneMoreMask(before: map<string, u64>, now: map<string, u64>, readings: seq<Reading>, n: nat)
    requires n < |readings| && Remembers(before, now, readings, n)
    ensures Remembers(before, now[readings[n].device := readings[n].mask], readings, n + 1)
  {
    var next := now[readings[n].device := readings[n].mask];
    forall k | 0 <= k < n + 1 && LastReading(readings, n + 1, k)
      ensures readings[k].device in next && next[readings[k].device] == readings[k].mask
    {
      if k < n { assert LastReading(readings, n, k); }
    }
    forall device | NotRead(readings, n + 1, device)
      ensures (device in next <==> device in before) && (device in before ==> next[device] == before[device])
    {
      assert NotRead(readings, n, device);
    }
  }

  /** The tick has stored the first m of n readings, all of them while some quota is left, and used up what it stored. */
  ghost predicate Ticked(names: BitNames, st: State, tick: (State, Option<nat>), readings: seq<Reading>, quota: nat, m: nat, n: nat)
    requires m <= n <= |readings|
  {
    && AppendsReadings(names, st.db.samples, tick.0.db.samples, readings, m)
    && Remembers(st.masks, tick.0.masks, readings, m)
    && (tick.1.Some? ==> m == n)
    && GpuRows(tick.0) + (if tick.1.Some? then tick.1.value else 0) == GpuRows(st) + quota
  }

  lemma {:induction false} NextRound(names: BitNames, st: State, now: State, left: nat, readings: seq<Reading>, quota: nat, n: nat)
    requires n < |readings| && left > 0 && Ticked(names, st, (now, Some(left)), readings, quota, n, n)
    ensures var cost := Cost(names, now, readings[n]);
            Ticked(names, st, (Store(names, now, readings[n], left), if left < cost then None else Some(left - cost)), readings, quota, n + 1, n + 1)
  {
    StoreRows(names, now, readings[n], left);
    OneMoreReading(names, st.db.samples, now.db.samples, Store(names, now, readings[n], left).db.samples, readings, n);
    OneMoreMask(st.masks, now.masks, readings, n);
  }

  lemma {:induction false} NoRound(names: BitNames, st: State, now: State, left: Option<nat>, readings: seq<Reading>, quota: nat, m: nat, n: nat)
    requires m <= n < |readings| && Ticked(names, st, (now, left), readings, quota, m, n)
    requires left.None? || left.value == 0
    ensures Ticked(names, st, (now, None), readings, quota, m, n + 1)
  { }

  lemma {:induction false} TickRound(names: BitNames, st: State, readings: seq<Reading>, quota: nat, n: nat)
    requires n < |readings|
    ensures var (now, left) := GpuTick(names, st, readings, quota, n);
            GpuTick(names, st, readings, quota, n + 1)
            == if left.None? || left.value == 0 then (now, None)
               else (Store(names, now, readings[n], left.value),
                     if left.value < Cost(names, now, readings[n]) then None else Some(left.value - Cost(names, now, readings[n])))
  { }

  /** The steps are the first readings, in order, all of them while some quota is left. */
  ghost predicate StepsAre(events: seq<Event>, left: Option<nat>, readings: seq<Reading>, n: nat)
    requires n <= |readings|
  {
    && |events| <= n && (left.Some? ==> |events| == n)
    && forall k :: 0 <= k < |events| ==> events[k].StoreReading? && events[k].reading == readings[k]
  }

  lemma {:induction false} NextStep(events: seq<Event>, left: Option<nat>, readings: seq<Reading>, n: nat, after: Option<nat>)
    requires n < |readings| && StepsAre(events, left, readings, n)
    ensures left.None? ==> StepsAre(events, None, readings, n + 1)
    ensures left.Some? ==> StepsAre(events + [StoreReading(readings[n], left.value)], after, readings, n + 1)
  { }

  /** The steps of a tick are its readings, in order, all of them while no INSERT fails. */
  lemma {:induction false} TickEventsAre(names: BitNames, st: State, readings: seq<Reading>, quota: nat, n: nat)
    requires n <= |readings|
    ensures StepsAre(TickEvents(names, st, readings, quota, n), GpuTick(names, st, readings, quota, n).1, readings, n)
  {
    if n > 0 {
      TickEventsAre(names, st, readings, quota, n - 1);
      NextStep(TickEvents(names, st, readings, quota, n - 1), GpuTick(names, st, readings, quota, n - 1).1, readings, n - 1,
               GpuTick(names, st, readings, quota, n).1);
    }
  }

  /** A tick stores one row per reading, up to the first INSERT that fails, and by then it has used up the quota. */
  lemma {:induction false} GpuTickRows(names: BitNames, st: State, readings: seq<Reading>, quota: nat, n: nat) returns (m: nat)
    requires n <= |readings|
    ensures m <= n && Ticked(names, st, GpuTick(names, st, readings, quota, n), readings, quota, m, n)
  {
    m := 0;
    if n > 0 {
      m := GpuTickRows(names, st, readings, quota, n - 1);
      m := OneRound(names, st, readings, quota, m, n - 1);
    }
  }

  lemma {:induction false} OneRound(names: BitNames, st: State, readings: seq<Reading>, quota: nat, m: nat, n: nat) returns (more: nat)
    requires m <= n < |readings| && Ticked(names, st, GpuTick(names, st, readings, quota, n), readings, quota, m, n)
    ensures more <= n + 1 && Ticked(names, st, GpuTick(names, st, readings, quota, n + 1), readings, quota, more, n + 1)
  {
    var tick := GpuTick(names, st, readings, quota, n);
    TickRound(names, st, readings, quota, n);
    if tick.1.None? || tick.1.value == 0 {
      NoRound(names, st, tick.0, tick.1, readings, quota, m, n);
      more := m;
    } else {
      NextRound(names, st, tick.0, tick.1.value, readings, quota, n);
      more := n + 1;
    }
  }

  /** A quota of 65 INSERTs per reading is always enough: a sample and at most one change per bit. */
  lemma {:induction false} EnoughForAll(names: BitNames, st: State, readings: seq<Reading>, quota: nat, n: nat)
    requires n <= |readings| && quota >= 65 * n
    ensures GpuTick(names, st, readings, quota, n).1.Some? && GpuTick(names, st, readings, quota, n).1.value >= quota - 65 * n
  {
    if n > 0 {
      EnoughForAll(names, st, readings, quota, n - 1);
      var now, r := GpuTick(names, st, readings, quota, n - 1).0, readings[n - 1];
      DiffIsShort(names, if r.device in now.masks then now.masks[r.device] else r.mask, r.mask, 64);
    }
  }

  lemma {:induction false} DiffIsShort(names: BitNames, oldMask: u64, newMask: u64, n: nat)
    requires n <= 64
    ensures |DiffUpTo(names, oldMask, newMask, n)| <= n
  {
    if n > 0 { DiffIsShort(names, oldMask, newMask, n - 1); }
  }

  /** A tick that meets no failing INSERT stores every reading. */
  lemma {:induction false} WholeTickRows(names: BitNames, st: State, readings: seq<Reading>, quota: nat)
    ensures GpuTick(names, st, readings, quota, |readings|).1.Some? ==>
              AppendsReadings(names, st.db.samples, GpuTick(names, st, readings, quota, |readings|).0.db.samples, readings, |readings|)
    ensures quota >= 65 * |readings| ==> GpuTick(names, st, readings, quota, |readings|).1.Some?
  {
    var m := GpuTickRows(names, st, readings, quota, |readings|);
    if quota >= 65 * |readings| { EnoughForAll(names, st, readings, quota, |readings|); }
  }

  // ---- tick_context ----

  function ValuesBefore(obs: seq<Observation>, k: nat): nat
    requires k <= |obs|
  {
    if k == 0 then 0 else ValuesBefore(obs, k - 1) + |obs[k - 1].snap.values|
  }

  ghost predicate AppendsSnapshots(before: Table<SnapshotRow>, after: Table<SnapshotRow>, obs: seq<Observation>) {
    && |after.rows| == |before.rows| + |obs| && after.sequence == before.sequence + |obs|
    && (forall k :: 0 <= k < |before.rows| ==> after.rows[k] == before.rows[k])
    && (forall k :: 0 <= k < |obs| ==>
          after.rows[|before.rows| + k] == Row(before.sequence + 1 + k, obs[k].snap.ts, SnapshotRow(obs[k].snap.source, obs[k].snap.health)))
  }

  /** The j-th value of the k-th snapshot, under the id of that snapshot. */
  ghost predicate ValueStored(before: Table<ValueRow>, after: Table<ValueRow>, obs: seq<Observation>, base: int, k: nat, j: nat)
    requires k < |obs| && j < |obs[k].snap.values|
  {
    var n, snap := ValuesBefore(obs, k) + j, obs[k].snap;
    && |before.rows| + n < |after.rows|
    && after.rows[|before.rows| + n]
       == Row(before.sequence + 1 + n, snap.ts,
              ValueRow(base + 1 + k, snap.source, snap.source + "." + snap.values[j].key, snap.values[j].num, snap.values[j].str))
  }

  /** The table gained the values of the snapshots, which have the ids after the given one. */
  ghost predicate AppendsValues(before: Table<ValueRow>, after: Table<ValueRow>, obs: seq<Observation>, base: int) {
    && |after.rows| == |before.rows| + ValuesBefore(obs, |obs|) && after.sequence == before.sequence + ValuesBefore(obs, |obs|)
    && (forall k :: 0 <= k < |before.rows| ==> after.rows[k] == before.rows[k])
    && (forall k, j :: 0 <= k < |obs| && 0 <= j < |obs[k].snap.values| ==> ValueStored(before, after, obs, base, k, j))
  }

  /** The values of the first snapshot up to n, and whatever INSERTs follow. */
  lemma {:induction false} FirstValues(start: Table<ValueRow>, st: State, obs: seq<Observation>, base: int, n: nat, quota: nat)
    requires obs != [] && n <= |obs[0].snap.values| && quota >= |obs[0].snap.values| - n
    requires |st.db.values.rows| == |start.rows| + n && st.db.values.sequence == start.sequence + n
    requires forall k :: 0 <= k < |start.rows| ==> st.db.values.rows[k] == start.rows[k]
    requires forall j :: 0 <= j < n ==> ValueStored(start, st.db.values, obs, base, 0, j)
    ensures var snap := obs[0].snap;
            var next := StoreValues(st, base + 1, snap, snap.values[n..], quota).0.db.values;
            && |next.rows| == |start.rows| + |snap.values| && next.sequence == start.sequence + |snap.values|
            && (forall k :: 0 <= k < |start.rows| ==> next.rows[k] == start.rows[k])
            && (forall j :: 0 <= j < |snap.values| ==> ValueStored(start, next, obs, base, 0, j))
    decreases |obs[0].snap.values| - n
  {
    var snap := obs[0].snap;
    assert ValuesBefore(obs, 0) == 0;
    if n < |snap.values| {
      assert snap.values[n..][0] == snap.values[n] && snap.values[n..][1..] == snap.values[n + 1..];
      var more := StoreValue(st, base + 1, snap, snap.values[n]);
      forall j | 0 <= j < n + 1 ensures ValueStored(start, more.db.values, obs, base, 0, j) {
        if j < n { assert ValueStored(start, st.db.values, obs, base, 0, j); }
      }
      FirstValues(start, more, obs, base, n + 1, quota - 1);
    }
  }

  lemma {:induction false} ValuesFromFront(obs: seq<Observation>, k: nat)
    requires 0 < k <= |obs|
    ensures ValuesBefore(obs, k) == |obs[0].snap.values| + ValuesBefore(obs[1..], k - 1)
  {
    if k > 1 { ValuesFromFront(obs, k - 1); }
  }

  lemma {:induction false} CostCounts(obs: seq<Observation>)
    ensures SnapshotCost(obs) == |obs| + ValuesBefore(obs, |obs|)
  {
    if obs != [] {
      CostCounts(obs[1..]);
      ValuesFromFront(obs, |obs|);
    }
  }

  lemma {:induction false} SnapshotsStored(st: State, ids: map<string, int>, obs: seq<Observation>, quota: nat)
    requires quota >= SnapshotCost(obs)
    ensures AppendsSnapshots(st.db.snapshots, StoreSnapshots(st, ids, obs, quota).0.db.snapshots, obs)
    decreases obs
  {
    if obs != [] {
      var snap, id := obs[0].snap, st.db.snapshots.sequence + 1;
      ValuesStored(StoreSnapshot(st, snap), id, snap, snap.values, quota - 1);
      var (stored, left) := StoreValues(StoreSnapshot(st, snap), id, snap, snap.values, quota - 1);
      SnapshotsStored(stored, ids[snap.source := id], obs[1..], left.value);
    }
  }

  lemma {:induction false} AllValuesStored(st: State, ids: map<string, int>, obs: seq<Observation>, quota: nat)
    requires quota >= SnapshotCost(obs)
    ensures AppendsValues(st.db.values, StoreSnapshots(st, ids, obs, quota).0.db.values, obs, st.db.snapshots.sequence)
    decreases obs
  {
    if obs != [] {
      var snap, id := obs[0].snap, st.db.snapshots.sequence + 1;
      ValuesStored(StoreSnapshot(st, snap), id, snap, snap.values, quota - 1);
      FirstValues(st.db.values, StoreSnapshot(st, snap), obs, id - 1, 0, quota - 1);
      assert snap.values[0..] == snap.values;
      var (stored, left) := StoreValues(StoreSnapshot(st, snap), id, snap, snap.values, quota - 1);
      AllValuesStored(stored, ids[snap.source := id], obs[1..], left.value);
      FirstAndRest(st.db.values, stored.db.values, StoreSnapshots(st, ids, obs, quota).0.db.values, obs, st.db.snapshots.sequence);
    }
  }

  lemma {:induction false} FirstAndRest(before: Table<ValueRow>, mid: Table<ValueRow>, after: Table<ValueRow>, obs: seq<Observation>, base: int)
    requires obs != [] && |mid.rows| == |before.rows| + |obs[0].snap.values| && mid.sequence == before.sequence + |obs[0].snap.values|
    requires forall k :: 0 <= k < |before.rows| ==> mid.rows[k] == before.rows[k]
    requires forall j :: 0 <= j < |obs[0].snap.values| ==> ValueStored(before, mid, obs, base, 0, j)
    requires AppendsValues(mid, after, obs[1..], base + 1)
    ensures AppendsValues(before, after, obs, base)
  {
    assert ValuesBefore(obs, 0) == 0;
    ValuesFromFront(obs, |obs|);
    forall k, j | 0 <= k < |obs| && 0 <= j < |obs[k].snap.values| ensures ValueStored(before, after, obs, base, k, j) {
      if k > 0 {
        ValuesFromFront(obs, k);
        assert ValueStored(mid, after, obs[1..], base + 1, k - 1, j);
      } else {
        assert ValueStored(before, mid, obs, base, 0, j);
      }
    }
  }

  /** A context tick with room for its snapshots and values stores every one of them, at the tick's time. */
  lemma {:induction false} ContextTickRows(policies: map<string, Policy>, st: State, ts: int, obs: seq<Observation>, quota: nat)
    requires quota >= |obs| + ValuesBefore(obs, |obs|)
    ensures var now, stamped := TickContext(policies, st, ts, obs, quota), Stamped(ts, obs);
            && AppendsSnapshots(st.db.snapshots, now.db.snapshots, stamped)
            && AppendsValues(st.db.values, now.db.values, stamped, st.db.snapshots.sequence)
  {
    var stamped, moved := Stamped(ts, obs), st.(last := LastAfter(st.last, Stamped(ts, obs)));
    SameCounts(obs, stamped, |obs|);
    CostCounts(stamped);
    SnapshotsStored(moved, map[], stamped, quota);
    AllValuesStored(moved, map[], stamped, quota);
    SnapshotsCost(moved, map[], stamped, quota);
    var (stored, ids, left) := StoreSnapshots(moved, map[], stamped, quota);
    LogKeepsSnapshots(stored, ids, Log(policies, st.last, stamped), left.value);
  }

  lemma {:induction false} SameCounts(obs: seq<Observation>, stamped: seq<Observation>, k: nat)
    requires k <= |obs| == |stamped| && forall i :: 0 <= i < |obs| ==> |obs[i].snap.values| == |stamped[i].snap.values|
    ensures ValuesBefore(obs, k) == ValuesBefore(stamped, k)
  {
    if k > 0 { SameCounts(obs, stamped, k - 1); }
  }

  lemma {:induction false} LogKeepsSnapshots(st: State, ids: map<string, int>, changes: seq<ContextChange>, quota: nat)
    ensures var next := LogContextChanges(st, ids, changes, quota).db;
            next.snapshots == st.db.snapshots && next.values == st.db.values
    decreases changes
  {
    if changes != [] {
      if changes[0].source !in ids {
        LogKeepsSnapshots(st, ids, changes[1..], quota);
      } else if quota > 0 {
        LogKeepsSnapshots(LogContextChange(st, ids[changes[0].source], changes[0]), ids, changes[1..], quota - 1);
      }
    }
  }

  /** A tick observes each source as it is, at the tick's time. */
  lemma {:induction false} StampedIs(ts: int, obs: seq<Observation>, k: nat)
    requires k < |obs|
    ensures |Stamped(ts, obs)| == |obs|
    ensures var o := Stamped(ts, obs)[k];
            && o.snap.ts == ts && o.snap.source == obs[k].snap.source && o.snap.health == obs[k].snap.health
            && o.snap.values == obs[k].snap.values
  { }

  // ---- lookups ----

  /** One list extends another. */
  ghost predicate Extends<T>(before: seq<T>, after: seq<T>) {
    |before| <= |after| && forall k :: 0 <= k < |before| ==> after[k] == before[k]
  }

  /** Every new transition has spawned its lookup, in order. */
  ghost predicate SpawnsFlags(before: State, after: State) {
    && Extends(before.lookups, after.lookups) && Extends(before.db.transitions.rows, after.db.transitions.rows)
    && |after.lookups| - |before.lookups| == |after.db.transitions.rows| - |before.db.transitions.rows|
    && after.epoch == before.epoch
    && forall k :: |before.lookups| <= k < |after.lookups| ==>
         after.lookups[k] == FlagLookup(after.db.transitions.rows[|before.db.transitions.rows| + (k - |before.lookups|)], before.epoch)
  }

  lemma {:induction false} SpawnsFlagsOn(a: State, b: State, c: State)
    requires SpawnsFlags(a, b) && SpawnsFlags(b, c)
    ensures SpawnsFlags(a, c)
  {
    forall k | |a.lookups| <= k < |c.lookups|
      ensures c.lookups[k] == FlagLookup(c.db.transitions.rows[|a.db.transitions.rows| + (k - |a.lookups|)], a.epoch)
    {
      if k < |b.lookups| {
        assert b.lookups[k] == FlagLookup(b.db.transitions.rows[|a.db.transitions.rows| + (k - |a.lookups|)], a.epoch);
      } else {
        assert c.lookups[k] == FlagLookup(c.db.transitions.rows[|b.db.transitions.rows| + (k - |b.lookups|)], b.epoch);
      }
    }
  }

  lemma {:induction false} ChangeSpawns(st: State, ts: int, t: Transition)
    ensures SpawnsFlags(st, LogChange(st, ts, t))
  { }

  lemma {:induction false} ChangesSpawn(st: State, ts: int, sampleId: int, device: string, changes: seq<Throttle.Change>)
    ensures SpawnsFlags(st, LogChanges(st, ts, sampleId, device, changes))
  {
    if changes != [] {
      var front := LogChanges(st, ts, sampleId, device, changes[..|changes| - 1]);
      ChangesSpawn(st, ts, sampleId, device, changes[..|changes| - 1]);
      ChangeSpawns(front, ts, TransitionFor(sampleId, device, changes[|changes| - 1]));
      SpawnsFlagsOn(st, front, LogChanges(st, ts, sampleId, device, changes));
    }
  }

  lemma {:induction false} StoreSpawns(names: BitNames, st: State, r: Reading, quota: nat)
    ensures SpawnsFlags(st, Store(names, st, r, quota))
  {
    if quota > 0 {
      var start := Remember(names, st, r);
      ChangesSpawn(start, r.ts, st.db.samples.sequence + 1, r.device, Limit(ChangesFor(names, st.masks, r), quota - 1));
      SpawnsFlagsOn(st, start, Store(names, st, r, quota));
    }
  }

  /** Whatever fails, a GPU tick spawns one lookup per transition it stores. */
  lemma {:induction false} GpuTickSpawns(names: BitNames, st: State, readings: seq<Reading>, quota: nat, n: nat)
    requires n <= |readings|
    ensures SpawnsFlags(st, GpuTick(names, st, readings, quota, n).0)
  {
    if n > 0 {
      var tick := GpuTick(names, st, readings, quota, n - 1);
      GpuTickSpawns(names, st, readings, quota, n - 1);
      TickRound(names, st, readings, quota, n - 1);
      if tick.1.Some? && tick.1.value > 0 {
        StoreSpawns(names, tick.0, readings[n - 1], tick.1.value);
        SpawnsFlagsOn(st, tick.0, Store(names, tick.0, readings[n - 1], tick.1.value));
      }
    }
  }

  ghost predicate SpawnsContext(before: State, after: State) {
    && Extends(before.lookups, after.lookups) && Extends(before.db.contextTransitions.rows, after.db.contextTransitions.rows)
    && |after.lookups| - |before.lookups| == |after.db.contextTransitions.rows| - |before.db.contextTransitions.rows|
    && after.epoch == before.epoch
    && forall k :: |before.lookups| <= k < |after.lookups| ==>
         after.lookups[k]
         == ContextLookup(after.db.contextTransitions.rows[|before.db.contextTransitions.rows| + (k - |before.lookups|)], before.epoch)
  }

  lemma {:induction false} SpawnsContextOn(a: State, b: State, c: State)
    requires SpawnsContext(a, b) && SpawnsContext(b, c)
    ensures SpawnsContext(a, c)
  {
    forall k | |a.lookups| <= k < |c.lookups|
      ensures c.lookups[k] == ContextLookup(c.db.contextTransitions.rows[|a.db.contextTransitions.rows| + (k - |a.lookups|)], a.epoch)
    {
      if k < |b.lookups| {
        assert b.lookups[k] == ContextLookup(b.db.contextTransitions.rows[|a.db.contextTransitions.rows| + (k - |a.lookups|)], a.epoch);
      } else {
        assert c.lookups[k] == ContextLookup(c.db.contextTransitions.rows[|b.db.contextTransitions.rows| + (k - |b.lookups|)], b.epoch);
      }
    }
  }

  lemma {:induction false} ContextChangesSpawn(st: State, ids: map<string, int>, changes: seq<ContextChange>, quota: nat)
    ensures SpawnsContext(st, LogContextChanges(st, ids, changes, quota))
    decreases changes
  {
    if changes != [] {
      if changes[0].source !in ids {
        ContextChangesSpawn(st, ids, changes[1..], quota);
      } else if quota > 0 {
        var next := LogContextChange(st, ids[changes[0].source], changes[0]);
        assert SpawnsContext(st, next);
        ContextChangesSpawn(next, ids, changes[1..], quota - 1);
        SpawnsContextOn(st, next, LogContextChanges(next, ids, changes[1..], quota - 1));
      }
    }
  }

  /** So does a context tick. */
  lemma {:induction false} ContextTickSpawns(policies: map<string, Policy>, st: State, ts: int, obs: seq<Observation>, quota: nat)
    ensures SpawnsContext(st, TickContext(policies, st, ts, obs, quota))
  {
    var stamped, moved := Stamped(ts, obs), st.(last := LastAfter(st.last, Stamped(ts, obs)));
    SnapshotsCost(moved, map[], stamped, quota);
    var (stored, ids, left) := StoreSnapshots(moved, map[], stamped, quota);
    if left.Some? { ContextChangesSpawn(stored, ids, Log(policies, st.last, stamped), left.value); }
  }

  // ---- the other steps ----

  /** A new process starts with nothing remembered and no lookup in flight; the database is what it was. */
  lemma {:induction false} RestartForgets(names: BitNames, policies: map<string, Policy>, st: State)
    ensures var next := Step(names, policies, st, Restart);
            && next.db == st.db && next.masks == map[] && next.last == map[] && next.lookups == []
            && next.epoch == st.epoch && next.runStart == st.db.samples.sequence
  { }

  /** A finished lookup leaves; the others stay, in order. */
  lemma {:induction false} LookupLeaves(names: BitNames, policies: map<string, Policy>, st: State, i: nat)
    requires i < |st.lookups|
    ensures var next := Step(names, policies, st, LookupDone(i));
            && next == st.(lookups := next.lookups) && |next.lookups| == |st.lookups| - 1
            && forall k :: 0 <= k < |next.lookups| ==> next.lookups[k] == st.lookups[if k < i then k else k + 1]
  { }

  lemma {:induction false} HarvestAndMark(names: BitNames, policies: map<string, Policy>, st: State, ts: int, info: string, name: string, detail: Option<string>)
    ensures Step(names, policies, st, Harvest(ts, info)).db
         == st.db.(systemInfo := Table(st.db.systemInfo.rows + [Row(st.db.systemInfo.sequence + 1, ts, info)], st.db.systemInfo.sequence + 1))
    ensures Step(names, policies, st, Mark(ts, name, detail)).db
         == st.db.(markers := Table(st.db.markers.rows + [Row(st.db.markers.sequence + 1, ts, Marker(name, detail))], st.db.markers.sequence + 1))
  { }
}

/** What a context tick stores: its snapshots and values, and the changes the database reaches before an INSERT fails. */
module ContextTicks {
  import opened Rows
  import opened Database
  import opened Context
  import opened Collector
  import opened ContextRuns

  // ---- the log as changes ----

  function AsChange(t: Row<ContextTransition>): ContextChange {
    ContextChange(t.ts, t.body.source, t.body.key, t.body.oldValue, t.body.newValue)
  }

  function AsChanges(rows: seq<Row<ContextTransition>>): (r: seq<ContextChange>)
    ensures |r| == |rows| && forall i :: 0 <= i < |r| ==> r[i] == AsChange(rows[i])
  {
    seq(|rows|, i requires 0 <= i < |rows| => AsChange(rows[i]))
  }

  lemma {:induction false} AsChangesAppend(a: seq<Row<ContextTransition>>, b: seq<Row<ContextTransition>>)
    ensures AsChanges(a + b) == AsChanges(a) + AsChanges(b)
  { }

  lemma {:induction false} AsChangesPush(rows: seq<Row<ContextTransition>>, t: Row<ContextTransition>)
    ensures AsChanges(rows + [t]) == AsChanges(rows) + [AsChange(t)]
  { }

  // ---- what a tick logs for one source ----

  ghost predicate DistinctSources(obs: seq<Observation>) {
    forall i, j :: 0 <= i < j < |obs| ==> obs[i].snap.source != obs[j].snap.source
  }

  lemma {:induction false} AbsentSource(policies: map<string, Policy>, last: map<string, Snapshot>, obs: seq<Observation>, source: string)
    requires forall o :: o in obs ==> o.snap.source != source
    ensures Select(Log(policies, last, obs), LoggedBy(source)) == []
    ensures Remembered(LastAfter(last, obs), source) == Remembered(last, source)
  {
    if obs != [] {
      var front, o := obs[..|obs| - 1], obs[|obs| - 1];
      AbsentSource(policies, last, front, source);
      assert o in obs;
      var tick := Tick(policies, LastAfter(last, front), o);
      DiffIsOwn(PolicyOf(policies, o.snap.source), Remembered(LastAfter(last, front), o.snap.source), o);
      SelectNone(tick, LoggedBy(source));
      SelectAppend(Log(policies, last, front), tick, LoggedBy(source));
    }
  }

  lemma {:induction false} PresentSource(policies: map<string, Policy>, last: map<string, Snapshot>, obs: seq<Observation>, i: nat)
    requires DistinctSources(obs) && i < |obs|
    ensures Select(Log(policies, last, obs), LoggedBy(obs[i].snap.source)) == Tick(policies, last, obs[i])
    ensures Remembered(LastAfter(last, obs), obs[i].snap.source) == Some(obs[i].snap)
  {
    var front, o, source := obs[..|obs| - 1], obs[|obs| - 1], obs[i].snap.source;
    var tick := Tick(policies, LastAfter(last, front), o);
    DiffIsOwn(PolicyOf(policies, o.snap.source), Remembered(LastAfter(last, front), o.snap.source), o);
    SelectAppend(Log(policies, last, front), tick, LoggedBy(source));
    if i == |obs| - 1 {
      AbsentSource(policies, last, front, source);
      SelectAll(tick, LoggedBy(source));
    } else {
      PresentSource(policies, last, front, i);
      SelectNone(tick, LoggedBy(source));
    }
  }

  /** The default diff logs a key exactly when the snapshot holds something else under it than is remembered. */
  lemma {:induction false} TickOfKey(previous: Option<Snapshot>, s: Snapshot, key: string)
    requires DistinctKeys(s)
    ensures var d, found := DefaultUpTo(previous, s, |s.values|), Find(s.values, key);
            && (found.Some? && OldValue(previous, key) != ToJson(found.value) ==> LatestLogged(d, FullKey(s.source, key)) == Some(ToJson(found.value)))
            && (Logs(d, FullKey(s.source, key)) <==> found.Some? && OldValue(previous, key) != ToJson(found.value))
  {
    var d, found := DefaultUpTo(previous, s, |s.values|), Find(s.values, key);
    LatestLoggedIsLogged(d, FullKey(s.source, key));
    if found.Some? {
      var i :| 0 <= i < |s.values| && s.values[i] == found.value;
      DefaultLogsKey(previous, s, i);
    } else {
      forall c | c in d ensures c.key != FullKey(s.source, key) { ForeignKey(previous, s, key, c); }
    }
  }

  lemma {:induction false} ForeignKey(previous: Option<Snapshot>, s: Snapshot, key: string, c: ContextChange)
    requires c in DefaultUpTo(previous, s, |s.values|) && Find(s.values, key).None?
    ensures c.key != FullKey(s.source, key)
  {
    DefaultMembers(previous, s, |s.values|, c);
    var j :| 0 <= j < |s.values| && c == ChangeAt(previous, s, s.values[j]);
    if c.key == FullKey(s.source, key) { FullKeyInjective(s.source, s.values[j].key, key); }
  }

  // ---- what a tick stores ----

  /** How many INSERTs the snapshots and values of a tick need. */
  function SnapshotCost(obs: seq<Observation>): nat {
    if obs == [] then 0 else 1 + |obs[0].snap.values| + SnapshotCost(obs[1..])
  }

  /** The changes whose INSERT the database reaches. */
  function Reached(changes: seq<ContextChange>, obs: seq<Observation>, quota: nat): seq<ContextChange> {
    if quota < SnapshotCost(obs) then [] else Limit(changes, quota - SnapshotCost(obs))
  }

  lemma {:induction false} ValuesStored(st: State, id: int, snap: Snapshot, values: seq<ContextValue>, quota: nat)
    ensures var (next, left) := StoreValues(st, id, snap, values, quota);
            && next == st.(db := st.db.(values := next.db.values))
            && left == if quota < |values| then None else Some(quota - |values|)
    decreases values
  {
    if values != [] && quota > 0 { ValuesStored(StoreValue(st, id, snap, values[0]), id, snap, values[1..], quota - 1); }
  }

  /** Each of the sources has an id above lo and up to hi. */
  ghost predicate Handed(ids: map<string, int>, obs: seq<Observation>, lo: int, hi: int) {
    forall o :: o in obs ==> o.snap.source in ids && lo < ids[o.snap.source] <= hi
  }

  ghost predicate Absent(source: string, obs: seq<Observation>) {
    forall o :: o in obs ==> o.snap.source != source
  }

  /** The stored form of one value of the snapshot. */
  ghost predicate ValueOf(v: ValueRow, o: Observation, id: int) {
    && v.snapshotId == id && v.source == o.snap.source
    && exists w :: w in o.snap.values && v.key == FullKey(o.snap.source, w.key) && v.num == w.num && v.str == w.str
  }

  ghost predicate NewValue(v: ValueRow, obs: seq<Observation>, ids: map<string, int>) {
    exists o :: o in obs && o.snap.source in ids && ValueOf(v, o, ids[o.snap.source])
  }

  lemma {:induction false} ValuesAdded(st: State, id: int, o: Observation, n: nat, quota: nat)
    requires n <= |o.snap.values|
    ensures forall v :: v in StoreValues(st, id, o.snap, o.snap.values[n..], quota).0.db.values.rows ==>
              v in st.db.values.rows || ValueOf(v.body, o, id)
    decreases |o.snap.values| - n
  {
    if n < |o.snap.values| && quota > 0 {
      var w := o.snap.values[n];
      assert o.snap.values[n..][0] == w && o.snap.values[n..][1..] == o.snap.values[n + 1..] && w in o.snap.values;
      ValuesAdded(StoreValue(st, id, o.snap, w), id, o, n + 1, quota - 1);
    }
  }

  lemma {:induction false} SnapshotValuesAdded(st: State, ids: map<string, int>, obs: seq<Observation>, quota: nat)
    requires DistinctSources(obs)
    ensures var (next, nextIds, left) := StoreSnapshots(st, ids, obs, quota);
            left.Some? ==> forall v :: v in next.db.values.rows ==> v in st.db.values.rows || NewValue(v.body, obs, nextIds)
    decreases obs
  {
    if obs != [] && quota > 0 {
      var o, id := obs[0], st.db.snapshots.sequence + 1;
      var inserted, nextIds := StoreSnapshot(st, o.snap), ids[o.snap.source := id];
      ValuesAdded(inserted, id, o, 0, quota - 1);
      assert o.snap.values[0..] == o.snap.values;
      var (stored, left) := StoreValues(inserted, id, o.snap, o.snap.values, quota - 1);
      if left.Some? {
        SnapshotValuesAdded(stored, nextIds, obs[1..], left.value);
        SnapshotIds(stored, nextIds, obs[1..], left.value);
        RestValues(stored, st.db.values.rows, nextIds, obs, left.value);
      }
    }
  }

  lemma {:induction false} RestValues(stored: State, known: seq<Row<ValueRow>>, ids: map<string, int>, obs: seq<Observation>, quota: nat)
    requires obs != [] && DistinctSources(obs) && obs[0].snap.source in ids
    requires forall v :: v in stored.db.values.rows ==> v in known || ValueOf(v.body, obs[0], ids[obs[0].snap.source])
    requires var (next, lastIds, left) := StoreSnapshots(stored, ids, obs[1..], quota);
             && (left.Some? ==> forall v :: v in next.db.values.rows ==> v in stored.db.values.rows || NewValue(v.body, obs[1..], lastIds))
             && forall source :: source in ids && Absent(source, obs[1..]) ==> source in lastIds && lastIds[source] == ids[source]
    ensures var (next, lastIds, left) := StoreSnapshots(stored, ids, obs[1..], quota);
            left.Some? ==> forall v :: v in next.db.values.rows ==> v in known || NewValue(v.body, obs, lastIds)
  {
    var (next, lastIds, left) := StoreSnapshots(stored, ids, obs[1..], quota);
    assert obs[0] in obs && Absent(obs[0].snap.source, obs[1..]);
    if left.Some? {
      forall v | v in next.db.values.rows && v !in known ensures NewValue(v.body, obs, lastIds) {
        if v !in stored.db.values.rows {
          var o :| o in obs[1..] && o.snap.source in lastIds && ValueOf(v.body, o, lastIds[o.snap.source]);
          assert o in obs;
        }
      }
    }
  }

  /** Storing snapshots touches their tables and uses up their cost. */
  lemma {:induction false} SnapshotsCost(st: State, ids: map<string, int>, obs: seq<Observation>, quota: nat)
    ensures var (next, nextIds, left) := StoreSnapshots(st, ids, obs, quota);
            && next == st.(db := st.db.(values := next.db.values, snapshots := next.db.snapshots))
            && st.db.snapshots.sequence <= next.db.snapshots.sequence
            && left == if quota < SnapshotCost(obs) then None else Some(quota - SnapshotCost(obs))
    decreases obs
  {
    if obs != [] && quota > 0 {
      var snap, id := obs[0].snap, st.db.snapshots.sequence + 1;
      ValuesStored(StoreSnapshot(st, snap), id, snap, snap.values, quota - 1);
      var (stored, left) := StoreValues(StoreSnapshot(st, snap), id, snap, snap.values, quota - 1);
      if left.Some? { SnapshotsCost(stored, ids[snap.source := id], obs[1..], left.value); }
    }
  }

  /** Each source's snapshot gets an id above all earlier ones, if the INSERTs are reached. */
  lemma {:induction false} SnapshotIds(st: State, ids: map<string, int>, obs: seq<Observation>, quota: nat)
    requires DistinctSources(obs)
    ensures var (next, nextIds, left) := StoreSnapshots(st, ids, obs, quota);
            && (left.Some? ==> Handed(nextIds, obs, st.db.snapshots.sequence, next.db.snapshots.sequence))
            && (forall source :: source in ids && Absent(source, obs) ==> source in nextIds && nextIds[source] == ids[source])
    decreases obs
  {
    if obs != [] && quota > 0 {
      var snap, id := obs[0].snap, st.db.snapshots.sequence + 1;
      ValuesStored(StoreSnapshot(st, snap), id, snap, snap.values, quota - 1);
      var (stored, left) := StoreValues(StoreSnapshot(st, snap), id, snap, snap.values, quota - 1);
      if left.Some? {
        SnapshotIds(stored, ids[snap.source := id], obs[1..], left.value);
        SnapshotsCost(stored, ids[snap.source := id], obs[1..], left.value);
        var (next, nextIds, rest) := StoreSnapshots(stored, ids[snap.source := id], obs[1..], left.value);
        if rest.Some? { HandedAll(ids[snap.source := id], nextIds, obs, st.db.snapshots.sequence, next.db.snapshots.sequence); }
        AbsentAll(ids, id, nextIds, obs);
      }
    }
  }

  lemma {:induction false} HandedAll(ids: map<string, int>, nextIds: map<string, int>, obs: seq<Observation>, lo: int, hi: int)
    requires obs != [] && DistinctSources(obs) && obs[0].snap.source in ids && ids[obs[0].snap.source] == lo + 1
    requires lo + 1 <= hi && Handed(nextIds, obs[1..], lo + 1, hi)
    requires forall source :: source in ids && Absent(source, obs[1..]) ==> source in nextIds && nextIds[source] == ids[source]
    ensures Handed(nextIds, obs, lo, hi)
  {
    assert Absent(obs[0].snap.source, obs[1..]);
    forall o | o in obs ensures o.snap.source in nextIds && lo < nextIds[o.snap.source] <= hi { assert o == obs[0] || o in obs[1..]; }
  }

  lemma {:induction false} AbsentAll(ids: map<string, int>, id: int, nextIds: map<string, int>, obs: seq<Observation>)
    requires obs != []
    requires var inner := ids[obs[0].snap.source := id];
             forall source :: source in inner && Absent(source, obs[1..]) ==> source in nextIds && nextIds[source] == inner[source]
    ensures forall source :: source in ids && Absent(source, obs) ==> source in nextIds && nextIds[source] == ids[source]
  {
    forall source | source in ids && Absent(source, obs) ensures source in nextIds && nextIds[source] == ids[source] {
      assert obs[0] in obs;
      assert Absent(source, obs[1..]) by { forall o | o in obs[1..] ensures o.snap.source != source { assert o in obs; } }
    }
  }

  lemma {:induction false} FirstStored(row: Row<ContextTransition>, rest: seq<Row<ContextTransition>>, changes: seq<ContextChange>, quota: nat)
    requires changes != [] && quota > 0 && AsChange(row) == changes[0] && AsChanges(rest) == Limit(changes[1..], quota - 1)
    ensures AsChanges([row] + rest) == Limit(changes, quota)
  {
    AsChangesAppend([row], rest);
    assert AsChanges([row]) == [changes[0]];
    assert Limit(changes, quota) == [changes[0]] + Limit(changes[1..], quota - 1);
  }

  /** The log grows by the changes whose INSERT is reached, in order, under the ids of their snapshots. */
  lemma {:induction false} ChangesStored(st: State, ids: map<string, int>, changes: seq<ContextChange>, quota: nat) returns (added: seq<Row<ContextTransition>>)
    requires forall c :: c in changes ==> c.source in ids
    ensures var next := LogContextChanges(st, ids, changes, quota);
            && next == st.(db := st.db.(contextTransitions := next.db.contextTransitions), lookups := next.lookups)
            && next.db.contextTransitions.rows == st.db.contextTransitions.rows + added
    ensures AsChanges(added) == Limit(changes, quota)
    ensures forall t :: t in added ==> t.body.source in ids && t.body.snapshotId == ids[t.body.source]
    decreases changes
  {
    added := [];
    if changes != [] && quota > 0 {
      var c := changes[0];
      var next, t := LogContextChange(st, ids[c.source], c), ContextTransition(ids[c.source], c.source, c.key, c.oldValue, c.newValue);
      var rest := ChangesStored(next, ids, changes[1..], quota - 1);
      var row := Row(st.db.contextTransitions.sequence + 1, c.ts, t);
      added := [row] + rest;
      FirstStored(row, rest, changes, quota);
      assert st.db.contextTransitions.rows + added == next.db.contextTransitions.rows + rest;
    }
  }

  lemma {:induction false} LogSources(policies: map<string, Policy>, last: map<string, Snapshot>, obs: seq<Observation>)
    ensures forall c :: c in Log(policies, last, obs) ==> exists o :: o in obs && o.snap.source == c.source
  {
    if obs != [] {
      var front, o := obs[..|obs| - 1], obs[|obs| - 1];
      LogSources(policies, last, front);
      DiffIsOwn(PolicyOf(policies, o.snap.source), Remembered(LastAfter(last, front), o.snap.source), o);
      assert o in obs;
      forall c | c in Log(policies, last, obs) ensures exists o :: o in obs && o.snap.source == c.source {
        if c in Log(policies, last, front) {
          var before :| before in front && before.snap.source == c.source;
          assert before in obs;
        }
      }
    }
  }

  /** A tick's new log rows: the changes the quota reaches, each under its source's new snapshot id. */
  ghost predicate Adds(before: Db, after: Db, changes: seq<ContextChange>, ids: map<string, int>, added: seq<Row<ContextTransition>>) {
    && after.contextTransitions.rows == before.contextTransitions.rows + added && AsChanges(added) == changes
    && before.snapshots.sequence <= after.snapshots.sequence
    && forall t :: t in added ==>
         && t.body.source in ids && t.body.snapshotId == ids[t.body.source]
         && before.snapshots.sequence < t.body.snapshotId <= after.snapshots.sequence
  }

  lemma {:induction false} StoreTickAdds(st: State, obs: seq<Observation>, changes: seq<ContextChange>, quota: nat)
    returns (added: seq<Row<ContextTransition>>, ids: map<string, int>)
    requires DistinctSources(obs) && forall c :: c in changes ==> exists o :: o in obs && o.snap.source == c.source
    ensures var next := StoreTick(st, obs, changes, quota);
            Adds(st.db, next.db, Reached(changes, obs, quota), ids, added) && next.last == st.last
    ensures quota >= SnapshotCost(obs) ==>
              && Handed(ids, obs, st.db.snapshots.sequence, StoreTick(st, obs, changes, quota).db.snapshots.sequence)
              && forall v :: v in StoreTick(st, obs, changes, quota).db.values.rows ==> v in st.db.values.rows || NewValue(v.body, obs, ids)
  {
    var (stored, handed, left) := StoreSnapshots(st, map[], obs, quota);
    SnapshotsCost(st, map[], obs, quota);
    SnapshotIds(st, map[], obs, quota);
    ids, added := handed, [];
    if left.Some? {
      SnapshotValuesAdded(st, map[], obs, quota);
      forall c | c in changes ensures c.source in handed {
        var o :| o in obs && o.snap.source == c.source;
      }
      added := ChangesStored(stored, handed, changes, left.value);
      AddedAreNew(handed, obs, changes, added, left.value, st.db.snapshots.sequence, stored.db.snapshots.sequence);
    }
  }

  lemma {:induction false} AddedAreNew(ids: map<string, int>, obs: seq<Observation>, changes: seq<ContextChange>, added: seq<Row<ContextTransition>>,
                              n: nat, lo: int, hi: int)
    requires Handed(ids, obs, lo, hi) && AsChanges(added) == Limit(changes, n)
    requires forall c :: c in changes ==> exists o :: o in obs && o.snap.source == c.source
    requires forall t :: t in added ==> t.body.source in ids && t.body.snapshotId == ids[t.body.source]
    ensures forall t :: t in added ==> lo < t.body.snapshotId <= hi
  {
    forall t | t in added ensures lo < t.body.snapshotId <= hi {
      var i :| 0 <= i < |added| && added[i] == t;
      var c := AsChanges(added)[i];
      assert c == Limit(changes, n)[i] && c in changes;
      var o :| o in obs && o.snap.source == c.source;
    }
  }
}

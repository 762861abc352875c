/** The stored context log against the stored values, over whole runs of the collector. */
module ContextReplay {
  import opened Rows
  import opened Throttle
  import opened Database
  import opened Context
  import opened Retention
  import opened Collector
  import opened Invariants
  import opened ContextRuns
  import opened ContextTicks
  import opened Scenarios

  // ---- reading the log back ----

  function OfSource(source: string, upTo: int): Row<ContextTransition> -> bool {
    (t: Row<ContextTransition>) => t.body.source == source && t.body.snapshotId <= upTo
  }

  /** What a source has logged, up to a snapshot. */
  function StoredLog(db: Db, source: string, upTo: int): seq<ContextChange> {
    AsChanges(Select(db.contextTransitions.rows, OfSource(source, upTo)))
  }

  /** The newest stored value of a key, up to a snapshot. */
  function Newest(db: Db, source: string, key: string, upTo: int): Option<Json> {
    LatestLogged(StoredLog(db, source, upTo), key)
  }

  /** The value the registry remembers under a key of the source. */
  function Held(last: map<string, Snapshot>, source: string, key: string): Json {
    OldValue(Remembered(last, source), key)
  }

  function JsonOf(v: ValueRow): Json {
    ToJson(ContextValue(v.key, v.num, v.str))
  }

  // ---- what a tick adds to it ----

  lemma {:induction false} AsChangesOfSource(rows: seq<Row<ContextTransition>>, source: string, upTo: int)
    requires forall t :: t in rows && t.body.source == source ==> t.body.snapshotId <= upTo
    ensures AsChanges(Select(rows, OfSource(source, upTo))) == Select(AsChanges(rows), LoggedBy(source))
  {
    if rows != [] {
      var front, t := rows[..|rows| - 1], rows[|rows| - 1];
      assert rows == front + [t];
      AsChangesOfSource(front, source, upTo);
      AsChangesPush(front, t);
      AsChangesPush(Select(front, OfSource(source, upTo)), t);
      SelectPush(front, t, OfSource(source, upTo));
      SelectPush(AsChanges(front), AsChange(t), LoggedBy(source));
    }
  }

  lemma {:induction false} OldSnapshots(names: BitNames, st: State)
    requires Inv(names, st)
    ensures forall t :: t in st.db.contextTransitions.rows ==> t.body.snapshotId <= st.db.snapshots.sequence
    ensures forall v :: v in st.db.values.rows ==> v.body.snapshotId <= st.db.snapshots.sequence
  {
    forall t | t in st.db.contextTransitions.rows ensures t.body.snapshotId <= st.db.snapshots.sequence {
      assert SnapshotOf(st.db, t.body.snapshotId, t.ts);
    }
    forall v | v in st.db.values.rows ensures v.body.snapshotId <= st.db.snapshots.sequence {
      assert SnapshotOf(st.db, v.body.snapshotId, v.ts);
    }
  }

  /** Up to an earlier snapshot nothing changes. */
  lemma {:induction false} StoredLogStays(before: Db, after: Db, changes: seq<ContextChange>, ids: map<string, int>, added: seq<Row<ContextTransition>>,
                                 source: string, upTo: int)
    requires Adds(before, after, changes, ids, added) && upTo <= before.snapshots.sequence
    ensures StoredLog(after, source, upTo) == StoredLog(before, source, upTo)
  {
    SelectAppend(before.contextTransitions.rows, added, OfSource(source, upTo));
    SelectNone(added, OfSource(source, upTo));
  }

  /** Up to its new snapshot, or any later one, the source's log grows by its own changes. */
  lemma {:induction false} StoredLogGrows(before: Db, after: Db, changes: seq<ContextChange>, ids: map<string, int>, added: seq<Row<ContextTransition>>,
                                 source: string, upTo: int)
    requires Adds(before, after, changes, ids, added) && before.snapshots.sequence <= upTo
    requires forall t :: t in before.contextTransitions.rows ==> t.body.snapshotId <= before.snapshots.sequence
    requires source in ids ==> ids[source] <= upTo
    ensures StoredLog(after, source, upTo) == StoredLog(before, source, before.snapshots.sequence) + Select(changes, LoggedBy(source))
  {
    var rows := before.contextTransitions.rows;
    SelectSame(rows, OfSource(source, upTo), OfSource(source, before.snapshots.sequence));
    SelectAppend(rows, added, OfSource(source, upTo));
    AsChangesOfSource(added, source, upTo);
    AsChangesAppend(Select(rows, OfSource(source, upTo)), Select(added, OfSource(source, upTo)));
  }

  lemma {:induction false} StampedDistinct(ts: int, obs: seq<Observation>)
    requires DistinctSources(obs)
    ensures DistinctSources(Stamped(ts, obs))
  { }

  function TickChanges(policies: map<string, Policy>, st: State, ts: int, obs: seq<Observation>): seq<ContextChange> {
    Log(policies, st.last, Stamped(ts, obs))
  }

  lemma {:induction false} TickAdds(policies: map<string, Policy>, st: State, ts: int, obs: seq<Observation>, quota: nat)
    returns (added: seq<Row<ContextTransition>>, ids: map<string, int>)
    requires DistinctSources(obs)
    ensures var next := TickContext(policies, st, ts, obs, quota);
            && Adds(st.db, next.db, Reached(TickChanges(policies, st, ts, obs), Stamped(ts, obs), quota), ids, added)
            && next.last == LastAfter(st.last, Stamped(ts, obs))
    ensures quota >= SnapshotCost(Stamped(ts, obs)) ==>
              var next := TickContext(policies, st, ts, obs, quota);
              && Handed(ids, Stamped(ts, obs), st.db.snapshots.sequence, next.db.snapshots.sequence)
              && forall v :: v in next.db.values.rows ==> v in st.db.values.rows || NewValue(v.body, Stamped(ts, obs), ids)
  {
    var stamped := Stamped(ts, obs);
    StampedDistinct(ts, obs);
    LogSources(policies, st.last, stamped);
    added, ids := StoreTickAdds(st.(last := LastAfter(st.last, stamped)), stamped, Log(policies, st.last, stamped), quota);
  }

  /** What a tick logs for a key of a source with the default policy, against what is remembered before and after. */
  lemma {:induction false} SourceTick(policies: map<string, Policy>, last: map<string, Snapshot>, obs: seq<Observation>, source: string, key: string)
    requires DistinctSources(obs) && PolicyOf(policies, source) == Default
    requires forall o :: o in obs && o.snap.source == source ==> DistinctKeys(o.snap)
    ensures var own, now := Select(Log(policies, last, obs), LoggedBy(source)), Held(LastAfter(last, obs), source, key);
            && LatestLogged(own, FullKey(source, key)) == (if Logs(own, FullKey(source, key)) then Some(now) else None)
            && (!Logs(own, FullKey(source, key)) ==> now == Null || now == Held(last, source, key))
  {
    var own := Select(Log(policies, last, obs), LoggedBy(source));
    LatestLoggedIsLogged(own, FullKey(source, key));
    if o :| o in obs && o.snap.source == source {
      var i :| 0 <= i < |obs| && obs[i] == o;
      PresentSource(policies, last, obs, i);
      TickOfKey(Remembered(last, source), o.snap, key);
    } else {
      AbsentSource(policies, last, obs, source);
    }
  }

  // ---- runs whose context INSERTs succeed ----

  /** The tick reaches all of its INSERTs and samples each source once; where the run prunes or resets, the source's time
      never goes back. Everything else is unrestricted. */
  ghost predicate CleanContext(policies: map<string, Policy>, st: State, e: Event, source: string, forgets: bool) {
    match e
    case ContextTick(ts, obs, quota) =>
      && DistinctSources(obs) && quota >= SnapshotCost(Stamped(ts, obs)) + |TickChanges(policies, st, ts, obs)|
      && (forall o :: o in obs && o.snap.source == source ==> DistinctKeys(o.snap))
      && (forgets ==> forall t :: t in st.db.contextTransitions.rows && t.body.source == source ==> t.ts <= ts)
    case PruneBefore(_) => forgets
    case Reset => forgets
    case _ => true
  }

  ghost predicate CleanContextFrom(names: BitNames, policies: map<string, Policy>, st: State, events: seq<Event>, source: string, forgets: bool) {
    events != [] ==>
      var front := events[..|events| - 1];
      && CleanContextFrom(names, policies, st, front, source, forgets)
      && CleanContext(policies, Run(names, policies, st, front), events[|events| - 1], source, forgets)
  }

  /** The newest stored value is this one, or it was pruned or reset away and none is left. */
  ghost predicate Right(newest: Option<Json>, value: Json, forgets: bool) {
    newest == Some(value) || (forgets && newest == None)
  }

  /** For every stored value of the source: the newest logged value of its key, up to its snapshot. */
  ghost predicate ValuesRight(db: Db, source: string, forgets: bool) {
    forall v :: v in db.values.rows && v.body.source == source && JsonOf(v.body) != Null ==>
      Right(Newest(db, source, v.body.key, v.body.snapshotId), JsonOf(v.body), forgets)
  }

  ghost predicate MemoryRight(st: State, source: string, forgets: bool) {
    forall key :: Held(st.last, source, key) != Null ==>
      Right(Newest(st.db, source, FullKey(source, key), st.db.snapshots.sequence), Held(st.last, source, key), forgets)
  }

  function FromSource(source: string): Row<ContextTransition> -> bool {
    (t: Row<ContextTransition>) => t.body.source == source
  }

  ghost predicate ContextInv(names: BitNames, st: State, source: string, forgets: bool) {
    && Inv(names, st) && ValuesRight(st.db, source, forgets) && MemoryRight(st, source, forgets)
    && (forgets ==> TsAscend(Select(st.db.contextTransitions.rows, FromSource(source))))
  }

  ghost predicate CleanTick(policies: map<string, Policy>, st: State, ts: int, obs: seq<Observation>, quota: nat, source: string) {
    && DistinctSources(obs) && quota >= SnapshotCost(Stamped(ts, obs)) + |TickChanges(policies, st, ts, obs)|
    && PolicyOf(policies, source) == Default && forall o :: o in obs && o.snap.source == source ==> DistinctKeys(o.snap)
  }

  lemma {:induction false} StampedKeys(ts: int, obs: seq<Observation>, source: string)
    requires forall o :: o in obs && o.snap.source == source ==> DistinctKeys(o.snap)
    ensures forall o :: o in Stamped(ts, obs) && o.snap.source == source ==> DistinctKeys(o.snap)
  {
    forall o | o in Stamped(ts, obs) && o.snap.source == source ensures DistinctKeys(o.snap) {
      var i :| 0 <= i < |obs| && Stamped(ts, obs)[i] == o;
      assert obs[i] in obs && obs[i].snap.values == o.snap.values;
      assert DistinctKeys(obs[i].snap);
    }
  }

  /** After a clean tick, up to the source's new snapshot or any later one: if the registry now holds a value under the
      key, the newest logged one is that value, or still the one it was while nothing was logged and the same was held. */
  lemma {:induction false} NewestAfter(names: BitNames, policies: map<string, Policy>, st: State, ts: int, obs: seq<Observation>, quota: nat,
                              source: string, ids: map<string, int>, added: seq<Row<ContextTransition>>, upTo: int, key: string)
    requires Inv(names, st) && CleanTick(policies, st, ts, obs, quota, source)
    requires var next := TickContext(policies, st, ts, obs, quota);
             && Adds(st.db, next.db, TickChanges(policies, st, ts, obs), ids, added)
             && next.last == LastAfter(st.last, Stamped(ts, obs))
    requires st.db.snapshots.sequence <= upTo && (source in ids ==> ids[source] <= upTo)
    ensures var next := TickContext(policies, st, ts, obs, quota);
            var now, newest := Held(next.last, source, key), Newest(next.db, source, FullKey(source, key), upTo);
            now != Null ==>
              newest == Some(now)
              || (now == Held(st.last, source, key) && newest == Newest(st.db, source, FullKey(source, key), st.db.snapshots.sequence))
  {
    var next, stamped := TickContext(policies, st, ts, obs, quota), Stamped(ts, obs);
    var own := Select(TickChanges(policies, st, ts, obs), LoggedBy(source));
    StampedDistinct(ts, obs);
    StampedKeys(ts, obs, source);
    OldSnapshots(names, st);
    StoredLogGrows(st.db, next.db, TickChanges(policies, st, ts, obs), ids, added, source, upTo);
    LatestLoggedAppend(StoredLog(st.db, source, st.db.snapshots.sequence), own, FullKey(source, key));
    SourceTick(policies, st.last, stamped, source, key);
  }

  lemma {:induction false} CleanTickAdds(policies: map<string, Policy>, st: State, ts: int, obs: seq<Observation>, quota: nat, source: string)
    returns (added: seq<Row<ContextTransition>>, ids: map<string, int>)
    requires CleanTick(policies, st, ts, obs, quota, source)
    ensures var next := TickContext(policies, st, ts, obs, quota);
            && Adds(st.db, next.db, TickChanges(policies, st, ts, obs), ids, added)
            && next.last == LastAfter(st.last, Stamped(ts, obs))
            && Handed(ids, Stamped(ts, obs), st.db.snapshots.sequence, next.db.snapshots.sequence)
            && forall v :: v in next.db.values.rows ==> v in st.db.values.rows || NewValue(v.body, Stamped(ts, obs), ids)
  {
    added, ids := TickAdds(policies, st, ts, obs, quota);
    assert Reached(TickChanges(policies, st, ts, obs), Stamped(ts, obs), quota) == TickChanges(policies, st, ts, obs);
  }

  lemma {:induction false} SnapshotIsHeld(last: map<string, Snapshot>, obs: seq<Observation>, o: Observation, w: ContextValue)
    requires DistinctSources(obs) && o in obs && w in o.snap.values && DistinctKeys(o.snap)
    ensures Held(LastAfter(last, obs), o.snap.source, w.key) == ToJson(w)
  {
    var i :| 0 <= i < |obs| && obs[i] == o;
    var j :| 0 <= j < |o.snap.values| && o.snap.values[j] == w;
    PresentSource(map[], last, obs, i);
    FindDistinct(o.snap.values, j);
  }

  /** The registry holds the new value under its key. */
  lemma {:induction false} NewValueIsHeld(last: map<string, Snapshot>, v: ValueRow, obs: seq<Observation>, ids: map<string, int>) returns (key: string)
    requires DistinctSources(obs) && NewValue(v, obs, ids)
    requires forall o :: o in obs && o.snap.source == v.source ==> DistinctKeys(o.snap)
    ensures v.key == FullKey(v.source, key) && Held(LastAfter(last, obs), v.source, key) == JsonOf(v)
    ensures v.source in ids && v.snapshotId == ids[v.source]
  {
    var o :| o in obs && o.snap.source in ids && ValueOf(v, o, ids[o.snap.source]);
    var w :| w in o.snap.values && v.key == FullKey(o.snap.source, w.key) && v.num == w.num && v.str == w.str;
    key := w.key;
    SnapshotIsHeld(last, obs, o, w);
  }

  lemma {:induction false} TickKeepsValues(names: BitNames, policies: map<string, Policy>, st: State, ts: int, obs: seq<Observation>, quota: nat,
                              source: string, forgets: bool)
    requires ContextInv(names, st, source, forgets) && CleanTick(policies, st, ts, obs, quota, source)
    ensures ValuesRight(TickContext(policies, st, ts, obs, quota).db, source, forgets)
  {
    var next, stamped := TickContext(policies, st, ts, obs, quota), Stamped(ts, obs);
    var added, ids := CleanTickAdds(policies, st, ts, obs, quota, source);
    StampedDistinct(ts, obs);
    StampedKeys(ts, obs, source);
    OldSnapshots(names, st);
    forall v | v in next.db.values.rows && v.body.source == source && JsonOf(v.body) != Null
      ensures Right(Newest(next.db, source, v.body.key, v.body.snapshotId), JsonOf(v.body), forgets)
    {
      if v in st.db.values.rows {
        StoredLogStays(st.db, next.db, TickChanges(policies, st, ts, obs), ids, added, source, v.body.snapshotId);
      } else {
        var key := NewValueIsHeld(st.last, v.body, stamped, ids);
        HandedHere(ids, stamped, v.body, st.db.snapshots.sequence, next.db.snapshots.sequence);
        NewestAfter(names, policies, st, ts, obs, quota, source, ids, added, v.body.snapshotId, key);
      }
    }
  }

  lemma {:induction false} HandedHere(ids: map<string, int>, obs: seq<Observation>, v: ValueRow, lo: int, hi: int)
    requires Handed(ids, obs, lo, hi) && NewValue(v, obs, ids)
    ensures lo < v.snapshotId <= hi
  { }

  lemma {:induction false} TickKeepsMemory(names: BitNames, policies: map<string, Policy>, st: State, ts: int, obs: seq<Observation>, quota: nat,
                              source: string, forgets: bool)
    requires ContextInv(names, st, source, forgets) && CleanTick(policies, st, ts, obs, quota, source)
    ensures MemoryRight(TickContext(policies, st, ts, obs, quota), source, forgets)
  {
    var next := TickContext(policies, st, ts, obs, quota);
    var added, ids := CleanTickAdds(policies, st, ts, obs, quota, source);
    var newIds := NarrowIds(st.db, next.db, TickChanges(policies, st, ts, obs), ids, added);
    forall key | Held(next.last, source, key) != Null
      ensures Right(Newest(next.db, source, FullKey(source, key), next.db.snapshots.sequence), Held(next.last, source, key), forgets)
    {
      NewestAfter(names, policies, st, ts, obs, quota, source, newIds, added, next.db.snapshots.sequence, key);
    }
  }

  /** Only the ids that were used matter. */
  lemma {:induction false} NarrowIds(before: Db, after: Db, changes: seq<ContextChange>, ids: map<string, int>, added: seq<Row<ContextTransition>>)
    returns (used: map<string, int>)
    requires Adds(before, after, changes, ids, added)
    ensures Adds(before, after, changes, used, added)
    ensures forall source :: source in used ==> used[source] <= after.snapshots.sequence
  {
    used := map source | source in ids && ids[source] <= after.snapshots.sequence :: ids[source];
  }

  lemma {:induction false} TickKeepsTime(policies: map<string, Policy>, st: State, ts: int, obs: seq<Observation>, quota: nat, source: string)
    requires CleanTick(policies, st, ts, obs, quota, source)
    requires TsAscend(Select(st.db.contextTransitions.rows, FromSource(source)))
    requires forall t :: t in st.db.contextTransitions.rows && t.body.source == source ==> t.ts <= ts
    ensures TsAscend(Select(TickContext(policies, st, ts, obs, quota).db.contextTransitions.rows, FromSource(source)))
  {
    var added, ids := CleanTickAdds(policies, st, ts, obs, quota, source);
    LogCarriesTickTime(policies, st.last, Stamped(ts, obs), ts);
    SelectAppend(st.db.contextTransitions.rows, added, FromSource(source));
    var earlier, newer := Select(st.db.contextTransitions.rows, FromSource(source)), Select(added, FromSource(source));
    forall t | t in added ensures t.ts == ts {
      var i :| 0 <= i < |added| && added[i] == t;
      assert AsChanges(added)[i] in TickChanges(policies, st, ts, obs);
    }
    forall i | 0 <= i < |earlier| ensures earlier[i].ts <= ts { assert earlier[i] in earlier; }
    forall i | 0 <= i < |newer| ensures newer[i].ts == ts { assert newer[i] in newer; }
  }

  lemma {:induction false} CleanTickKeeps(names: BitNames, policies: map<string, Policy>, st: State, ts: int, obs: seq<Observation>, quota: nat,
                              source: string, forgets: bool)
    requires ContextInv(names, st, source, forgets) && PolicyOf(policies, source) == Default
    requires CleanContext(policies, st, ContextTick(ts, obs, quota), source, forgets)
    ensures ContextInv(names, TickContext(policies, st, ts, obs, quota), source, forgets)
  {
    TickContextKeeps(names, policies, st, ts, obs, quota);
    TickKeepsValues(names, policies, st, ts, obs, quota, source, forgets);
    TickKeepsMemory(names, policies, st, ts, obs, quota, source, forgets);
    if forgets { TickKeepsTime(policies, st, ts, obs, quota, source); }
  }

  // ---- prunes and resets forget, but never mislead ----

  lemma {:induction false} SelectKeepsTime<T>(s: seq<Row<T>>, p: Row<T> -> bool)
    requires TsAscend(s)
    ensures TsAscend(Select(s, p))
  {
    if s != [] {
      var front, last := s[..|s| - 1], s[|s| - 1];
      SelectKeepsTime(front, p);
      var r := Select(front, p);
      forall i | 0 <= i < |r| ensures r[i].ts <= last.ts {
        assert r[i] in front;
        var j :| 0 <= j < |front| && front[j] == r[i];
        assert s[j] == r[i] && s[|s| - 1] == last;
      }
    }
  }

  lemma {:induction false} LatestOfSuffix(log: seq<ContextChange>, k: nat, key: string)
    requires k <= |log|
    ensures LatestLogged(log[k..], key) == LatestLogged(log, key) || LatestLogged(log[k..], key) == None
  {
    assert log == log[..k] + log[k..];
    LatestLoggedAppend(log[..k], log[k..], key);
  }

  lemma {:induction false} AsChangesSuffix(rows: seq<Row<ContextTransition>>, k: nat)
    requires k <= |rows|
    ensures AsChanges(rows[k..]) == AsChanges(rows)[k..]
  { }

  /** In a log ordered by time a prune takes the older part. */
  lemma {:induction false} PrunedLog(db: Db, cutoff: int, source: string, upTo: int) returns (k: nat)
    requires TsAscend(Select(db.contextTransitions.rows, FromSource(source)))
    ensures k <= |StoredLog(db, source, upTo)| && StoredLog(Prune(db, cutoff), source, upTo) == StoredLog(db, source, upTo)[k..]
  {
    var rows, survives, own := db.contextTransitions.rows, Not(OlderThan<ContextTransition>(cutoff)), OfSource(source, upTo);
    var both := (t: Row<ContextTransition>) => survives(t) && own(t);
    PruneTables(db, cutoff, PRUNE_STATEMENTS);
    SelectTwice(rows, survives, own, both);
    SelectTwice(rows, own, survives, both);
    SelectTwice(rows, FromSource(source), own, own);
    SelectKeepsTime(Select(rows, FromSource(source)), own);
    k := RecentIsSuffix(Select(rows, own), cutoff);
    AsChangesSuffix(Select(rows, own), k);
  }

  lemma {:induction false} PruneNeverMisleads(db: Db, cutoff: int, source: string, key: string, upTo: int)
    requires TsAscend(Select(db.contextTransitions.rows, FromSource(source)))
    ensures Newest(Prune(db, cutoff), source, key, upTo) == Newest(db, source, key, upTo) || Newest(Prune(db, cutoff), source, key, upTo) == None
  {
    var k := PrunedLog(db, cutoff, source, upTo);
    LatestOfSuffix(StoredLog(db, source, upTo), k, key);
  }

  lemma {:induction false} PruneKeepsTime(db: Db, cutoff: int, source: string)
    requires TsAscend(Select(db.contextTransitions.rows, FromSource(source)))
    ensures TsAscend(Select(Prune(db, cutoff).contextTransitions.rows, FromSource(source)))
  {
    var rows, survives, own := db.contextTransitions.rows, Not(OlderThan<ContextTransition>(cutoff)), FromSource(source);
    var both := (t: Row<ContextTransition>) => survives(t) && own(t);
    PruneTables(db, cutoff, PRUNE_STATEMENTS);
    SelectTwice(rows, survives, own, both);
    SelectTwice(rows, own, survives, both);
    SelectKeepsTime(Select(rows, own), survives);
  }

  lemma {:induction false} PruneKeepsRight(db: Db, cutoff: int, source: string)
    requires ValuesRight(db, source, true) && TsAscend(Select(db.contextTransitions.rows, FromSource(source)))
    ensures ValuesRight(Prune(db, cutoff), source, true)
  {
    PruneTables(db, cutoff, PRUNE_STATEMENTS);
    var next := Prune(db, cutoff);
    forall v | v in next.values.rows && v.body.source == source && JsonOf(v.body) != Null
      ensures Right(Newest(next, source, v.body.key, v.body.snapshotId), JsonOf(v.body), true)
    {
      PruneNeverMisleads(db, cutoff, source, v.body.key, v.body.snapshotId);
    }
  }

  lemma {:induction false} PruneKeepsContext(names: BitNames, st: State, cutoff: int, source: string)
    requires ContextInv(names, st, source, true)
    ensures ContextInv(names, st.(db := Prune(st.db, cutoff)), source, true)
  {
    var next := st.(db := Prune(st.db, cutoff));
    PruneKeeps(names, st, cutoff);
    PruneKeepsRight(st.db, cutoff, source);
    PruneKeepsTime(st.db, cutoff, source);
    PruneTables(st.db, cutoff, PRUNE_STATEMENTS);
    forall key | Held(next.last, source, key) != Null
      ensures Right(Newest(next.db, source, FullKey(source, key), next.db.snapshots.sequence), Held(next.last, source, key), true)
    {
      PruneNeverMisleads(st.db, cutoff, source, FullKey(source, key), st.db.snapshots.sequence);
    }
  }

  lemma {:induction false} EmptyIsRight(names: BitNames, st: State, source: string)
    requires Inv(names, st) && st.db == EMPTY_DB
    ensures ContextInv(names, st, source, true)
  {
    forall key, upTo ensures Newest(st.db, source, key, upTo) == None { }
  }

  lemma {:induction false} ResetKeepsContext(names: BitNames, policies: map<string, Policy>, st: State, source: string)
    requires ContextInv(names, st, source, true)
    ensures ContextInv(names, Step(names, policies, st, Reset), source, true)
  {
    HousekeepingKeeps(names, policies, st, Reset);
    ResetStaysLinked(st.db, RESET_STATEMENTS);
    EmptyIsRight(names, Step(names, policies, st, Reset), source);
  }

  // ---- the other steps ----

  ghost predicate SameContextTables(a: Db, b: Db) {
    a.snapshots == b.snapshots && a.values == b.values && a.contextTransitions == b.contextTransitions
  }

  lemma {:induction false} OtherStep(names: BitNames, policies: map<string, Policy>, st: State, e: Event)
    requires !e.ContextTick? && !e.PruneBefore? && !e.Reset?
    ensures SameContextTables(st.db, Step(names, policies, st, e).db)
    ensures Step(names, policies, st, e).last == if e.Restart? then map[] else st.last
  {
    match e {
      case StoreReading(r, quota) =>
        if quota > 0 {
          LogChangesFrame(Remember(names, st, r), r.ts, st.db.samples.sequence + 1, r.device, Limit(ChangesFor(names, st.masks, r), quota - 1));
        }
      case _ =>
    }
  }

  lemma {:induction false} SameTablesKeepContext(names: BitNames, st: State, next: State, source: string, forgets: bool)
    requires ContextInv(names, st, source, forgets) && Inv(names, next)
    requires SameContextTables(st.db, next.db) && (next.last == st.last || next.last == map[])
    ensures ContextInv(names, next, source, forgets)
  {
    forall key, upTo ensures Newest(next.db, source, key, upTo) == Newest(st.db, source, key, upTo) { }
  }

  lemma {:induction false} StepKeepsContext(names: BitNames, policies: map<string, Policy>, st: State, e: Event, source: string, forgets: bool)
    requires ContextInv(names, st, source, forgets) && PolicyOf(policies, source) == Default
    requires CleanContext(policies, st, e, source, forgets)
    ensures ContextInv(names, Step(names, policies, st, e), source, forgets)
  {
    match e {
      case ContextTick(ts, obs, quota) => CleanTickKeeps(names, policies, st, ts, obs, quota, source, forgets);
      case PruneBefore(cutoff) => PruneKeepsContext(names, st, cutoff, source);
      case Reset => ResetKeepsContext(names, policies, st, source);
      case _ =>
        StepKeeps(names, policies, st, e);
        OtherStep(names, policies, st, e);
        SameTablesKeepContext(names, st, Step(names, policies, st, e), source, forgets);
    }
  }

  lemma {:induction false} RunKeepsContext(names: BitNames, policies: map<string, Policy>, events: seq<Event>, source: string, forgets: bool)
    requires CleanContextFrom(names, policies, INITIAL, events, source, forgets) && PolicyOf(policies, source) == Default
    ensures ContextInv(names, Run(names, policies, INITIAL, events), source, forgets)
  {
    if events != [] {
      var front := events[..|events| - 1];
      RunKeepsContext(names, policies, front, source, forgets);
      StepKeepsContext(names, policies, Run(names, policies, INITIAL, front), events[|events| - 1], source, forgets);
    }
  }

  /** Over every run whose context INSERTs succeed, restarts included: the newest stored transition of a key, up to any
      snapshot of its source, leads to the number or else the text stored with that snapshot. With prunes and resets, and time that does
      not go back, it does so or is gone. */
  lemma {:induction false} StoredLogTracksValues(names: BitNames, policies: map<string, Policy>, events: seq<Event>, source: string, forgets: bool, v: Row<ValueRow>)
    requires CleanContextFrom(names, policies, INITIAL, events, source, forgets) && PolicyOf(policies, source) == Default
    requires v in Run(names, policies, INITIAL, events).db.values.rows && v.body.source == source
    requires v.body.num.Some? || v.body.str.Some?
    ensures var newest := Newest(Run(names, policies, INITIAL, events).db, source, v.body.key, v.body.snapshotId);
            newest == Some(if v.body.num.Some? then Number(v.body.num.value) else Text(v.body.str.value)) || (forgets && newest == None)
  {
    FieldsDecide(ContextValue(v.body.key, v.body.num, v.body.str), ContextValue(v.body.key, v.body.num, v.body.str));
    RunKeepsContext(names, policies, events, source, forgets);
  }

  // ---- a failing INSERT ----

  lemma {:induction false} ValueBehind(previous: Option<Snapshot>, s: Snapshot, c: ContextChange) returns (i: nat)
    requires c in DefaultUpTo(previous, s, |s.values|)
    ensures i < |s.values| && c == ChangeAt(previous, s, s.values[i])
  {
    DefaultMembers(previous, s, |s.values|, c);
    i :| 0 <= i < |s.values| && c == ChangeAt(previous, s, s.values[i]);
  }

  lemma {:induction false} SameChange(previous: Option<Snapshot>, s: Snapshot, c: ContextChange, d: ContextChange)
    requires DistinctKeys(s) && c in DefaultUpTo(previous, s, |s.values|) && d in DefaultUpTo(previous, s, |s.values|) && c.key == d.key
    ensures c == d
  {
    var i := ValueBehind(previous, s, c);
    var j := ValueBehind(previous, s, d);
    FullKeyInjective(s.source, s.values[i].key, s.values[j].key);
    assert i == j;
  }

  /** A source logs a key at most once in a tick. */
  lemma {:induction false} LoggedOnceInTick(policies: map<string, Policy>, last: map<string, Snapshot>, obs: seq<Observation>, c: ContextChange, d: ContextChange)
    requires DistinctSources(obs) && PolicyOf(policies, c.source) == Default
    requires forall o :: o in obs && o.snap.source == c.source ==> DistinctKeys(o.snap)
    requires c in Log(policies, last, obs) && d in Log(policies, last, obs) && c.source == d.source && c.key == d.key
    ensures c == d
  {
    LogSources(policies, last, obs);
    var o :| o in obs && o.snap.source == c.source;
    var i :| 0 <= i < |obs| && obs[i] == o;
    PresentSource(policies, last, obs, i);
    assert c in Select(Log(policies, last, obs), LoggedBy(c.source)) && d in Select(Log(policies, last, obs), LoggedBy(c.source));
    SameChange(Remembered(last, c.source), o.snap, c, d);
  }

  /** What is newest after any tick, failing or not: the change if its INSERT was reached, else what was newest before. */
  lemma {:induction false} NewestIfReached(names: BitNames, policies: map<string, Policy>, st: State, ts: int, obs: seq<Observation>, quota: nat,
                              c: ContextChange)
    requires Inv(names, st) && DistinctSources(obs) && PolicyOf(policies, c.source) == Default
    requires forall o :: o in obs && o.snap.source == c.source ==> DistinctKeys(o.snap)
    requires c in TickChanges(policies, st, ts, obs)
    ensures var next := TickContext(policies, st, ts, obs, quota);
            Newest(next.db, c.source, c.key, next.db.snapshots.sequence)
              == if c in Reached(TickChanges(policies, st, ts, obs), Stamped(ts, obs), quota) then Some(c.newValue)
                 else Newest(st.db, c.source, c.key, st.db.snapshots.sequence)
  {
    var next, changes := TickContext(policies, st, ts, obs, quota), TickChanges(policies, st, ts, obs);
    var reached := Reached(changes, Stamped(ts, obs), quota);
    var added, ids := TickAdds(policies, st, ts, obs, quota);
    var used := NarrowIds(st.db, next.db, reached, ids, added);
    OldSnapshots(names, st);
    StoredLogGrows(st.db, next.db, reached, used, added, c.source, next.db.snapshots.sequence);
    LatestLoggedAppend(StoredLog(st.db, c.source, st.db.snapshots.sequence), Select(reached, LoggedBy(c.source)), c.key);
    ReachedOnce(policies, st, ts, obs, reached, c);
  }

  lemma {:induction false} ReachedOnce(policies: map<string, Policy>, st: State, ts: int, obs: seq<Observation>, reached: seq<ContextChange>, c: ContextChange)
    requires DistinctSources(obs) && PolicyOf(policies, c.source) == Default
    requires forall o :: o in obs && o.snap.source == c.source ==> DistinctKeys(o.snap)
    requires c in TickChanges(policies, st, ts, obs) && forall d :: d in reached ==> d in TickChanges(policies, st, ts, obs)
    ensures LatestLogged(Select(reached, LoggedBy(c.source)), c.key) == if c in reached then Some(c.newValue) else None
  {
    var own := Select(reached, LoggedBy(c.source));
    StampedDistinct(ts, obs);
    StampedKeys(ts, obs, c.source);
    forall d | d in own && d.key == c.key ensures d == c { LoggedOnceInTick(policies, st.last, Stamped(ts, obs), c, d); }
    LatestLoggedIsLogged(own, c.key);
  }

  /** The context side of a failing INSERT: the log reaches the new value exactly when the change was among the INSERTs
      the database took, or the newest stored value already was that one. The registry has moved on in any case, so the
      next tick will not log it again. */
  lemma {:induction false} LostContextChange(names: BitNames, policies: map<string, Policy>, st: State, ts: int, obs: seq<Observation>, quota: nat,
                              c: ContextChange)
    requires Inv(names, st) && DistinctSources(obs) && PolicyOf(policies, c.source) == Default
    requires forall o :: o in obs && o.snap.source == c.source ==> DistinctKeys(o.snap)
    requires c in TickChanges(policies, st, ts, obs)
    ensures var next := TickContext(policies, st, ts, obs, quota);
            Newest(next.db, c.source, c.key, next.db.snapshots.sequence) == Some(c.newValue)
            <==> c in Reached(TickChanges(policies, st, ts, obs), Stamped(ts, obs), quota)
                 || Newest(st.db, c.source, c.key, st.db.snapshots.sequence) == Some(c.newValue)
    ensures TickContext(policies, st, ts, obs, quota).last == LastAfter(st.last, Stamped(ts, obs))
  {
    NewestIfReached(names, policies, st, ts, obs, quota, c);
    var added, ids := TickAdds(policies, st, ts, obs, quota);
  }

  function Watts(ts: int, watts: real): Observation {
    Observation(Snapshot("power", ts, "ok", [ContextValue("draw", Some(watts), None)]), [])
  }

  function FirstTick(ts: int): Event {
    ContextTick(ts, [Watts(ts, 1.0)], 9)
  }

  /** Its change comes after a snapshot and a value, and is not inserted any more. */
  function FailingTick(ts: int): Event {
    ContextTick(ts + 1, [Watts(ts + 1, 2.0)], 2)
  }

  lemma {:induction false} OneWattTick(last: map<string, Snapshot>, ts: int, watts: real)
    ensures var s := Watts(ts, watts).snap;
            && Stamped(ts, [Watts(ts, watts)]) == [Watts(ts, watts)] && SnapshotCost([Watts(ts, watts)]) == 2
            && Log(map[], last, [Watts(ts, watts)]) == DefaultUpTo(Remembered(last, "power"), s, 1)
            && LastAfter(last, [Watts(ts, watts)]) == last["power" := s]
  {
    assert [Watts(ts, watts)][..0] == [] && [Watts(ts, watts)][1..] == [];
    assert LastAfter(last, []) == last && Log(map[], last, []) == [];
    assert DistinctKeys(Watts(ts, watts).snap);
  }

  lemma {:induction false} FirstTickIsClean(names: BitNames, ts: int)
    ensures CleanContextFrom(names, map[], INITIAL, [FirstTick(ts)], "power", false)
  {
    OneWattTick(map[], ts, 1.0);
    assert [FirstTick(ts)][..0] == [];
    assert DistinctKeys(Watts(ts, 1.0).snap);
    assert CleanContext(map[], INITIAL, FirstTick(ts), "power", false);
  }

  /** The first tick is logged. */
  lemma {:induction false} FirstIsLogged(names: BitNames, ts: int)
    ensures var st := TickContext(map[], INITIAL, ts, [Watts(ts, 1.0)], 9);
            && Run(names, map[], INITIAL, [FirstTick(ts)]) == st
            && Inv(names, st) && st.last == map["power" := Watts(ts, 1.0).snap]
            && Newest(st.db, "power", "power.draw", st.db.snapshots.sequence) == Some(Number(1.0))
  {
    RunOne(names, map[], INITIAL, FirstTick(ts));
    FirstTickIsClean(names, ts);
    RunKeepsContext(names, map[], [FirstTick(ts)], "power", false);
    OneWattTick(map[], ts, 1.0);
    var added, ids := TickAdds(map[], INITIAL, ts, [Watts(ts, 1.0)], 9);
    PowerIsHeld(Run(names, map[], INITIAL, [FirstTick(ts)]), ts, 1.0);
  }

  lemma {:induction false} PowerIsHeld(st: State, ts: int, watts: real)
    requires "power" in st.last && st.last["power"] == Watts(ts, watts).snap
    ensures Held(st.last, "power", "draw") == Number(watts) && FullKey("power", "draw") == "power.draw"
    ensures MemoryRight(st, "power", false) ==> Newest(st.db, "power", "power.draw", st.db.snapshots.sequence) == Some(Number(watts))
  {
    assert FullKey("power", "draw") == "power.draw";
    assert Held(st.last, "power", "draw") == Number(watts);
  }

  /** The second tick's only change. */
  lemma {:induction false} SecondChange(st: State, ts: int)
    requires st.last == map["power" := Watts(ts, 1.0).snap]
    ensures ContextChange(ts + 1, "power", "power.draw", Number(1.0), Number(2.0)) in TickChanges(map[], st, ts + 1, [Watts(ts + 1, 2.0)])
    ensures Reached(TickChanges(map[], st, ts + 1, [Watts(ts + 1, 2.0)]), Stamped(ts + 1, [Watts(ts + 1, 2.0)]), 2) == []
  {
    var s, c := Watts(ts + 1, 2.0).snap, ContextChange(ts + 1, "power", "power.draw", Number(1.0), Number(2.0));
    OneWattTick(st.last, ts + 1, 2.0);
    PowerIsHeld(st, ts, 1.0);
    assert c == ChangeAt(Remembered(st.last, "power"), s, s.values[0]);
    DefaultMembers(Remembered(st.last, "power"), s, 1, c);
  }

  /** A run in which the registry holds the second value while the newest logged one is the first. */
  lemma {:induction false} FailingTickMisleads(names: BitNames, ts: int)
    ensures var end := Run(names, map[], INITIAL, [FirstTick(ts)] + [FailingTick(ts)]);
            && Held(end.last, "power", "draw") == Number(2.0)
            && Newest(end.db, "power", "power.draw", end.db.snapshots.sequence) == Some(Number(1.0))
  {
    var st, obs := Run(names, map[], INITIAL, [FirstTick(ts)]), [Watts(ts + 1, 2.0)];
    FirstIsLogged(names, ts);
    SecondChange(st, ts);
    RunPush(names, map[], INITIAL, [FirstTick(ts)], FailingTick(ts));
    assert DistinctKeys(obs[0].snap);
    NewestIfReached(names, map[], st, ts + 1, obs, 2, ContextChange(ts + 1, "power", "power.draw", Number(1.0), Number(2.0)));
    var added, ids := TickAdds(map[], st, ts + 1, obs, 2);
    OneWattTick(st.last, ts + 1, 2.0);
    PowerIsHeld(TickContext(map[], st, ts + 1, obs, 2), ts + 1, 2.0);
  }

  // ---- recovery ----

  /** Since an earlier state a source has logged these changes, and what it now holds under a key is the newest of them,
      or what it held then. */
  ghost predicate Since(start: State, now: State, source: string, key: string, added: seq<ContextChange>) {
    var full, held := FullKey(source, key), Held(now.last, source, key);
    && StoredLog(now.db, source, now.db.snapshots.sequence) == StoredLog(start.db, source, start.db.snapshots.sequence) + added
    && (held != Null ==> if Logs(added, full) then LatestLogged(added, full) == Some(held) else held == Held(start.last, source, key))
  }

  lemma {:induction false} LogsAppend(a: seq<ContextChange>, b: seq<ContextChange>, key: string)
    ensures Logs(a + b, key) <==> Logs(a, key) || Logs(b, key)
  {
    if Logs(a, key) || Logs(b, key) {
      var c :| (c in a || c in b) && c.key == key;
      assert c in a + b;
    }
  }

  lemma {:induction false} SinceAppend(start: State, st: State, next: State, source: string, key: string, before: seq<ContextChange>, own: seq<ContextChange>)
    requires Since(start, st, source, key, before)
    requires StoredLog(next.db, source, next.db.snapshots.sequence) == StoredLog(st.db, source, st.db.snapshots.sequence) + own
    requires LatestLogged(own, FullKey(source, key)) == if Logs(own, FullKey(source, key)) then Some(Held(next.last, source, key)) else None
    requires !Logs(own, FullKey(source, key)) ==> Held(next.last, source, key) == Null || Held(next.last, source, key) == Held(st.last, source, key)
    ensures Since(start, next, source, key, before + own)
  {
    var log := StoredLog(start.db, source, start.db.snapshots.sequence);
    LogsAppend(before, own, FullKey(source, key));
    LatestLoggedAppend(before, own, FullKey(source, key));
    assert (log + before) + own == log + (before + own);
  }

  lemma {:induction false} SinceTick(names: BitNames, policies: map<string, Policy>, start: State, st: State, ts: int, obs: seq<Observation>, quota: nat,
                            source: string, key: string, before: seq<ContextChange>) returns (added: seq<ContextChange>)
    requires Inv(names, st) && CleanTick(policies, st, ts, obs, quota, source) && Since(start, st, source, key, before)
    ensures Since(start, TickContext(policies, st, ts, obs, quota), source, key, added)
  {
    var next := TickContext(policies, st, ts, obs, quota);
    var own := Select(TickChanges(policies, st, ts, obs), LoggedBy(source));
    var rows, ids := CleanTickAdds(policies, st, ts, obs, quota, source);
    var used := NarrowIds(st.db, next.db, TickChanges(policies, st, ts, obs), ids, rows);
    OldSnapshots(names, st);
    StoredLogGrows(st.db, next.db, TickChanges(policies, st, ts, obs), used, rows, source, next.db.snapshots.sequence);
    StampedDistinct(ts, obs);
    StampedKeys(ts, obs, source);
    SourceTick(policies, st.last, Stamped(ts, obs), source, key);
    SinceAppend(start, st, next, source, key, before, own);
    added := before + own;
  }

  lemma {:induction false} SinceOther(start: State, st: State, next: State, source: string, key: string, added: seq<ContextChange>)
    requires Since(start, st, source, key, added)
    requires SameContextTables(st.db, next.db) && (next.last == st.last || next.last == map[])
    ensures Since(start, next, source, key, added)
  { }

  lemma {:induction false} RunSince(names: BitNames, policies: map<string, Policy>, st: State, events: seq<Event>, source: string, key: string)
    returns (added: seq<ContextChange>)
    requires Inv(names, st) && CleanContextFrom(names, policies, st, events, source, false) && PolicyOf(policies, source) == Default
    ensures Since(st, Run(names, policies, st, events), source, key, added)
  {
    added := [];
    if events == [] {
      var log := StoredLog(st.db, source, st.db.snapshots.sequence);
      assert log + [] == log;
    } else {
      var front, e := events[..|events| - 1], events[|events| - 1];
      var now := Run(names, policies, st, front);
      added := RunSince(names, policies, st, front, source, key);
      RunKeeps(names, policies, st, front);
      if e.ContextTick? {
        added := SinceTick(names, policies, st, now, e.ts, e.obs, e.quota, source, key, added);
      } else {
        OtherStep(names, policies, now, e);
        SinceOther(st, now, Step(names, policies, now, e), source, key, added);
      }
    }
  }

  /** From any state on, right or wrong, over every run whose context INSERTs succeed: the newest stored value of a key the
      registry holds is the held one exactly when the key was logged since, or it was right to begin with. */
  lemma {:induction false} ContextRecovers(names: BitNames, policies: map<string, Policy>, st: State, events: seq<Event>, source: string, key: string)
    returns (added: seq<ContextChange>)
    requires Inv(names, st) && CleanContextFrom(names, policies, st, events, source, false) && PolicyOf(policies, source) == Default
    requires Held(Run(names, policies, st, events).last, source, key) != Null
    ensures var end, full := Run(names, policies, st, events), FullKey(source, key);
            && StoredLog(end.db, source, end.db.snapshots.sequence) == StoredLog(st.db, source, st.db.snapshots.sequence) + added
            && (Newest(end.db, source, full, end.db.snapshots.sequence) == Some(Held(end.last, source, key))
                <==> Logs(added, full) || Newest(st.db, source, full, st.db.snapshots.sequence) == Some(Held(st.last, source, key)))
  {
    added := RunSince(names, policies, st, events, source, key);
    LatestLoggedIsLogged(added, FullKey(source, key));
    LatestLoggedAppend(StoredLog(st.db, source, st.db.snapshots.sequence), added, FullKey(source, key));
  }
}

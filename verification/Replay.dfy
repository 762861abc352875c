/** The transition log is a delta encoding of the samples: replaying it over a device's oldest sample rebuilds every
    later one, across interleaved devices, failed inserts and prunes. */
module Replay {
  import opened Rows
  import opened Throttle
  import opened Database
  import opened Retention
  import opened Collector
  import opened Invariants

  /** The samples of one device stored by the running process. */
  function OfRun(device: string, runStart: nat): Row<Sample> -> bool {
    (s: Row<Sample>) => s.body.device == device && s.id > runStart
  }

  function DeviceRun(st: State, device: string): seq<Row<Sample>> {
    Select(st.db.samples.rows, OfRun(device, st.runStart))
  }

  function OfSample(id: int): Row<Transition> -> bool {
    (t: Row<Transition>) => t.body.sampleId == id
  }

  /** The transitions logged with one sample, in id order. */
  function LoggedWith(db: Db, id: int): seq<Row<Transition>> {
    Select(db.transitions.rows, OfSample(id))
  }

  function ChangesOf(rows: seq<Row<Transition>>): seq<Throttle.Change> {
    if rows == [] then [] else
    var t := rows[|rows| - 1].body;
    ChangesOf(rows[..|rows| - 1]) + [Change(t.flag, t.oldValue, t.newValue)]
  }

  lemma {:induction false} ChangesOfAppend(a: seq<Row<Transition>>, b: seq<Row<Transition>>)
    ensures ChangesOf(a + b) == ChangesOf(a) + ChangesOf(b)
  {
    if b == [] {
      assert a + b == a;
    } else {
      assert (a + b)[..|a + b| - 1] == a + b[..|b| - 1];
      ChangesOfAppend(a, b[..|b| - 1]);
    }
  }

  /** A sample was logged as the exact difference from the one before it. */
  ghost predicate LoggedAt(names: BitNames, db: Db, before: Row<Sample>, s: Row<Sample>) {
    ChangesOf(LoggedWith(db, s.id)) == Diff(names, MaskOf(before.body), MaskOf(s.body))
  }

  ghost predicate LoggedRun(names: BitNames, db: Db, run: seq<Row<Sample>>) {
    forall i :: 1 <= i < |run| ==> LoggedAt(names, db, run[i - 1], run[i])
  }

  /** Each sample after the first of its run was logged as the exact difference from the one before it, and the
      remembered mask is that of the last one. */
  ghost predicate Logged(names: BitNames, st: State, device: string) {
    var run := DeviceRun(st, device);
    && (run != [] ==> device in st.masks && st.masks[device] == MaskOf(run[|run| - 1].body))
    && LoggedRun(names, st.db, run)
  }

  /** Transitions are logged sample by sample. */
  ghost predicate SampleIdsAscend(rows: seq<Row<Transition>>) {
    forall i, j :: 0 <= i < j < |rows| ==> rows[i].body.sampleId <= rows[j].body.sampleId
  }

  /** The stored log of the device's run can be replayed. */
  ghost predicate Replayable(names: BitNames, st: State, device: string) {
    && Inv(names, st) && LoggedRun(names, st.db, DeviceRun(st, device))
    && SampleIdsAscend(st.db.transitions.rows) && st.runStart <= st.db.samples.sequence
  }

  /** And goes on being logged exactly. */
  ghost predicate ReplayInv(names: BitNames, st: State, device: string) {
    Replayable(names, st, device) && Logged(names, st, device)
  }

  ghost predicate LoggedFromMask(names: BitNames, db: Db, mask: u64, s: Row<Sample>) {
    ChangesOf(LoggedWith(db, s.id)) == Diff(names, mask, MaskOf(s.body))
  }

  /** The oldest sample was logged as the exact difference from some mask: that of a sample since pruned, or one
      remembered across a reset, or its own. */
  ghost predicate FirstLogged(names: BitNames, st: State, device: string) {
    var run := DeviceRun(st, device);
    run != [] ==> exists mask :: LoggedFromMask(names, st.db, mask, run[0])
  }

  // ---- what storing a reading adds ----

  lemma {:induction false} LogChangesAppend(st: State, ts: int, sampleId: int, device: string, changes: seq<Throttle.Change>)
    returns (added: seq<Row<Transition>>)
    ensures LogChanges(st, ts, sampleId, device, changes).db.transitions.rows == st.db.transitions.rows + added
    ensures ChangesOf(added) == changes
    ensures forall t :: t in added ==> t.body.sampleId == sampleId && t.body.device == device && t.ts == ts
  {
    added := [];
    if changes != [] {
      var front, c := changes[..|changes| - 1], changes[|changes| - 1];
      var before := LogChangesAppend(st, ts, sampleId, device, front);
      var prev, t := LogChanges(st, ts, sampleId, device, front), TransitionFor(sampleId, device, c);
      assert LogChanges(st, ts, sampleId, device, changes) == LogChange(prev, ts, t);
      var row := Row(prev.db.transitions.sequence + 1, ts, t);
      added := before + [row];
      assert st.db.transitions.rows + before + [row] == st.db.transitions.rows + added;
      assert added[..|added| - 1] == before && ChangesOf(added) == front + [c];
    }
  }

  lemma {:induction false} SampleIdsBounded(names: BitNames, st: State)
    requires Inv(names, st)
    ensures forall t :: t in st.db.transitions.rows ==> t.body.sampleId <= st.db.samples.sequence
  {
    forall t | t in st.db.transitions.rows ensures t.body.sampleId <= st.db.samples.sequence { assert SampleOf(st.db, t); }
  }

  function NewSample(names: BitNames, st: State, r: Reading): Row<Sample> {
    Row(st.db.samples.sequence + 1, r.ts, SampleFor(names, r))
  }

  /** Storing a reading appends one sample and remembers its mask. */
  lemma {:induction false} StoreAddsSample(names: BitNames, st: State, r: Reading, quota: nat)
    requires quota > 0
    ensures var next := Store(names, st, r, quota);
            && next.db.samples == Insert(st.db.samples, r.ts, SampleFor(names, r))
            && next.masks == st.masks[r.device := r.mask] && next.runStart == st.runStart
    ensures MaskOf(NewSample(names, st, r).body) == r.mask
  {
    LogChangesFrame(Remember(names, st, r), r.ts, st.db.samples.sequence + 1, r.device, Limit(ChangesFor(names, st.masks, r), quota - 1));
    MaskRoundTrip(r.mask);
  }

  /** Rows of a new sample do not show up in the log of any other. */
  lemma {:induction false} LogOfNewSample(rows: seq<Row<Transition>>, added: seq<Row<Transition>>, id: int)
    requires forall t :: t in rows ==> t.body.sampleId < id
    requires forall t :: t in added ==> t.body.sampleId == id
    ensures Select(rows + added, OfSample(id)) == added
    ensures forall other :: other != id ==> Select(rows + added, OfSample(other)) == Select(rows, OfSample(other))
  {
    SelectAppend(rows, added, OfSample(id));
    SelectAll(added, OfSample(id));
    SelectNone(rows, OfSample(id));
    assert [] + added == added;
    forall other | other != id ensures Select(rows + added, OfSample(other)) == Select(rows, OfSample(other)) {
      SelectAppend(rows, added, OfSample(other));
      SelectNone(added, OfSample(other));
    }
  }

  /** With it goes as much of its diff as the quota allows; the logs of earlier samples stay as they were. */
  lemma {:induction false} StoreAddsLog(names: BitNames, st: State, r: Reading, quota: nat)
    requires Inv(names, st) && quota > 0
    ensures var next := Store(names, st, r, quota);
            && ChangesOf(LoggedWith(next.db, st.db.samples.sequence + 1)) == Limit(ChangesFor(names, st.masks, r), quota - 1)
            && forall id :: id <= st.db.samples.sequence ==> LoggedWith(next.db, id) == LoggedWith(st.db, id)
  {
    var id, start := st.db.samples.sequence + 1, Remember(names, st, r);
    var changes := Limit(ChangesFor(names, st.masks, r), quota - 1);
    assert Store(names, st, r, quota) == LogChanges(start, r.ts, id, r.device, changes);
    var added := LogChangesAppend(start, r.ts, id, r.device, changes);
    SampleIdsBounded(names, st);
    LogOfNewSample(st.db.transitions.rows, added, id);
  }

  lemma {:induction false} StoreKeepsSampleOrder(names: BitNames, st: State, r: Reading, quota: nat)
    requires Inv(names, st) && quota > 0 && SampleIdsAscend(st.db.transitions.rows)
    ensures SampleIdsAscend(Store(names, st, r, quota).db.transitions.rows)
  {
    var id, rows := st.db.samples.sequence + 1, st.db.transitions.rows;
    var added := LogChangesAppend(Remember(names, st, r), r.ts, id, r.device, Limit(ChangesFor(names, st.masks, r), quota - 1));
    SampleIdsBounded(names, st);
    forall i | 0 <= i < |rows| ensures rows[i].body.sampleId < id { assert rows[i] in rows; }
    forall i | 0 <= i < |added| ensures added[i].body.sampleId == id { assert added[i] in added; }
  }

  lemma {:induction false} DeviceRunIds(names: BitNames, st: State, device: string)
    requires Inv(names, st)
    ensures IdsAscend(DeviceRun(st, device))
    ensures forall i :: 0 <= i < |DeviceRun(st, device)| ==> DeviceRun(st, device)[i] in st.db.samples.rows
    ensures forall i :: 0 <= i < |DeviceRun(st, device)| ==> st.runStart < DeviceRun(st, device)[i].id <= st.db.samples.sequence
  {
    SelectAscends(st.db.samples.rows, OfRun(device, st.runStart));
    var run := DeviceRun(st, device);
    forall i | 0 <= i < |run| ensures run[i] in st.db.samples.rows && run[i].id <= st.db.samples.sequence { assert run[i] in run; }
    forall i | 0 <= i < |run| ensures st.runStart < run[i].id { assert run[i] in run; }
  }

  lemma {:induction false} StoreExtendsRun(names: BitNames, st: State, device: string, r: Reading, quota: nat)
    requires quota > 0
    ensures DeviceRun(Store(names, st, r, quota), device)
         == if OfRun(device, st.runStart)(NewSample(names, st, r)) then DeviceRun(st, device) + [NewSample(names, st, r)] else DeviceRun(st, device)
  {
    StoreAddsSample(names, st, r, quota);
    assert Store(names, st, r, quota).db.samples.rows == st.db.samples.rows + [NewSample(names, st, r)];
    SelectPush(st.db.samples.rows, NewSample(names, st, r), OfRun(device, st.runStart));
  }

  lemma {:induction false} RunStaysLogged(names: BitNames, db: Db, after: Db, run: seq<Row<Sample>>)
    requires LoggedRun(names, db, run)
    requires forall i :: 0 <= i < |run| ==> LoggedWith(after, run[i].id) == LoggedWith(db, run[i].id)
    ensures LoggedRun(names, after, run)
  {
    forall i | 1 <= i < |run| ensures LoggedAt(names, after, run[i - 1], run[i]) {
      assert LoggedAt(names, db, run[i - 1], run[i]);
    }
  }

  lemma {:induction false} PushStaysLogged(names: BitNames, db: Db, run: seq<Row<Sample>>, s: Row<Sample>)
    requires LoggedRun(names, db, run) && (run != [] ==> LoggedAt(names, db, run[|run| - 1], s))
    ensures LoggedRun(names, db, run + [s])
  { }

  /** The new state's log of the device, from its parts. */
  lemma {:induction false} LoggedFrom(names: BitNames, next: State, device: string, run: seq<Row<Sample>>)
    requires DeviceRun(next, device) == run && LoggedRun(names, next.db, run)
    requires run != [] ==> device in next.masks && next.masks[device] == MaskOf(run[|run| - 1].body)
    ensures Logged(names, next, device)
  { }

  lemma {:induction false} EarlierLogsStay(names: BitNames, st: State, run: seq<Row<Sample>>, r: Reading, quota: nat)
    requires Inv(names, st) && quota > 0 && forall i :: 0 <= i < |run| ==> run[i].id <= st.db.samples.sequence
    ensures forall i :: 0 <= i < |run| ==> LoggedWith(Store(names, st, r, quota).db, run[i].id) == LoggedWith(st.db, run[i].id)
  {
    StoreAddsLog(names, st, r, quota);
  }

  lemma {:induction false} NewSampleIsLogged(names: BitNames, st: State, r: Reading, db: Db, before: Row<Sample>)
    requires r.device in st.masks && st.masks[r.device] == MaskOf(before.body)
    requires ChangesOf(LoggedWith(db, st.db.samples.sequence + 1)) == ChangesFor(names, st.masks, r)
    ensures LoggedAt(names, db, before, NewSample(names, st, r))
  {
    MaskRoundTrip(r.mask);
  }

  /** Earlier samples keep their logs, whatever is stored. */
  lemma {:induction false} EarlierRunStays(names: BitNames, st: State, device: string, r: Reading, quota: nat)
    requires ReplayInv(names, st, device) && quota > 0
    ensures LoggedRun(names, Store(names, st, r, quota).db, DeviceRun(st, device))
  {
    DeviceRunIds(names, st, device);
    EarlierLogsStay(names, st, DeviceRun(st, device), r, quota);
    RunStaysLogged(names, st.db, Store(names, st, r, quota).db, DeviceRun(st, device));
  }

  lemma {:induction false} NewestIsLogged(names: BitNames, st: State, r: Reading, quota: nat)
    requires ReplayInv(names, st, r.device) && quota >= Cost(names, st, r) && DeviceRun(st, r.device) != []
    ensures LoggedAt(names, Store(names, st, r, quota).db, DeviceRun(st, r.device)[|DeviceRun(st, r.device)| - 1], NewSample(names, st, r))
  {
    StoreAddsLog(names, st, r, quota);
    NewSampleIsLogged(names, st, r, Store(names, st, r, quota).db, DeviceRun(st, r.device)[|DeviceRun(st, r.device)| - 1]);
  }

  lemma {:induction false} NewestIsRemembered(names: BitNames, next: State, device: string, run: seq<Row<Sample>>, s: Row<Sample>)
    requires DeviceRun(next, device) == run + [s] && LoggedRun(names, next.db, run + [s])
    requires device in next.masks && next.masks[device] == MaskOf(s.body)
    ensures Logged(names, next, device)
  {
    LoggedFrom(names, next, device, run + [s]);
  }

  lemma {:induction false} OwnStoreKeepsLog(names: BitNames, st: State, r: Reading, quota: nat)
    requires ReplayInv(names, st, r.device) && quota >= Cost(names, st, r)
    ensures Logged(names, Store(names, st, r, quota), r.device)
  {
    var next, run, s := Store(names, st, r, quota), DeviceRun(st, r.device), NewSample(names, st, r);
    EarlierRunStays(names, st, r.device, r, quota);
    if run != [] { NewestIsLogged(names, st, r, quota); }
    PushStaysLogged(names, next.db, run, s);
    StoreAddsSample(names, st, r, quota);
    OwnRunGrows(names, st, r, quota);
    NewestIsRemembered(names, next, r.device, run, s);
  }

  lemma {:induction false} OwnRunGrows(names: BitNames, st: State, r: Reading, quota: nat)
    requires quota > 0 && st.runStart <= st.db.samples.sequence
    ensures DeviceRun(Store(names, st, r, quota), r.device) == DeviceRun(st, r.device) + [NewSample(names, st, r)]
  {
    StoreExtendsRun(names, st, r.device, r, quota);
  }

  lemma {:induction false} StoreKeepsLog(names: BitNames, st: State, device: string, r: Reading, quota: nat)
    requires ReplayInv(names, st, device) && quota > 0
    requires r.device == device ==> quota >= Cost(names, st, r)
    ensures Logged(names, Store(names, st, r, quota), device)
  {
    if r.device == device {
      OwnStoreKeepsLog(names, st, r, quota);
    } else {
      EarlierRunStays(names, st, device, r, quota);
      StoreAddsSample(names, st, r, quota);
      StoreExtendsRun(names, st, device, r, quota);
      LoggedFrom(names, Store(names, st, r, quota), device, DeviceRun(st, device));
    }
  }

  // ---- what pruning leaves ----

  lemma {:induction false} SameSample(names: BitNames, db: Db, a: Row<Sample>, b: Row<Sample>)
    requires Numbered(db.samples) && a in db.samples.rows && b in db.samples.rows && a.id == b.id
    ensures a == b
  { }

  lemma {:induction false} PrunedDeviceRun(st: State, device: string, cutoff: int)
    ensures DeviceRun(st.(db := Prune(st.db, cutoff)), device) == Select(DeviceRun(st, device), Not(OlderThan(cutoff)))
  {
    PruneTables(st.db, cutoff, PRUNE_STATEMENTS);
    var survives, ofRun := Not(OlderThan<Sample>(cutoff)), OfRun(device, st.runStart);
    var both := (s: Row<Sample>) => survives(s) && ofRun(s);
    SelectTwice(st.db.samples.rows, survives, ofRun, both);
    SelectTwice(st.db.samples.rows, ofRun, survives, both);
  }

  lemma {:induction false} PrunedRun(st: State, device: string, cutoff: int) returns (k: nat)
    requires TsAscend(DeviceRun(st, device))
    ensures k <= |DeviceRun(st, device)|
    ensures DeviceRun(st.(db := Prune(st.db, cutoff)), device) == DeviceRun(st, device)[k..]
    ensures forall i :: k <= i < |DeviceRun(st, device)| ==> DeviceRun(st, device)[i].ts >= cutoff
  {
    var run := DeviceRun(st, device);
    PrunedDeviceRun(st, device, cutoff);
    k := RecentIsSuffix(run, cutoff);
    forall i | k <= i < |run| ensures run[i].ts >= cutoff { assert run[k..][i - k] in Select(run, Not(OlderThan(cutoff))); }
  }

  /** The log of a suffix of the run is the suffix of its log. */
  lemma {:induction false} SuffixIsLogged(names: BitNames, db: Db, after: Db, run: seq<Row<Sample>>, k: nat)
    requires k <= |run| && LoggedRun(names, db, run)
    requires forall i :: k <= i < |run| ==> LoggedWith(after, run[i].id) == LoggedWith(db, run[i].id)
    ensures LoggedRun(names, after, run[k..])
  {
    forall i | 1 <= i < |run[k..]| ensures LoggedAt(names, after, run[k..][i - 1], run[k..][i]) {
      assert LoggedAt(names, db, run[k + i - 1], run[k + i]);
    }
  }

  lemma {:induction false} PruneKeepsEachLog(names: BitNames, st: State, run: seq<Row<Sample>>, cutoff: int, k: nat)
    requires Inv(names, st) && k <= |run|
    requires forall i :: k <= i < |run| ==> run[i] in st.db.samples.rows && run[i].ts >= cutoff
    ensures forall i :: k <= i < |run| ==> LoggedWith(Prune(st.db, cutoff), run[i].id) == LoggedWith(st.db, run[i].id)
  {
    forall i | k <= i < |run| ensures LoggedWith(Prune(st.db, cutoff), run[i].id) == LoggedWith(st.db, run[i].id) {
      PruneKeepsLogOf(names, st, run[i], cutoff);
    }
  }

  lemma {:induction false} PruneKeepsLogged(names: BitNames, st: State, device: string, cutoff: int)
    requires Inv(names, st) && Logged(names, st, device) && TsAscend(DeviceRun(st, device))
    ensures Logged(names, st.(db := Prune(st.db, cutoff)), device)
    ensures TsAscend(DeviceRun(st.(db := Prune(st.db, cutoff)), device))
  {
    var run := DeviceRun(st, device);
    var k := PrunedRun(st, device, cutoff);
    DeviceRunIds(names, st, device);
    PruneKeepsEachLog(names, st, run, cutoff, k);
    SuffixIsLogged(names, st.db, Prune(st.db, cutoff), run, k);
  }

  lemma {:induction false} PruneKeepsLog(names: BitNames, st: State, device: string, cutoff: int)
    requires ReplayInv(names, st, device) && TsAscend(DeviceRun(st, device))
    ensures ReplayInv(names, st.(db := Prune(st.db, cutoff)), device)
    ensures TsAscend(DeviceRun(st.(db := Prune(st.db, cutoff)), device))
  {
    PruneKeeps(names, st, cutoff);
    PruneKeepsLogged(names, st, device, cutoff);
    PruneKeepsOrder(st.db, cutoff);
  }

  lemma {:induction false} PruneKeepsOrder(db: Db, cutoff: int)
    requires SampleIdsAscend(db.transitions.rows)
    ensures SampleIdsAscend(Prune(db, cutoff).transitions.rows)
    ensures Prune(db, cutoff).samples.sequence == db.samples.sequence
  {
    PruneTables(db, cutoff, PRUNE_STATEMENTS);
    SelectOrder(db.transitions.rows, Not(OlderThan(cutoff)));
  }

  /** A surviving sample keeps all of its transitions, because they carry its time. */
  lemma {:induction false} PruneKeepsLogOf(names: BitNames, st: State, s: Row<Sample>, cutoff: int)
    requires Inv(names, st) && s in st.db.samples.rows && s.ts >= cutoff
    ensures LoggedWith(Prune(st.db, cutoff), s.id) == LoggedWith(st.db, s.id)
  {
    PruneTables(st.db, cutoff, PRUNE_STATEMENTS);
    forall t | t in st.db.transitions.rows && t.body.sampleId == s.id ensures t.ts >= cutoff {
      assert SampleOf(st.db, t);
      var parent :| parent in st.db.samples.rows && parent.id == t.body.sampleId && parent.ts == t.ts;
      SameSample(names, st.db, parent, s);
    }
    SelectTwice(st.db.transitions.rows, Not(OlderThan(cutoff)), OfSample(s.id), OfSample(s.id));
  }

  lemma {:induction false} SelectOrder(rows: seq<Row<Transition>>, p: Row<Transition> -> bool)
    requires SampleIdsAscend(rows)
    ensures SampleIdsAscend(Select(rows, p))
  {
    if rows != [] {
      var front := rows[..|rows| - 1];
      SelectOrder(front, p);
      var r := Select(front, p);
      forall i | 0 <= i < |r| ensures r[i].body.sampleId <= rows[|rows| - 1].body.sampleId { assert r[i] in front; }
    }
  }

  // ---- steps that collect no GPU sample ----

  /** Neither samples nor transitions nor remembered masks are touched. */
  ghost predicate SameGpuLog(st: State, next: State) {
    && next.db.samples == st.db.samples && next.db.transitions == st.db.transitions
    && next.masks == st.masks && next.runStart == st.runStart
  }

  predicate IsQuiet(e: Event) {
    e.ContextTick? || e.Deliver? || e.LookupDone? || e.Harvest? || e.Mark?
  }

  lemma {:induction false} QuietEvent(names: BitNames, policies: map<string, Context.Policy>, st: State, e: Event)
    requires Inv(names, st) && IsQuiet(e)
    ensures SameGpuLog(st, Step(names, policies, st, e))
  {
    if e.ContextTick? { TickContextKeeps(names, policies, st, e.ts, e.obs, e.quota); }
  }

  // ---- the oldest sample ----

  lemma {:induction false} FirstStays(names: BitNames, st: State, next: State, device: string)
    requires FirstLogged(names, st, device) && DeviceRun(st, device) != []
    requires DeviceRun(next, device) != [] && DeviceRun(next, device)[0] == DeviceRun(st, device)[0]
    requires LoggedWith(next.db, DeviceRun(st, device)[0].id) == LoggedWith(st.db, DeviceRun(st, device)[0].id)
    ensures FirstLogged(names, next, device)
  {
    var mask :| LoggedFromMask(names, st.db, mask, DeviceRun(st, device)[0]);
    assert LoggedFromMask(names, next.db, mask, DeviceRun(next, device)[0]);
  }

  lemma {:induction false} FirstFrom(names: BitNames, next: State, device: string, first: Row<Sample>, mask: u64)
    requires DeviceRun(next, device) == [first] && LoggedFromMask(names, next.db, mask, first)
    ensures FirstLogged(names, next, device)
  {
    assert DeviceRun(next, device)[0] == first;
  }

  lemma {:induction false} FirstStored(names: BitNames, st: State, r: Reading, quota: nat) returns (mask: u64)
    requires Inv(names, st) && quota >= Cost(names, st, r)
    ensures LoggedFromMask(names, Store(names, st, r, quota).db, mask, NewSample(names, st, r))
  {
    mask := if r.device in st.masks then st.masks[r.device] else r.mask;
    assert NewSample(names, st, r).id == st.db.samples.sequence + 1;
    StoreAddsSample(names, st, r, quota);
    StoreAddsLog(names, st, r, quota);
  }

  /** A stored sample leaves the run's first one and its log as they were. */
  lemma {:induction false} StoreSparesFirst(names: BitNames, st: State, device: string, r: Reading, quota: nat)
    requires Inv(names, st) && quota > 0 && DeviceRun(st, device) != []
    ensures DeviceRun(Store(names, st, r, quota), device) != []
    ensures DeviceRun(Store(names, st, r, quota), device)[0] == DeviceRun(st, device)[0]
    ensures LoggedWith(Store(names, st, r, quota).db, DeviceRun(st, device)[0].id) == LoggedWith(st.db, DeviceRun(st, device)[0].id)
  {
    StoreExtendsRun(names, st, device, r, quota);
    StoreAddsLog(names, st, r, quota);
    DeviceRunIds(names, st, device);
  }

  /** Where there is none, the device's own sample becomes the first. */
  lemma {:induction false} StoreStartsRun(names: BitNames, st: State, device: string, r: Reading, quota: nat)
    requires st.runStart <= st.db.samples.sequence && quota > 0 && DeviceRun(st, device) == []
    ensures DeviceRun(Store(names, st, r, quota), device) == if r.device == device then [NewSample(names, st, r)] else []
  {
    StoreExtendsRun(names, st, device, r, quota);
  }

  lemma {:induction false} StoreStartsLogged(names: BitNames, st: State, r: Reading, quota: nat)
    requires Inv(names, st) && st.runStart <= st.db.samples.sequence && DeviceRun(st, r.device) == []
    requires quota >= Cost(names, st, r)
    ensures FirstLogged(names, Store(names, st, r, quota), r.device)
  {
    StoreStartsRun(names, st, r.device, r, quota);
    var mask := FirstStored(names, st, r, quota);
    FirstFrom(names, Store(names, st, r, quota), r.device, NewSample(names, st, r), mask);
  }

  lemma {:induction false} StoreKeepsFirst(names: BitNames, st: State, device: string, r: Reading, quota: nat)
    requires Inv(names, st) && st.runStart <= st.db.samples.sequence && FirstLogged(names, st, device) && quota > 0
    requires r.device == device ==> quota >= Cost(names, st, r)
    ensures FirstLogged(names, Store(names, st, r, quota), device)
  {
    if DeviceRun(st, device) != [] {
      StoreSparesFirst(names, st, device, r, quota);
      FirstStays(names, st, Store(names, st, r, quota), device);
    } else if r.device == device {
      StoreStartsLogged(names, st, r, quota);
    } else {
      StoreStartsRun(names, st, device, r, quota);
    }
  }

  lemma {:induction false} PruneKeepsFirst(names: BitNames, st: State, device: string, cutoff: int)
    requires ReplayInv(names, st, device) && FirstLogged(names, st, device) && TsAscend(DeviceRun(st, device))
    ensures FirstLogged(names, st.(db := Prune(st.db, cutoff)), device)
  {
    var run := DeviceRun(st, device);
    var k := PrunedRun(st, device, cutoff);
    DeviceRunIds(names, st, device);
    if k < |run| {
      PruneKeepsLogOf(names, st, run[k], cutoff);
      assert run[k..][0] == run[k];
      if k > 0 {
        assert LoggedAt(names, st.db, run[k - 1], run[k]);
        assert LoggedFromMask(names, Prune(st.db, cutoff), MaskOf(run[k - 1].body), run[k]);
      } else {
        FirstStays(names, st, st.(db := Prune(st.db, cutoff)), device);
      }
    }
  }

  lemma {:induction false} QuietStepKeepsFirst(names: BitNames, st: State, next: State, device: string)
    requires FirstLogged(names, st, device)
    requires SameGpuLog(st, next)
    ensures FirstLogged(names, next, device)
  {
    assert DeviceRun(next, device) == DeviceRun(st, device);
    if DeviceRun(st, device) != [] { FirstStays(names, st, next, device); }
  }

  // ---- whole runs ----

  /** For one device: no INSERT of a transition fails, and where the run prunes, the device's time never goes back.
      Failed sample inserts, other devices, deliveries, resets and restarts are unrestricted. */
  ghost predicate CleanStep(names: BitNames, st: State, e: Event, device: string, ordered: bool) {
    match e
    case StoreReading(r, quota) =>
      r.device == device && quota > 0 ==>
        quota >= Cost(names, st, r) && (ordered ==> forall s :: s in DeviceRun(st, device) ==> s.ts <= r.ts)
    case PruneBefore(_) => ordered
    case _ => true
  }

  ghost predicate CleanFrom(names: BitNames, policies: map<string, Context.Policy>, st: State, events: seq<Event>, device: string, ordered: bool) {
    events != [] ==>
      var front := events[..|events| - 1];
      && CleanFrom(names, policies, st, front, device, ordered)
      && CleanStep(names, Run(names, policies, st, front), events[|events| - 1], device, ordered)
  }

  ghost predicate CleanRun(names: BitNames, policies: map<string, Context.Policy>, events: seq<Event>, device: string, ordered: bool) {
    CleanFrom(names, policies, INITIAL, events, device, ordered)
  }

  lemma {:induction false} CleanPush(names: BitNames, policies: map<string, Context.Policy>, st: State, events: seq<Event>, e: Event, device: string, ordered: bool)
    requires CleanFrom(names, policies, st, events, device, ordered) && CleanStep(names, Run(names, policies, st, events), e, device, ordered)
    ensures CleanFrom(names, policies, st, events + [e], device, ordered)
  {
    assert (events + [e])[..|events|] == events;
  }

  ghost predicate Ordered(st: State, device: string, ordered: bool) {
    ordered ==> TsAscend(DeviceRun(st, device))
  }

  lemma {:induction false} StoreKeepsOrder(names: BitNames, st: State, r: Reading, quota: nat, device: string)
    requires TsAscend(DeviceRun(st, device)) && quota > 0
    requires r.device == device ==> forall s :: s in DeviceRun(st, device) ==> s.ts <= r.ts
    ensures TsAscend(DeviceRun(Store(names, st, r, quota), device))
  {
    StoreExtendsRun(names, st, device, r, quota);
    var run := DeviceRun(st, device);
    forall i | 0 <= i < |run| ensures run[i] in run { }
  }

  lemma {:induction false} StoreStepKeepsLog(names: BitNames, st: State, r: Reading, quota: nat, device: string, ordered: bool)
    requires ReplayInv(names, st, device) && Ordered(st, device, ordered)
    requires CleanStep(names, st, StoreReading(r, quota), device, ordered)
    ensures ReplayInv(names, Store(names, st, r, quota), device) && Ordered(Store(names, st, r, quota), device, ordered)
  {
    if quota > 0 {
      StoreKeeps(names, st, r, quota);
      StoreKeepsLog(names, st, device, r, quota);
      StoreKeepsSampleOrder(names, st, r, quota);
      StoreAddsSample(names, st, r, quota);
      if ordered { StoreKeepsOrder(names, st, r, quota, device); }
    }
  }

  /** A step that leaves samples, transitions, masks and run start alone leaves the log alone. */
  lemma {:induction false} QuietStepKeepsLog(names: BitNames, st: State, next: State, device: string, ordered: bool)
    requires ReplayInv(names, st, device) && Ordered(st, device, ordered) && Inv(names, next)
    requires SameGpuLog(st, next)
    ensures ReplayInv(names, next, device) && Ordered(next, device, ordered)
  {
    forall id ensures LoggedWith(next.db, id) == LoggedWith(st.db, id) { }
  }

  /** After a reset or a restart the device has no sample of the running process yet. */
  lemma {:induction false} FreshStartKeepsLog(names: BitNames, policies: map<string, Context.Policy>, st: State, e: Event, device: string, ordered: bool)
    requires ReplayInv(names, st, device) && (e.Reset? || e.Restart?)
    ensures ReplayInv(names, Step(names, policies, st, e), device) && Ordered(Step(names, policies, st, e), device, ordered)
  {
    var next := Step(names, policies, st, e);
    HousekeepingKeeps(names, policies, st, e);
    ResetStaysLinked(st.db, RESET_STATEMENTS);
    SelectNone(next.db.samples.rows, OfRun(device, next.runStart));
  }

  lemma {:induction false} StepKeepsLog(names: BitNames, policies: map<string, Context.Policy>, st: State, e: Event, device: string, ordered: bool)
    requires ReplayInv(names, st, device) && Ordered(st, device, ordered)
    requires CleanStep(names, st, e, device, ordered)
    ensures ReplayInv(names, Step(names, policies, st, e), device) && Ordered(Step(names, policies, st, e), device, ordered)
  {
    match e {
      case StoreReading(r, quota) => StoreStepKeepsLog(names, st, r, quota, device, ordered);
      case PruneBefore(cutoff) => PruneKeepsLog(names, st, device, cutoff);
      case Reset => FreshStartKeepsLog(names, policies, st, e, device, ordered);
      case Restart => FreshStartKeepsLog(names, policies, st, e, device, ordered);
      case _ =>
        StepKeeps(names, policies, st, e);
        QuietEvent(names, policies, st, e);
        QuietStepKeepsLog(names, st, Step(names, policies, st, e), device, ordered);
    }
  }

  lemma {:induction false} CleanFromKeepsLog(names: BitNames, policies: map<string, Context.Policy>, st: State, events: seq<Event>, device: string, ordered: bool)
    requires ReplayInv(names, st, device) && Ordered(st, device, ordered)
    requires CleanFrom(names, policies, st, events, device, ordered)
    ensures ReplayInv(names, Run(names, policies, st, events), device) && Ordered(Run(names, policies, st, events), device, ordered)
  {
    if events != [] {
      var front := events[..|events| - 1];
      CleanFromKeepsLog(names, policies, st, front, device, ordered);
      StepKeepsLog(names, policies, Run(names, policies, st, front), events[|events| - 1], device, ordered);
    }
  }

  lemma {:induction false} CleanRunIsLogged(names: BitNames, policies: map<string, Context.Policy>, events: seq<Event>, device: string, ordered: bool)
    requires CleanRun(names, policies, events, device, ordered)
    ensures var st := Run(names, policies, INITIAL, events);
            ReplayInv(names, st, device) && Ordered(st, device, ordered)
  {
    assert DeviceRun(INITIAL, device) == [];
    CleanFromKeepsLog(names, policies, INITIAL, events, device, ordered);
  }

  lemma {:induction false} StepKeepsFirst(names: BitNames, policies: map<string, Context.Policy>, st: State, e: Event, device: string, ordered: bool)
    requires ReplayInv(names, st, device) && FirstLogged(names, st, device) && Ordered(st, device, ordered)
    requires CleanStep(names, st, e, device, ordered)
    ensures FirstLogged(names, Step(names, policies, st, e), device)
  {
    match e {
      case StoreReading(r, quota) => if quota > 0 { StoreKeepsFirst(names, st, device, r, quota); }
      case PruneBefore(cutoff) => PruneKeepsFirst(names, st, device, cutoff);
      case Reset => ResetStaysLinked(st.db, RESET_STATEMENTS);
      case Restart => SelectNone(st.db.samples.rows, OfRun(device, st.db.samples.sequence));
      case _ =>
        QuietEvent(names, policies, st, e);
        QuietStepKeepsFirst(names, st, Step(names, policies, st, e), device);
    }
  }

  lemma {:induction false} CleanRunFirst(names: BitNames, policies: map<string, Context.Policy>, events: seq<Event>, device: string, ordered: bool)
    requires CleanRun(names, policies, events, device, ordered)
    ensures FirstLogged(names, Run(names, policies, INITIAL, events), device)
  {
    if events != [] {
      var front := events[..|events| - 1];
      CleanRunFirst(names, policies, front, device, ordered);
      CleanRunIsLogged(names, policies, front, device, ordered);
      StepKeepsFirst(names, policies, Run(names, policies, INITIAL, front), events[|events| - 1], device, ordered);
    }
  }

  // ---- a process's very first sample ----

  /** No mask is remembered before the run's first sample, and that sample was logged without changes. */
  ghost predicate StartsSilent(st: State, device: string) {
    var run := DeviceRun(st, device);
    if run == [] then device !in st.masks else LoggedWith(st.db, run[0].id) == []
  }

  /** The step neither resets nor prunes the run's first sample away. */
  ghost predicate SparesFirst(st: State, e: Event, device: string) {
    match e
    case Reset => false
    case PruneBefore(cutoff) => DeviceRun(st, device) != [] ==> DeviceRun(st, device)[0].ts >= cutoff
    case _ => true
  }

  lemma {:induction false} SelectFirst<T>(s: seq<T>, p: T -> bool)
    requires s != [] && p(s[0])
    ensures Select(s, p) != [] && Select(s, p)[0] == s[0]
  {
    if |s| > 1 { SelectFirst(s[..|s| - 1], p); }
  }

  lemma {:induction false} UnrememberedLogsNothing(names: BitNames, st: State, r: Reading, quota: nat)
    requires Inv(names, st) && quota > 0 && r.device !in st.masks
    ensures LoggedWith(Store(names, st, r, quota).db, NewSample(names, st, r).id) == []
  {
    SameMaskNoDiff(names, r.mask, 64);
    assert NewSample(names, st, r).id == st.db.samples.sequence + 1;
    StoreAddsLog(names, st, r, quota);
  }

  lemma {:induction false} SilentFirst(next: State, device: string, first: Row<Sample>)
    requires DeviceRun(next, device) != [] && DeviceRun(next, device)[0] == first && LoggedWith(next.db, first.id) == []
    ensures StartsSilent(next, device)
  { }

  lemma {:induction false} OwnStoreStartsSilent(names: BitNames, st: State, r: Reading, quota: nat)
    requires Inv(names, st) && st.runStart <= st.db.samples.sequence && quota > 0
    requires DeviceRun(st, r.device) == [] && r.device !in st.masks
    ensures StartsSilent(Store(names, st, r, quota), r.device)
  {
    var next, s := Store(names, st, r, quota), NewSample(names, st, r);
    assert DeviceRun(next, r.device) == [s] by { StoreStartsRun(names, st, r.device, r, quota); }
    assert LoggedWith(next.db, s.id) == [] by { UnrememberedLogsNothing(names, st, r, quota); }
    SilentFirst(next, r.device, s);
  }

  lemma {:induction false} OtherStoreStartsSilent(names: BitNames, st: State, device: string, r: Reading, quota: nat)
    requires st.runStart <= st.db.samples.sequence && quota > 0 && r.device != device
    requires DeviceRun(st, device) == [] && device !in st.masks
    ensures StartsSilent(Store(names, st, r, quota), device)
  {
    StoreStartsRun(names, st, device, r, quota);
    StoreAddsSample(names, st, r, quota);
  }

  lemma {:induction false} StoreStaysSilent(names: BitNames, st: State, device: string, r: Reading, quota: nat)
    requires Inv(names, st) && quota > 0 && DeviceRun(st, device) != [] && StartsSilent(st, device)
    ensures StartsSilent(Store(names, st, r, quota), device)
  {
    StoreSparesFirst(names, st, device, r, quota);
    SilentFirst(Store(names, st, r, quota), device, DeviceRun(st, device)[0]);
  }

  lemma {:induction false} StoreKeepsSilentStart(names: BitNames, st: State, device: string, r: Reading, quota: nat)
    requires Inv(names, st) && st.runStart <= st.db.samples.sequence && StartsSilent(st, device) && quota > 0
    ensures StartsSilent(Store(names, st, r, quota), device)
  {
    if DeviceRun(st, device) == [] && r.device == device {
      OwnStoreStartsSilent(names, st, r, quota);
    } else if DeviceRun(st, device) == [] {
      OtherStoreStartsSilent(names, st, device, r, quota);
    } else {
      StoreStaysSilent(names, st, device, r, quota);
    }
  }

  lemma {:induction false} PruneKeepsSilentStart(names: BitNames, st: State, device: string, cutoff: int)
    requires Inv(names, st) && StartsSilent(st, device) && SparesFirst(st, PruneBefore(cutoff), device)
    ensures StartsSilent(st.(db := Prune(st.db, cutoff)), device)
  {
    var run, next := DeviceRun(st, device), st.(db := Prune(st.db, cutoff));
    PrunedDeviceRun(st, device, cutoff);
    if run != [] {
      DeviceRunIds(names, st, device);
      SelectFirst(run, Not(OlderThan(cutoff)));
      PruneKeepsLogOf(names, st, run[0], cutoff);
    }
  }

  lemma {:induction false} QuietStepStaysSilent(st: State, next: State, device: string)
    requires StartsSilent(st, device)
    requires SameGpuLog(st, next)
    ensures StartsSilent(next, device)
  {
    assert DeviceRun(next, device) == DeviceRun(st, device);
  }

  lemma {:induction false} StepKeepsSilentStart(names: BitNames, policies: map<string, Context.Policy>, st: State, e: Event, device: string)
    requires Inv(names, st) && st.runStart <= st.db.samples.sequence && StartsSilent(st, device) && SparesFirst(st, e, device)
    ensures StartsSilent(Step(names, policies, st, e), device)
  {
    match e {
      case StoreReading(r, quota) => if quota > 0 { StoreKeepsSilentStart(names, st, device, r, quota); }
      case PruneBefore(cutoff) => PruneKeepsSilentStart(names, st, device, cutoff);
      case Restart => SelectNone(st.db.samples.rows, OfRun(device, st.db.samples.sequence));
      case _ =>
        QuietEvent(names, policies, st, e);
        QuietStepStaysSilent(st, Step(names, policies, st, e), device);
    }
  }

  /** The process started within the ids handed out so far. */
  lemma {:induction false} StepKeepsStart(names: BitNames, policies: map<string, Context.Policy>, st: State, e: Event)
    requires Inv(names, st) && st.runStart <= st.db.samples.sequence
    ensures Step(names, policies, st, e).runStart <= Step(names, policies, st, e).db.samples.sequence
  {
    match e {
      case StoreReading(r, quota) => if quota > 0 { StoreAddsSample(names, st, r, quota); }
      case PruneBefore(cutoff) => PruneTables(st.db, cutoff, PRUNE_STATEMENTS);
      case Reset => ResetStaysLinked(st.db, RESET_STATEMENTS);
      case Restart =>
      case _ => QuietEvent(names, policies, st, e);
    }
  }

  ghost predicate SparingRun(names: BitNames, policies: map<string, Context.Policy>, st: State, events: seq<Event>, device: string) {
    events != [] ==>
      var front := events[..|events| - 1];
      SparingRun(names, policies, st, front, device) && SparesFirst(Run(names, policies, st, front), events[|events| - 1], device)
  }

  /** From a process start on, as long as there is no reset and no prune takes the device's first sample: that sample was
      logged without any transition, since no mask was remembered before it. */
  lemma {:induction false} FirstSampleLogsNothing(names: BitNames, policies: map<string, Context.Policy>, st: State, events: seq<Event>, device: string)
    requires Inv(names, st) && st.runStart <= st.db.samples.sequence && StartsSilent(st, device)
    requires SparingRun(names, policies, st, events, device)
    ensures var end := Run(names, policies, st, events);
            Inv(names, end) && StartsSilent(end, device) && end.runStart <= end.db.samples.sequence
  {
    if events != [] {
      var front, last := events[..|events| - 1], events[|events| - 1];
      FirstSampleLogsNothing(names, policies, st, front, device);
      StepKeepsSilentStart(names, policies, Run(names, policies, st, front), last, device);
      StepKeepsStart(names, policies, Run(names, policies, st, front), last);
      StepKeeps(names, policies, Run(names, policies, st, front), last);
    }
  }

  lemma {:induction false} RestartIsFresh(names: BitNames, policies: map<string, Context.Policy>, st: State, device: string)
    requires Inv(names, st)
    ensures DeviceRun(Step(names, policies, st, Restart), device) == []
  {
    SelectNone(st.db.samples.rows, OfRun(device, st.db.samples.sequence));
  }

  /** Every restarted process starts that way. */
  lemma {:induction false} RestartIsSilent(names: BitNames, policies: map<string, Context.Policy>, before: seq<Event>, device: string)
    ensures var st := Run(names, policies, INITIAL, before + [Restart]);
            && Inv(names, st) && StartsSilent(st, device) && DeviceRun(st, device) == [] && st.runStart == st.db.samples.sequence
  {
    RunPush(names, policies, INITIAL, before, Restart);
    ReachableInv(names, policies, before);
    HousekeepingKeeps(names, policies, Run(names, policies, INITIAL, before), Restart);
    RestartIsFresh(names, policies, Run(names, policies, INITIAL, before), device);
  }

  /** So a process whose first sample of the device is still stored has logged nothing with it. */
  lemma {:induction false} ProcessStaysSilent(names: BitNames, policies: map<string, Context.Policy>, before: seq<Event>, since: seq<Event>, device: string)
    requires SparingRun(names, policies, Run(names, policies, INITIAL, before + [Restart]), since, device)
    ensures StartsSilent(Run(names, policies, INITIAL, before + [Restart] + since), device)
  {
    RestartIsSilent(names, policies, before, device);
    FirstSampleLogsNothing(names, policies, Run(names, policies, INITIAL, before + [Restart]), since, device);
    RunAppend(names, policies, INITIAL, before + [Restart], since);
  }

  // ---- replay ----

  function LoggedBetween(device: string, after: int, upTo: int): Row<Transition> -> bool {
    (t: Row<Transition>) => t.body.device == device && after < t.body.sampleId <= upTo
  }

  /** In a log ordered by sample, an interval splits at any sample in it. */
  lemma {:induction false} SplitLog(rows: seq<Row<Transition>>, device: string, a: int, b: int, c: int)
    requires SampleIdsAscend(rows) && a <= b <= c
    ensures Select(rows, LoggedBetween(device, a, c))
         == Select(rows, LoggedBetween(device, a, b)) + Select(rows, LoggedBetween(device, b, c))
  {
    if rows != [] {
      var front, last := rows[..|rows| - 1], rows[|rows| - 1];
      SplitLog(front, device, a, b, c);
      if last.body.sampleId <= b {
        forall t | t in front ensures !LoggedBetween(device, b, c)(t) { }
        SelectNone(front, LoggedBetween(device, b, c));
      }
    }
  }

  /** A transition of this process belongs to a sample of the device's run. */
  lemma {:induction false} SampleInRun(names: BitNames, st: State, t: Row<Transition>) returns (j: nat)
    requires Inv(names, st) && t in st.db.transitions.rows && t.body.sampleId > st.runStart
    ensures var run := DeviceRun(st, t.body.device); j < |run| && run[j].id == t.body.sampleId && run[j].ts == t.ts
  {
    assert SampleOf(st.db, t);
    var s :| s in st.db.samples.rows && s.id == t.body.sampleId && s.ts == t.ts && s.body.device == t.body.device;
    assert s in DeviceRun(st, t.body.device);
    j :| 0 <= j < |DeviceRun(st, t.body.device)| && DeviceRun(st, t.body.device)[j] == s;
  }

  lemma {:induction false} SampleDevice(names: BitNames, st: State, t: Row<Transition>, s: Row<Sample>)
    requires Inv(names, st) && t in st.db.transitions.rows && s in st.db.samples.rows && s.id == t.body.sampleId
    ensures t.body.device == s.body.device
  {
    assert SampleOf(st.db, t);
    var parent :| parent in st.db.samples.rows && parent.id == t.body.sampleId && parent.body.device == t.body.device;
    SameSample(names, st.db, parent, s);
  }

  lemma {:induction false} HopTransition(names: BitNames, st: State, device: string, k: nat, t: Row<Transition>)
    requires Inv(names, st) && 1 <= k < |DeviceRun(st, device)| && t in st.db.transitions.rows
    ensures LoggedBetween(device, DeviceRun(st, device)[k - 1].id, DeviceRun(st, device)[k].id)(t)
         == OfSample(DeviceRun(st, device)[k].id)(t)
  {
    var run := DeviceRun(st, device);
    DeviceRunIds(names, st, device);
    assert run[k] in run && run[k].body.device == device;
    if t.body.sampleId == run[k].id { SampleDevice(names, st, t, run[k]); }
    if t.body.device == device && t.body.sampleId > st.runStart {
      var j := SampleInRun(names, st, t);
      assert run[k - 1].id < run[j].id <==> k - 1 < j;
      assert run[j].id <= run[k].id <==> j <= k;
    }
  }

  /** Between two consecutive samples of the device, its log is what the later one was stored with. */
  lemma {:induction false} LogOfOneSample(names: BitNames, st: State, device: string, k: nat)
    requires Replayable(names, st, device) && 1 <= k < |DeviceRun(st, device)|
    ensures var run := DeviceRun(st, device);
            Select(st.db.transitions.rows, LoggedBetween(device, run[k - 1].id, run[k].id)) == LoggedWith(st.db, run[k].id)
  {
    var run := DeviceRun(st, device);
    forall t | t in st.db.transitions.rows
      ensures LoggedBetween(device, run[k - 1].id, run[k].id)(t) == OfSample(run[k].id)(t)
    {
      HopTransition(names, st, device, k, t);
    }
    SelectSame(st.db.transitions.rows, LoggedBetween(device, run[k - 1].id, run[k].id), OfSample(run[k].id));
  }

  /** What the device logged after its oldest stored sample, up to a later one. */
  function LogUpTo(st: State, device: string, k: nat): seq<Throttle.Change>
    requires k < |DeviceRun(st, device)|
  {
    var run := DeviceRun(st, device);
    ChangesOf(Select(st.db.transitions.rows, LoggedBetween(device, run[0].id, run[k].id)))
  }

  lemma {:induction false} EmptyLog(st: State, device: string)
    requires DeviceRun(st, device) != []
    ensures LogUpTo(st, device, 0) == []
  {
    SelectNone(st.db.transitions.rows, LoggedBetween(device, DeviceRun(st, device)[0].id, DeviceRun(st, device)[0].id));
  }

  /** Each later sample adds its difference from the one before it. */
  lemma {:induction false} LogHop(names: BitNames, st: State, device: string, k: nat)
    requires Replayable(names, st, device) && 0 < k < |DeviceRun(st, device)|
    ensures LogUpTo(st, device, k)
         == LogUpTo(st, device, k - 1) + Diff(names, MaskOf(DeviceRun(st, device)[k - 1].body), MaskOf(DeviceRun(st, device)[k].body))
  {
    var run, rows := DeviceRun(st, device), st.db.transitions.rows;
    DeviceRunIds(names, st, device);
    SplitLog(rows, device, run[0].id, run[k - 1].id, run[k].id);
    LogOfOneSample(names, st, device, k);
    ChangesOfAppend(Select(rows, LoggedBetween(device, run[0].id, run[k - 1].id)), LoggedWith(st.db, run[k].id));
    assert LoggedAt(names, st.db, run[k - 1], run[k]);
  }

  /** Two sets of flags agree on a flag. */
  predicate Agree(a: set<string>, b: set<string>, f: string) {
    f in a <==> f in b
  }

  /** One more difference: it sets right what it mentions. */
  lemma {:induction false} RecoversStep(names: BitNames, oldMask: u64, newMask: u64, flags: set<string>, f: string)
    ensures Agree(ApplyAll(flags, Diff(names, oldMask, newMask)), Known(names, newMask), f)
       <==> Mentions(Diff(names, oldMask, newMask), f) || Agree(flags, Known(names, oldMask), f)
  {
    DiffRepairs(names, oldMask, newMask, flags, f);
  }

  lemma {:induction false} RecoversHop(names: BitNames, st: State, device: string, flags: set<string>, k: nat, f: string)
    requires Replayable(names, st, device) && 0 < k < |DeviceRun(st, device)|
    ensures Agree(ApplyAll(flags, LogUpTo(st, device, k)), Known(names, MaskOf(DeviceRun(st, device)[k].body)), f)
       <==> Mentions(Diff(names, MaskOf(DeviceRun(st, device)[k - 1].body), MaskOf(DeviceRun(st, device)[k].body)), f)
            || Agree(ApplyAll(flags, LogUpTo(st, device, k - 1)), Known(names, MaskOf(DeviceRun(st, device)[k - 1].body)), f)
  {
    var older, newer := MaskOf(DeviceRun(st, device)[k - 1].body), MaskOf(DeviceRun(st, device)[k].body);
    LogHop(names, st, device, k);
    ApplyAllAppend(flags, LogUpTo(st, device, k - 1), Diff(names, older, newer));
    RecoversStep(names, older, newer, ApplyAll(flags, LogUpTo(st, device, k - 1)), f);
  }

  lemma {:induction false} MentionsHop(names: BitNames, st: State, device: string, k: nat, f: string)
    requires Replayable(names, st, device) && 0 < k < |DeviceRun(st, device)|
    ensures Mentions(LogUpTo(st, device, k), f)
       <==> Mentions(LogUpTo(st, device, k - 1), f)
            || Mentions(Diff(names, MaskOf(DeviceRun(st, device)[k - 1].body), MaskOf(DeviceRun(st, device)[k].body)), f)
  {
    LogHop(names, st, device, k);
    MentionsAppend(LogUpTo(st, device, k - 1), Diff(names, MaskOf(DeviceRun(st, device)[k - 1].body), MaskOf(DeviceRun(st, device)[k].body)), f);
  }

  ghost predicate Recovered(names: BitNames, st: State, device: string, flags: set<string>, k: nat, f: string)
    requires k < |DeviceRun(st, device)|
  {
    Agree(ApplyAll(flags, LogUpTo(st, device, k)), Known(names, MaskOf(DeviceRun(st, device)[k].body)), f)
    <==> Mentions(LogUpTo(st, device, k), f) || Agree(flags, Known(names, MaskOf(DeviceRun(st, device)[0].body)), f)
  }

  lemma {:induction false} RecoveredAtFirst(names: BitNames, st: State, device: string, flags: set<string>, f: string)
    requires DeviceRun(st, device) != []
    ensures Recovered(names, st, device, flags, 0, f)
  {
    EmptyLog(st, device);
  }

  lemma {:induction false} RecoveredHop(names: BitNames, st: State, device: string, flags: set<string>, k: nat, f: string)
    requires Replayable(names, st, device) && 0 < k < |DeviceRun(st, device)| && Recovered(names, st, device, flags, k - 1, f)
    ensures Recovered(names, st, device, flags, k, f)
  {
    RecoversHop(names, st, device, flags, k, f);
    MentionsHop(names, st, device, k, f);
  }

  lemma {:induction false} AllRecovered(names: BitNames, st: State, device: string, flags: set<string>, k: nat, f: string)
    requires k < |DeviceRun(st, device)| && Recovered(names, st, device, flags, 0, f)
    requires forall j :: 0 < j < |DeviceRun(st, device)| && Recovered(names, st, device, flags, j - 1, f) ==> Recovered(names, st, device, flags, j, f)
    ensures Recovered(names, st, device, flags, k, f)
  {
    if k > 0 { AllRecovered(names, st, device, flags, k - 1, f); }
  }

  /** Replaying over any flags, right or wrong: a flag is right at a later sample exactly when it was right at the
      oldest one or the log between them mentions it. */
  lemma {:induction false} ReplayRecovers(names: BitNames, st: State, device: string, flags: set<string>, k: nat, f: string)
    requires Replayable(names, st, device) && k < |DeviceRun(st, device)|
    ensures Agree(ApplyAll(flags, LogUpTo(st, device, k)), Known(names, MaskOf(DeviceRun(st, device)[k].body)), f)
       <==> Mentions(LogUpTo(st, device, k), f) || Agree(flags, Known(names, MaskOf(DeviceRun(st, device)[0].body)), f)
  {
    RecoveredAtFirst(names, st, device, flags, f);
    forall j | 0 < j < |DeviceRun(st, device)| && Recovered(names, st, device, flags, j - 1, f) ensures Recovered(names, st, device, flags, j, f) {
      RecoveredHop(names, st, device, flags, j, f);
    }
    AllRecovered(names, st, device, flags, k, f);
  }

  /** Starting from the known flags of the device's oldest stored sample and applying its logged transitions in order
      gives exactly the known flags of every later sample. */
  lemma {:induction false} LogReplays(names: BitNames, st: State, device: string, k: nat)
    requires Replayable(names, st, device) && k < |DeviceRun(st, device)|
    ensures ApplyAll(Known(names, MaskOf(DeviceRun(st, device)[0].body)), LogUpTo(st, device, k))
         == Known(names, MaskOf(DeviceRun(st, device)[k].body))
  {
    var oldest := Known(names, MaskOf(DeviceRun(st, device)[0].body));
    forall f ensures f in ApplyAll(oldest, LogUpTo(st, device, k)) <==> f in Known(names, MaskOf(DeviceRun(st, device)[k].body)) {
      ReplayRecovers(names, st, device, oldest, k, f);
    }
  }

  /** The same over every clean run, pruned or not: the oldest surviving sample is the baseline. */
  lemma {:induction false} RunReplays(names: BitNames, policies: map<string, Context.Policy>, events: seq<Event>, device: string, ordered: bool, k: nat)
    requires CleanRun(names, policies, events, device, ordered)
    requires k < |DeviceRun(Run(names, policies, INITIAL, events), device)|
    ensures var st := Run(names, policies, INITIAL, events);
            var run := DeviceRun(st, device);
            ApplyAll(Known(names, MaskOf(run[0].body)), LogUpTo(st, device, k)) == Known(names, MaskOf(run[k].body))
  {
    CleanRunIsLogged(names, policies, events, device, ordered);
    LogReplays(names, Run(names, policies, INITIAL, events), device, k);
  }

  lemma {:induction false} DiffFromLast(names: BitNames, st: State, r: Reading)
    requires Logged(names, st, r.device) && DeviceRun(st, r.device) != []
    ensures ChangesFor(names, st.masks, r) == Diff(names, MaskOf(DeviceRun(st, r.device)[|DeviceRun(st, r.device)| - 1].body), r.mask)
  { }

  lemma {:induction false} NewLogIsDiff(names: BitNames, st: State, r: Reading, quota: nat)
    requires ReplayInv(names, st, r.device) && DeviceRun(st, r.device) != [] && quota > 0
    ensures var d := Diff(names, MaskOf(DeviceRun(st, r.device)[|DeviceRun(st, r.device)| - 1].body), r.mask);
            && Cost(names, st, r) == 1 + |d|
            && ChangesOf(LoggedWith(Store(names, st, r, quota).db, st.db.samples.sequence + 1)) == Limit(d, quota - 1)
  {
    DiffFromLast(names, st, r);
    StoreAddsLog(names, st, r, quota);
  }

  /** A failing transition INSERT always loses a change, since the remembered mask has already moved on: the new
      sample's own log reaches its flags exactly when the quota covered the sample and every change. */
  lemma {:induction false} LostChangeIsVisible(names: BitNames, st: State, r: Reading, quota: nat)
    requires ReplayInv(names, st, r.device) && DeviceRun(st, r.device) != [] && quota > 0
    ensures var next := Store(names, st, r, quota);
            var previous := MaskOf(DeviceRun(st, r.device)[|DeviceRun(st, r.device)| - 1].body);
            ApplyAll(Known(names, previous), ChangesOf(LoggedWith(next.db, st.db.samples.sequence + 1))) == Known(names, r.mask)
            <==> quota >= Cost(names, st, r)
  {
    var previous := MaskOf(DeviceRun(st, r.device)[|DeviceRun(st, r.device)| - 1].body);
    NewLogIsDiff(names, st, r, quota);
    if quota >= Cost(names, st, r) {
      DiffReplays(names, previous, r.mask);
    } else {
      PartialDiffFallsShort(names, previous, r.mask, quota - 1);
    }
  }

  /** A process seen from one of its samples on. */
  function Since(st: State, id: nat): State
    requires id > 0
  {
    st.(runStart := id - 1)
  }

  /** However many INSERTs of a sample's transitions failed, from that sample on the log is exact again, because the
      remembered mask is the sample's own. */
  lemma {:induction false} FaultEndsWithItsSample(names: BitNames, st: State, r: Reading, quota: nat)
    requires Inv(names, st) && SampleIdsAscend(st.db.transitions.rows) && quota > 0
    ensures var after := Since(Store(names, st, r, quota), st.db.samples.sequence + 1);
            ReplayInv(names, after, r.device) && DeviceRun(after, r.device) == [NewSample(names, st, r)]
  {
    var next := Store(names, st, r, quota);
    var after := Since(next, st.db.samples.sequence + 1);
    StoreKeeps(names, st, r, quota);
    StoreAddsSample(names, st, r, quota);
    StoreKeepsSampleOrder(names, st, r, quota);
    SelectNone(st.db.samples.rows, OfRun(r.device, st.db.samples.sequence));
    SelectPush(st.db.samples.rows, NewSample(names, st, r), OfRun(r.device, st.db.samples.sequence));
    assert DeviceRun(after, r.device) == [NewSample(names, st, r)];
    forall l | l in after.lookups ensures LookupValid(after, l) { assert LookupValid(next, l); }
  }

  /** So what a failing INSERT loses stays wrong in a replay until the log mentions the flag again, and is right from
      then on, over every clean continuation: whatever flags a replay has at the faulty sample, or at the oldest one
      a later prune leaves. */
  lemma {:induction false} LostUntilLoggedAgain(names: BitNames, policies: map<string, Context.Policy>, st: State, r: Reading, quota: nat,
                               events: seq<Event>, ordered: bool, flags: set<string>, k: nat, f: string)
    requires Inv(names, st) && SampleIdsAscend(st.db.transitions.rows) && quota > 0
    requires CleanFrom(names, policies, Since(Store(names, st, r, quota), st.db.samples.sequence + 1), events, r.device, ordered)
    requires k < |DeviceRun(Run(names, policies, Since(Store(names, st, r, quota), st.db.samples.sequence + 1), events), r.device)|
    ensures var end := Run(names, policies, Since(Store(names, st, r, quota), st.db.samples.sequence + 1), events);
            var run, log := DeviceRun(end, r.device), LogUpTo(end, r.device, k);
            Agree(ApplyAll(flags, log), Known(names, MaskOf(run[k].body)), f)
            <==> Mentions(log, f) || Agree(flags, Known(names, MaskOf(run[0].body)), f)
  {
    var after := Since(Store(names, st, r, quota), st.db.samples.sequence + 1);
    FaultEndsWithItsSample(names, st, r, quota);
    CleanFromKeepsLog(names, policies, after, events, r.device, ordered);
    ReplayRecovers(names, Run(names, policies, after, events), r.device, flags, k, f);
  }
}

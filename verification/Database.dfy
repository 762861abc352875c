/** The telemetry database: nine AUTOINCREMENT tables, their foreign keys, the statements that change them and the
    queries every reader is built from. */
module Database {
  import opened Rows
  import opened Throttle

  /** The scalar JSON values a context transition stores. */
  datatype Json = Null | Number(n: real) | Text(s: string) | Boolean(b: bool)

  /** `status` is the throttle mask as the signed column holds it; the time column is the row's. */
  datatype Sample = Sample(
    device: string, deviceName: string, raw: Option<int>, status: int, flags: seq<string>,
    apuPower: Option<u32>, temperature: Option<real>)

  datatype Transition = Transition(sampleId: int, device: string, flag: string, oldValue: bool, newValue: bool)

  /** A row of `journal_events` or of `context_journal_events`. */
  datatype JournalEvent = JournalEvent(transitionId: int, message: string)

  datatype SnapshotRow = SnapshotRow(source: string, health: string)

  datatype ValueRow = ValueRow(snapshotId: int, source: string, key: string, num: Option<real>, str: Option<string>)

  datatype ContextTransition = ContextTransition(snapshotId: int, source: string, key: string, oldValue: Json, newValue: Json)

  datatype Marker = Marker(name: string, detail: Option<string>)

  /** `sequence` is the table's entry in sqlite_sequence: the largest id ever handed out. */
  datatype Table<T> = Table(rows: seq<Row<T>>, sequence: nat)

  datatype Db = Db(
    samples: Table<Sample>, transitions: Table<Transition>, journal: Table<JournalEvent>,
    snapshots: Table<SnapshotRow>, values: Table<ValueRow>, contextTransitions: Table<ContextTransition>,
    contextJournal: Table<JournalEvent>, systemInfo: Table<string>, markers: Table<Marker>)

  const EMPTY_DB := Db(Table([], 0), Table([], 0), Table([], 0), Table([], 0), Table([], 0), Table([], 0),
                      Table([], 0), Table([], 0), Table([], 0))

  // ---- INSERT ----

  /** The new row's id is `sequence + 1`; deleting rows never lowers it. */
  function Insert<T>(t: Table<T>, ts: int, body: T): Table<T> {
    Table(t.rows + [Row(t.sequence + 1, ts, body)], t.sequence + 1)
  }

  predicate HasId<T(==)>(t: Table<T>, id: int) {
    exists r :: r in t.rows && r.id == id
  }

  /** Inserting into a child table is refused when the parent row is missing. */
  function InsertTransition(db: Db, ts: int, t: Transition): Option<Db> {
    if HasId(db.samples, t.sampleId) then Some(db.(transitions := Insert(db.transitions, ts, t))) else None
  }

  function InsertJournalEvent(db: Db, ts: int, e: JournalEvent): Option<Db> {
    if HasId(db.transitions, e.transitionId) then Some(db.(journal := Insert(db.journal, ts, e))) else None
  }

  function InsertContextValue(db: Db, ts: int, v: ValueRow): Option<Db> {
    if HasId(db.snapshots, v.snapshotId) then Some(db.(values := Insert(db.values, ts, v))) else None
  }

  function InsertContextTransition(db: Db, ts: int, t: ContextTransition): Option<Db> {
    if HasId(db.snapshots, t.snapshotId) then Some(db.(contextTransitions := Insert(db.contextTransitions, ts, t))) else None
  }

  function InsertContextJournalEvent(db: Db, ts: int, e: JournalEvent): Option<Db> {
    if HasId(db.contextTransitions, e.transitionId) then Some(db.(contextJournal := Insert(db.contextJournal, ts, e))) else None
  }

  // ---- the declared foreign keys ----

  /** No child row refers to a missing parent. */
  predicate Integrity(db: Db) {
    && (forall r :: r in db.transitions.rows ==> HasId(db.samples, r.body.sampleId))
    && (forall r :: r in db.journal.rows ==> HasId(db.transitions, r.body.transitionId))
    && (forall r :: r in db.values.rows ==> HasId(db.snapshots, r.body.snapshotId))
    && (forall r :: r in db.contextTransitions.rows ==> HasId(db.snapshots, r.body.snapshotId))
    && (forall r :: r in db.contextJournal.rows ==> HasId(db.contextTransitions, r.body.transitionId))
  }

  // ---- DELETE ----

  function Delete<T>(t: Table<T>, drop: Row<T> -> bool): Table<T> {
    Table(Select(t.rows, Not(drop)), t.sequence)
  }

  function OlderThan<T>(cutoff: int): Row<T> -> bool {
    (r: Row<T>) => r.ts < cutoff
  }

  /** `SELECT id FROM t WHERE ts_unix_ms < cutoff`. */
  function OldIds<T(==)>(t: Table<T>, cutoff: int): set<int> {
    set r | r in t.rows && r.ts < cutoff :: r.id
  }

  function ChildOf(parents: set<int>): Row<JournalEvent> -> bool {
    (e: Row<JournalEvent>) => e.body.transitionId in parents
  }

  /** The newest system inventory is kept however old it is. */
  function OutdatedInfo(infos: seq<Row<string>>, cutoff: int): Row<string> -> bool {
    (r: Row<string>) => r.ts < cutoff && exists other :: other in infos && r.ts < other.ts
  }

  const PRUNE_STATEMENTS := 9

  /** The k-th DELETE of `prune_older_than`. */
  function PruneStatement(db: Db, cutoff: int, k: nat): Db
    requires k < PRUNE_STATEMENTS
  {
    match k
    case 0 => db.(journal := Delete(db.journal, ChildOf(OldIds(db.transitions, cutoff))))
    case 1 => db.(contextJournal := Delete(db.contextJournal, ChildOf(OldIds(db.contextTransitions, cutoff))))
    case 2 => db.(transitions := Delete(db.transitions, OlderThan(cutoff)))
    case 3 => db.(contextTransitions := Delete(db.contextTransitions, OlderThan(cutoff)))
    case 4 => db.(values := Delete(db.values, OlderThan(cutoff)))
    case 5 => db.(snapshots := Delete(db.snapshots, OlderThan(cutoff)))
    case 6 => db.(samples := Delete(db.samples, OlderThan(cutoff)))
    case 7 => db.(markers := Delete(db.markers, OlderThan(cutoff)))
    case _ => db.(systemInfo := Delete(db.systemInfo, OutdatedInfo(db.systemInfo.rows, cutoff)))
  }

  /** The database inside the transaction after the first k statements. */
  function PruneUpTo(db: Db, cutoff: int, k: nat): Db
    requires k <= PRUNE_STATEMENTS
  {
    if k == 0 then db else PruneStatement(PruneUpTo(db, cutoff, k - 1), cutoff, k - 1)
  }

  function Prune(db: Db, cutoff: int): Db {
    PruneUpTo(db, cutoff, PRUNE_STATEMENTS)
  }

  const RESET_STATEMENTS := 10

  function Cleared<T>(t: Table<T>): Table<T> {
    Table([], t.sequence)
  }

  /** The k-th statement of `reset_data_collection`; the last one clears sqlite_sequence, so ids start over. */
  function ResetStatement(db: Db, k: nat): Db
    requires k < RESET_STATEMENTS
  {
    match k
    case 0 => db.(journal := Cleared(db.journal))
    case 1 => db.(contextJournal := Cleared(db.contextJournal))
    case 2 => db.(transitions := Cleared(db.transitions))
    case 3 => db.(values := Cleared(db.values))
    case 4 => db.(contextTransitions := Cleared(db.contextTransitions))
    case 5 => db.(snapshots := Cleared(db.snapshots))
    case 6 => db.(samples := Cleared(db.samples))
    case 7 => db.(systemInfo := Cleared(db.systemInfo))
    case 8 => db.(markers := Cleared(db.markers))
    case _ => Db(db.samples.(sequence := 0), db.transitions.(sequence := 0), db.journal.(sequence := 0),
                 db.snapshots.(sequence := 0), db.values.(sequence := 0), db.contextTransitions.(sequence := 0),
                 db.contextJournal.(sequence := 0), db.systemInfo.(sequence := 0), db.markers.(sequence := 0))
  }

  function ResetUpTo(db: Db, k: nat): Db
    requires k <= RESET_STATEMENTS
  {
    if k == 0 then db else ResetStatement(ResetUpTo(db, k - 1), k - 1)
  }

  // ---- queries ----

  predicate Matches(filter: Option<string>, device: string) {
    filter.None? || filter.value == device
  }

  function InWindow<T>(from: int, to: int): Row<T> -> bool {
    (r: Row<T>) => from <= r.ts <= to
  }

  function SampleIn(from: int, to: int, device: Option<string>): Row<Sample> -> bool {
    (r: Row<Sample>) => from <= r.ts <= to && Matches(device, r.body.device)
  }

  function TransitionIn(from: int, to: int, device: Option<string>): Row<Transition> -> bool {
    (r: Row<Transition>) => from <= r.ts <= to && Matches(device, r.body.device)
  }

  /** `LIMIT n` for a non-negative n. */
  function Limit<T>(s: seq<T>, n: nat): seq<T> {
    if |s| <= n then s else s[..n]
  }

  /** The throttle mask of a listed sample: the cast back in `row_to_metric_sample`. */
  function MaskOf(s: Sample): u64 {
    AsU64(s.status)
  }

  function ListSamples(db: Db, from: int, to: int, device: Option<string>): seq<Row<Sample>> {
    SortByTs(Select(db.samples.rows, SampleIn(from, to, device)))
  }

  /** Oldest first, so a limit keeps the earliest transitions. */
  function ListTransitions(db: Db, from: int, to: int, limit: nat, device: Option<string>): seq<Row<Transition>> {
    Limit(SortByTs(Select(db.transitions.rows, TransitionIn(from, to, device))), limit)
  }

  function ListContextTransitions(db: Db, from: int, to: int, limit: nat): seq<Row<ContextTransition>> {
    Limit(SortByTs(Select(db.contextTransitions.rows, InWindow(from, to))), limit)
  }

  function ListContextValues(db: Db, from: int, to: int): seq<Row<ValueRow>> {
    SortByTs(Select(db.values.rows, InWindow(from, to)))
  }

  function ListContextSnapshots(db: Db, from: int, to: int): seq<Row<SnapshotRow>> {
    SortByTs(Select(db.snapshots.rows, InWindow(from, to)))
  }

  /** `ORDER BY collected_at_ms DESC, id DESC LIMIT 1`. */
  function LatestSystemInfo(db: Db): Option<Row<string>> {
    Latest(db.systemInfo.rows)
  }

  function CountTransitions(db: Db, from: int, to: int, device: Option<string>): nat {
    |Select(db.transitions.rows, TransitionIn(from, to, device))|
  }

  function CountContextTransitions(db: Db, from: int, to: int): nat {
    |Select(db.contextTransitions.rows, InWindow(from, to))|
  }

  lemma {:induction false} Listing<T(!new)>(rows: seq<Row<T>>, p: Row<T> -> bool, q: Row<T> -> bool)
    requires forall r :: r in rows ==> p(r) == q(r)
    ensures var listing := SortByTs(Select(rows, p));
            TsAscend(listing) && |listing| == Count(rows, q) && forall r :: r in listing <==> r in rows && q(r)
  {
    SortSorts(Select(rows, p));
    SameMembers(SortByTs(Select(rows, p)), Select(rows, p));
    CountsSame(rows, p, q);
  }

  lemma {:induction false} LimitMeaning<T>(s: seq<T>, n: nat)
    ensures |Limit(s, n)| == (if |s| <= n then |s| else n) && forall i :: 0 <= i < |Limit(s, n)| ==> Limit(s, n)[i] == s[i]
  { }

  lemma {:induction false} LimitedListing<T(!new)>(rows: seq<Row<T>>, p: Row<T> -> bool, q: Row<T> -> bool, limit: nat)
    requires forall r :: r in rows ==> p(r) == q(r)
    ensures var listing, n := Limit(SortByTs(Select(rows, p)), limit), Count(rows, q);
            && TsAscend(listing) && |listing| == (if n <= limit then n else limit) && |Select(rows, p)| == n
            && (forall r :: r in listing ==> r in rows && q(r))
            && (n <= limit ==> forall r :: r in rows && q(r) ==> r in listing)
  {
    Listing(rows, p, q);
    var all, listing := SortByTs(Select(rows, p)), Limit(SortByTs(Select(rows, p)), limit);
    LimitMeaning(all, limit);
    forall r | r in listing ensures r in all { }
  }

  ghost function SampleWithin(from: int, to: int, device: Option<string>): Row<Sample> -> bool {
    (s: Row<Sample>) => from <= s.ts && s.ts <= to && (device.Some? ==> s.body.device == device.value)
  }

  ghost function TransitionWithin(from: int, to: int, device: Option<string>): Row<Transition> -> bool {
    (t: Row<Transition>) => from <= t.ts && t.ts <= to && (device.Some? ==> t.body.device == device.value)
  }

  ghost function Within<T>(from: int, to: int): Row<T> -> bool {
    (r: Row<T>) => from <= r.ts && r.ts <= to
  }

  /** A sample listing holds the samples from the first to the last millisecond, of the one device if one is named,
      each once and oldest first. */
  lemma {:induction false} ListSamplesMeaning(db: Db, from: int, to: int, device: Option<string>)
    ensures var listing := ListSamples(db, from, to, device);
            && TsAscend(listing) && |listing| == Count(db.samples.rows, SampleWithin(from, to, device))
            && forall s :: s in listing <==> s in db.samples.rows && from <= s.ts <= to && (device.Some? ==> s.body.device == device.value)
  {
    Listing(db.samples.rows, SampleIn(from, to, device), SampleWithin(from, to, device));
  }

  /** A transition listing holds those of the window, up to the limit. */
  lemma {:induction false} ListTransitionsMeaning(db: Db, from: int, to: int, limit: nat, device: Option<string>)
    ensures var listing, n := ListTransitions(db, from, to, limit, device), Count(db.transitions.rows, TransitionWithin(from, to, device));
            && TsAscend(listing) && |listing| == (if n <= limit then n else limit)
            && (forall t :: t in listing ==> t in db.transitions.rows && from <= t.ts <= to && (device.Some? ==> t.body.device == device.value))
            && (n <= limit ==> forall t :: t in db.transitions.rows && from <= t.ts <= to && (device.Some? ==> t.body.device == device.value)
                                 ==> t in listing)
            && CountTransitions(db, from, to, device) == n
  {
    LimitedListing(db.transitions.rows, TransitionIn(from, to, device), TransitionWithin(from, to, device), limit);
  }

  lemma {:induction false} ListContextTransitionsMeaning(db: Db, from: int, to: int, limit: nat)
    ensures var listing, n := ListContextTransitions(db, from, to, limit), Count(db.contextTransitions.rows, Within(from, to));
            && TsAscend(listing) && |listing| == (if n <= limit then n else limit)
            && (forall t :: t in listing ==> t in db.contextTransitions.rows && from <= t.ts <= to)
            && (n <= limit ==> forall t :: t in db.contextTransitions.rows && from <= t.ts <= to ==> t in listing)
            && CountContextTransitions(db, from, to) == n
  {
    LimitedListing(db.contextTransitions.rows, InWindow(from, to), Within(from, to), limit);
  }

  lemma {:induction false} ListContextValuesMeaning(db: Db, from: int, to: int)
    ensures var listing := ListContextValues(db, from, to);
            && TsAscend(listing) && |listing| == Count(db.values.rows, Within(from, to))
            && forall v :: v in listing <==> v in db.values.rows && from <= v.ts <= to
  {
    Listing(db.values.rows, InWindow(from, to), Within(from, to));
  }

  lemma {:induction false} ListContextSnapshotsMeaning(db: Db, from: int, to: int)
    ensures var listing := ListContextSnapshots(db, from, to);
            && TsAscend(listing) && |listing| == Count(db.snapshots.rows, Within(from, to))
            && forall s :: s in listing <==> s in db.snapshots.rows && from <= s.ts <= to
  {
    Listing(db.snapshots.rows, InWindow(from, to), Within(from, to));
  }

  /** The latest inventory: none older is kept apart, and of equal times the one inserted last. */
  lemma {:induction false} LatestSystemInfoMeaning(db: Db)
    ensures LatestSystemInfo(db).None? <==> db.systemInfo.rows == []
    ensures LatestSystemInfo(db).Some? ==> exists i :: 0 <= i < |db.systemInfo.rows| && NewestAt(db.systemInfo.rows, i)
                                                       && LatestSystemInfo(db).value == db.systemInfo.rows[i]
  {
    if db.systemInfo.rows != [] {
      var i := LatestAt(db.systemInfo.rows);
    }
  }

  function Ids<T>(rows: seq<Row<T>>): (ids: seq<int>)
    ensures |ids| == |rows| && forall i :: 0 <= i < |rows| ==> ids[i] == rows[i].id
  {
    seq(|rows|, i requires 0 <= i < |rows| => rows[i].id)
  }

  // ---- time bounds ----

  function MinTs<T>(rows: seq<Row<T>>): Option<int> {
    if rows == [] then None else
    var least, ts := MinTs(rows[..|rows| - 1]), rows[|rows| - 1].ts;
    if least.None? || ts < least.value then Some(ts) else least
  }

  function MaxTs<T>(rows: seq<Row<T>>): Option<int> {
    if rows == [] then None else
    var greatest, ts := MaxTs(rows[..|rows| - 1]), rows[|rows| - 1].ts;
    if greatest.None? || ts > greatest.value then Some(ts) else greatest
  }

  function Lesser(a: Option<int>, b: Option<int>): Option<int> {
    if a.None? then b else if b.None? || a.value <= b.value then a else b
  }

  function Greater(a: Option<int>, b: Option<int>): Option<int> {
    if a.None? then b else if b.None? || a.value >= b.value then a else b
  }

  datatype TimeBounds = TimeBounds(min: Option<int>, max: Option<int>, sampleCount: nat)

  function Bounds(db: Db): TimeBounds {
    TimeBounds(Lesser(MinTs(db.samples.rows), MinTs(db.snapshots.rows)), Greater(MaxTs(db.samples.rows), MaxTs(db.snapshots.rows)),
               |db.samples.rows|)
  }

  /** `assert_not_collecting`: the newest sample or snapshot is at least `quietMs` old. */
  predicate Quiet(db: Db, now: int, quietMs: int) {
    Bounds(db).max.None? || now - Bounds(db).max.value >= quietMs
  }

  const QUIET_MS := 5_000
}

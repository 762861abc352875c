/** The bundles handed to analysis and written to disk, with their limits and truncation. */
module Export {
  import opened Rows
  import opened Database
  import opened Journal
  import opened Summaries
  import opened WindowSummaries

  const MAX_EXPORT_WINDOW_MS := 7 * 24 * 60 * 60 * 1000
  const MAX_EXPORT_SAMPLES: nat := 500_000
  const EXPORT_TRANSITION_LIMIT: nat := 100_000

  datatype ExportWarning = ThrottleTruncated(total: nat) | ContextTruncated(total: nat)

  datatype ExportError = Inverted | WindowTooLong | TooManySamples(count: nat)

  datatype Bundled = Bundled(bundle: Bundle) | Refused(error: ExportError)

  datatype Bundle = Bundle(
    from: int, to: int, device: Option<string>, devices: set<(string, string)>,
    samples: seq<Row<Sample>>, transitions: seq<Row<Transition>>, journal: seq<Row<JournalEvent>>,
    snapshots: seq<Row<SnapshotRow>>, values: seq<Row<ValueRow>>, contextTransitions: seq<Row<ContextTransition>>,
    contextJournal: seq<Row<JournalEvent>>, system: Option<Row<string>>, summary: Option<Summary>, warnings: seq<ExportWarning>)

  function CountSamples(db: Db, from: int, to: int, device: Option<string>): nat {
    |Select(db.samples.rows, SampleIn(from, to, device))|
  }

  /** DISTINCT device_pci, device_name over the whole table. */
  function Devices(db: Db): set<(string, string)> {
    set s | s in db.samples.rows :: (s.body.device, s.body.deviceName)
  }

  /** The rows both bundles hold. `summaryOk` is whether the summary query succeeded: its error is dropped. */
  function Contents(db: Db, from: int, to: int, device: Option<string>, summaryOk: bool): Bundle {
    var transitions := ListTransitions(db, from, to, EXPORT_TRANSITION_LIMIT, device);
    var contextTransitions := ListContextTransitions(db, from, to, EXPORT_TRANSITION_LIMIT);
    Bundle(from, to, device, {}, ListSamples(db, from, to, device),
           transitions, EventsFor(db.journal.rows, Ids(transitions)),
           [], ListContextValues(db, from, to),
           contextTransitions, EventsFor(db.contextJournal.rows, Ids(contextTransitions)),
           LatestSystemInfo(db), if summaryOk then Some(SqlSummary(db, from, to, device)) else None, [])
  }

  /** The checks before a bundle is built. */
  function Refusal(from: int, to: int, count: nat, enforceWebLimits: bool): Option<ExportError> {
    if from > to then Some(Inverted)
    else if enforceWebLimits && to - from > MAX_EXPORT_WINDOW_MS then Some(WindowTooLong)
    else if enforceWebLimits && count > MAX_EXPORT_SAMPLES then Some(TooManySamples(count))
    else None
  }

  /** `build_analysis_bundle`. */
  function BuildAnalysisBundle(db: Db, from: int, to: int, device: Option<string>, summaryOk: bool): Bundled {
    var refusal := Refusal(from, to, CountSamples(db, from, to, device), true);
    if refusal.Some? then Refused(refusal.value) else Bundled(Contents(db, from, to, device, summaryOk))
  }

  function TruncationWarnings(throttleTotal: nat, contextTotal: nat): seq<ExportWarning> {
    (if throttleTotal > EXPORT_TRANSITION_LIMIT then [ThrottleTruncated(throttleTotal)] else [])
    + (if contextTotal > EXPORT_TRANSITION_LIMIT then [ContextTruncated(contextTotal)] else [])
  }

  /** `build_export_bundle`. */
  function BuildExportBundle(db: Db, from: int, to: int, device: Option<string>, enforceWebLimits: bool, summaryOk: bool): Bundled {
    var refusal := Refusal(from, to, CountSamples(db, from, to, device), enforceWebLimits);
    if refusal.Some? then Refused(refusal.value)
    else
      var throttleTotal, contextTotal := Database.CountTransitions(db, from, to, device), CountContextTransitions(db, from, to);
      Bundled(Contents(db, from, to, device, summaryOk).(
        devices := Devices(db),
        snapshots := ListContextSnapshots(db, from, to),
        warnings := TruncationWarnings(throttleTotal, contextTotal)))
  }

  /** Refused are an inverted window and, with the limits on, one of more than a week or of over half a million samples. */
  lemma {:induction false} RefusalMeaning(from: int, to: int, n: nat, enforceWebLimits: bool)
    ensures var r := Refusal(from, to, n, enforceWebLimits);
            && (r == Some(Inverted) <==> from > to)
            && (r == Some(WindowTooLong) <==> enforceWebLimits && from <= to && to - from > 604_800_000)
            && (r == Some(TooManySamples(n)) <==> enforceWebLimits && 0 <= to - from <= 604_800_000 && n > 500_000)
            && (r.None? <==> from <= to && (enforceWebLimits ==> to - from <= 604_800_000 && n <= 500_000))
  { }

  /** An analysis is refused so, with the limits on; n is the number of stored samples of the window and device. */
  lemma {:induction false} AnalysisRefusal(db: Db, from: int, to: int, device: Option<string>, summaryOk: bool, n: nat)
    requires n == Count(db.samples.rows, SampleWithin(from, to, device))
    ensures var r, refusal := BuildAnalysisBundle(db, from, to, device, summaryOk), Refusal(from, to, n, true);
            (r.Bundled? <==> refusal.None?) && (refusal.Some? ==> r == Refused(refusal.value))
  {
    CountsSame(db.samples.rows, SampleIn(from, to, device), SampleWithin(from, to, device));
  }

  /** So is an export, with the limits as they are set. */
  lemma {:induction false} ExportRefusal(db: Db, from: int, to: int, device: Option<string>, enforceWebLimits: bool, summaryOk: bool, n: nat)
    requires n == Count(db.samples.rows, SampleWithin(from, to, device))
    ensures var r, refusal := BuildExportBundle(db, from, to, device, enforceWebLimits, summaryOk), Refusal(from, to, n, enforceWebLimits);
            (r.Bundled? <==> refusal.None?) && (refusal.Some? ==> r == Refused(refusal.value))
  {
    CountsSame(db.samples.rows, SampleIn(from, to, device), SampleWithin(from, to, device));
  }

  /** What both bundles hold: the listings of the window, transition lists of at most 100 000, the journal events of what
      was listed, and the newest inventory. */
  lemma {:induction false} ContentsAre(db: Db, from: int, to: int, device: Option<string>, summaryOk: bool)
    ensures var b := Contents(db, from, to, device, summaryOk);
            && b.from == from && b.to == to && b.device == device && b.devices == {} && b.snapshots == [] && b.warnings == []
            && b.samples == ListSamples(db, from, to, device)
            && b.values == ListContextValues(db, from, to)
            && b.transitions == ListTransitions(db, from, to, 100_000, device)
            && b.contextTransitions == ListContextTransitions(db, from, to, 100_000)
            && b.system == LatestSystemInfo(db)
            && b.summary == if summaryOk then Some(SqlSummary(db, from, to, device)) else None
  { }

  /** The events in a bundle are those of its transitions. */
  lemma {:induction false} ContentsEvents(db: Db, from: int, to: int, device: Option<string>, summaryOk: bool)
    requires IdsAscend(db.journal.rows) && IdsAscend(db.contextJournal.rows)
    requires IdsAscend(db.transitions.rows) && IdsAscend(db.contextTransitions.rows)
    ensures var b := Contents(db, from, to, device, summaryOk);
            && TsAscend(b.journal) && TsAscend(b.contextJournal)
            && (forall e :: multiset(b.journal)[e] == if e in db.journal.rows && ListsId(b.transitions, e.body.transitionId) then 1 else 0)
            && (forall e :: multiset(b.contextJournal)[e]
                            == if e in db.contextJournal.rows && ListsId(b.contextTransitions, e.body.transitionId) then 1 else 0)
  {
    var b := Contents(db, from, to, device, summaryOk);
    LimitIsDistinct(db.transitions.rows, TransitionIn(from, to, device), EXPORT_TRANSITION_LIMIT);
    LimitIsDistinct(db.contextTransitions.rows, InWindow(from, to), EXPORT_TRANSITION_LIMIT);
    EventsForMeaning(db.journal.rows, Ids(b.transitions));
    EventsForMeaning(db.contextJournal.rows, Ids(b.contextTransitions));
    forall e ensures multiset(b.journal)[e] == if e in db.journal.rows && ListsId(b.transitions, e.body.transitionId) then 1 else 0 {
      EventsForListing(db.journal.rows, b.transitions, e);
    }
    forall e ensures multiset(b.contextJournal)[e]
                     == if e in db.contextJournal.rows && ListsId(b.contextTransitions, e.body.transitionId) then 1 else 0 {
      EventsForListing(db.contextJournal.rows, b.contextTransitions, e);
    }
  }

  lemma {:induction false} LimitIsDistinct<T>(rows: seq<Row<T>>, p: Row<T> -> bool, limit: nat)
    requires IdsAscend(rows)
    ensures DistinctIds(Limit(SortByTs(Select(rows, p)), limit))
  {
    ListingIsDistinct(rows, p);
  }

  lemma {:induction false} DevicesMeaning(db: Db, pci: string, name: string)
    ensures (pci, name) in Devices(db) <==> exists s :: s in db.samples.rows && s.body.device == pci && s.body.deviceName == name
  { }

  /** What an export adds: the devices, the snapshots, and the totals of the lists that were cut. */
  lemma {:induction false} ExportAdds(db: Db, from: int, to: int, device: Option<string>, b: Bundle, enforceWebLimits: bool, summaryOk: bool)
    requires BuildExportBundle(db, from, to, device, enforceWebLimits, summaryOk) == Bundled(b)
    ensures b.snapshots == ListContextSnapshots(db, from, to) && b.devices == Devices(db)
    ensures b.warnings == TruncationWarnings(Database.CountTransitions(db, from, to, device), CountContextTransitions(db, from, to))
  { }

  /** Each list of more than 100 000 is reported with its total. */
  lemma {:induction false} TruncationReported(n: nat, m: nat)
    ensures TruncationWarnings(n, m) == if n > 100_000 && m > 100_000 then [ThrottleTruncated(n), ContextTruncated(m)]
                                        else if n > 100_000 then [ThrottleTruncated(n)]
                                        else if m > 100_000 then [ContextTruncated(m)]
                                        else []
  { }

  /** Both transition lists of the window fit the limit. */
  predicate Untruncated(db: Db, from: int, to: int, device: Option<string>) {
    && Database.CountTransitions(db, from, to, device) <= EXPORT_TRANSITION_LIMIT
    && CountContextTransitions(db, from, to) <= EXPORT_TRANSITION_LIMIT
  }

  /** An export warns exactly when it is truncated. */
  lemma {:induction false} WarnedIsTruncated(db: Db, from: int, to: int, device: Option<string>, enforceWebLimits: bool, summaryOk: bool)
    requires BuildExportBundle(db, from, to, device, enforceWebLimits, summaryOk).Bundled?
    ensures BuildExportBundle(db, from, to, device, enforceWebLimits, summaryOk).bundle.warnings == [] <==> Untruncated(db, from, to, device)
  { }

  lemma {:induction false} UntruncatedLists(db: Db, from: int, to: int, device: Option<string>)
    requires Untruncated(db, from, to, device)
    ensures ListTransitions(db, from, to, EXPORT_TRANSITION_LIMIT, device) == SortByTs(Select(db.transitions.rows, TransitionIn(from, to, device)))
    ensures ListContextTransitions(db, from, to, EXPORT_TRANSITION_LIMIT) == SortByTs(Select(db.contextTransitions.rows, InWindow(from, to)))
  {
    LimitNotReached(SortByTs(Select(db.transitions.rows, TransitionIn(from, to, device))), EXPORT_TRANSITION_LIMIT);
    LimitNotReached(SortByTs(Select(db.contextTransitions.rows, InWindow(from, to))), EXPORT_TRANSITION_LIMIT);
  }

  /** An export is the common contents, its device list, snapshots and warnings. */
  lemma {:induction false} ExportParts(db: Db, from: int, to: int, device: Option<string>, b: Bundle, enforceWebLimits: bool, summaryOk: bool)
    requires BuildExportBundle(db, from, to, device, enforceWebLimits, summaryOk) == Bundled(b)
    ensures b == Contents(db, from, to, device, summaryOk).(devices := b.devices, snapshots := b.snapshots, warnings := b.warnings)
    ensures b.snapshots == ListContextSnapshots(db, from, to)
  { }

  lemma {:induction false} Remainder<T>(s: seq<T>, k: nat)
    requires k <= |s|
    ensures multiset(s) == multiset(s[..k]) + multiset(s[k..])
  {
    assert s == s[..k] + s[k..];
  }

  lemma {:induction false} LaterIsNoEarlier<T>(sorted: seq<Row<T>>, k: nat, i: nat, t: Row<T>)
    requires TsAscend(sorted) && i < k <= |sorted| && t in sorted[k..]
    ensures sorted[i].ts <= t.ts
  {
    var j :| 0 <= j < |sorted[k..]| && sorted[k..][j] == t;
    assert sorted[k + j] == t;
  }

  /** The rows a limit leaves out of an ordered list come no earlier than the ones it keeps. */
  lemma {:induction false} PrefixIsEarliest<T>(all: multiset<Row<T>>, sorted: seq<Row<T>>, limit: nat)
    requires multiset(sorted) == all && TsAscend(sorted)
    ensures TsAscend(Limit(sorted, limit)) && multiset(Limit(sorted, limit)) <= all
    ensures forall t, i :: t in all - multiset(Limit(sorted, limit)) && 0 <= i < |Limit(sorted, limit)| ==> sorted[i].ts <= t.ts
  {
    if limit < |sorted| {
      Remainder(sorted, limit);
      forall t, i | t in all - multiset(Limit(sorted, limit)) && 0 <= i < limit ensures sorted[i].ts <= t.ts {
        assert t in multiset(sorted[limit..]);
        LaterIsNoEarlier(sorted, limit, i, t);
      }
    }
  }

  /** A truncated list is the earliest transitions: whatever was left out is no older than anything kept. */
  lemma {:induction false} TruncationKeepsEarliest(db: Db, from: int, to: int, limit: nat, device: Option<string>)
    ensures var kept, all := ListTransitions(db, from, to, limit, device), Select(db.transitions.rows, TransitionIn(from, to, device));
            && |kept| == (if |all| <= limit then |all| else limit)
            && TsAscend(kept) && multiset(kept) <= multiset(all)
            && forall t, i :: t in multiset(all) - multiset(kept) && 0 <= i < |kept| ==> kept[i].ts <= t.ts
  {
    var all := Select(db.transitions.rows, TransitionIn(from, to, device));
    SortSorts(all);
    PrefixIsEarliest(multiset(all), SortByTs(all), limit);
  }
}

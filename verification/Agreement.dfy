/** Analysing part of an export gives the report of a bundle built for that part. */
module Agreement {
  import opened Rows
  import opened Throttle
  import opened Database
  import opened Journal
  import opened Summaries
  import opened WindowSummaries
  import opened Export
  import opened Analysis

  /** Cutting an ordered listing down to a part of it is listing that part. */
  lemma {:induction false} SelectFromListing<T>(rows: seq<Row<T>>, outer: Row<T> -> bool, from: int, to: int, rest: Row<T> -> bool, inner: Row<T> -> bool)
    requires forall r :: r in rows ==> inner(r) == (outer(r) && from <= r.ts <= to && rest(r))
    ensures Select(Select(SortByTs(Select(rows, outer)), InWindow(from, to)), rest) == SortByTs(Select(rows, inner))
  {
    var window := InWindow<T>(from, to);
    var both := (r: Row<T>) => outer(r) && window(r);
    SelectTwice(rows, outer, window, both);
    SelectTwice(rows, both, rest, inner);
    SelectSort(Select(rows, outer), window);
    SelectSort(Select(rows, both), rest);
  }

  /** The same where nothing but the window narrows. */
  lemma {:induction false} SelectWindow<T>(rows: seq<Row<T>>, from: int, to: int, from': int, to': int)
    requires from <= from' && to' <= to
    ensures Select(SortByTs(Select(rows, InWindow(from, to))), InWindow(from', to')) == SortByTs(Select(rows, InWindow(from', to')))
  {
    SelectSort(Select(rows, InWindow(from, to)), InWindow(from', to'));
    SelectTwice(rows, InWindow(from, to), InWindow(from', to'), InWindow(from', to'));
  }

  // ---- bundles of a store ----

  /** The bundle holds what its own window and device filter select from the store, untruncated. */
  ghost predicate Faithful(db: Db, b: Bundle) {
    && b.samples == ListSamples(db, b.from, b.to, b.device)
    && b.transitions == SortByTs(Select(db.transitions.rows, TransitionIn(b.from, b.to, b.device)))
    && b.values == ListContextValues(db, b.from, b.to)
    && b.contextTransitions == SortByTs(Select(db.contextTransitions.rows, InWindow(b.from, b.to)))
    && b.journal == EventsFor(db.journal.rows, Ids(b.transitions))
    && b.contextJournal == EventsFor(db.contextJournal.rows, Ids(b.contextTransitions))
    && b.system == LatestSystemInfo(db) && b.warnings == []
    && (b.summary.Some? ==> b.summary.value == SqlSummary(db, b.from, b.to, b.device))
  }

  lemma {:induction false} ContentsAreFaithful(db: Db, from: int, to: int, device: Option<string>, summaryOk: bool)
    requires Untruncated(db, from, to, device)
    ensures Faithful(db, Contents(db, from, to, device, summaryOk))
  {
    UntruncatedLists(db, from, to, device);
  }

  lemma {:induction false} AnalysisBundleIsFaithful(db: Db, from: int, to: int, device: Option<string>, summaryOk: bool)
    requires BuildAnalysisBundle(db, from, to, device, summaryOk).Bundled? && Untruncated(db, from, to, device)
    ensures Faithful(db, BuildAnalysisBundle(db, from, to, device, summaryOk).bundle)
  {
    ContentsAreFaithful(db, from, to, device, summaryOk);
  }

  lemma {:induction false} ExportBundleIsFaithful(db: Db, from: int, to: int, device: Option<string>, enforceWebLimits: bool, summaryOk: bool)
    requires BuildExportBundle(db, from, to, device, enforceWebLimits, summaryOk).Bundled? && Untruncated(db, from, to, device)
    ensures Faithful(db, BuildExportBundle(db, from, to, device, enforceWebLimits, summaryOk).bundle)
  {
    ContentsAreFaithful(db, from, to, device, summaryOk);
    ExportParts(db, from, to, device, BuildExportBundle(db, from, to, device, enforceWebLimits, summaryOk).bundle, enforceWebLimits, summaryOk);
  }

  function EffectiveDevice(b: Bundle, opts: Options): Option<string> {
    if opts.device.Some? then opts.device else b.device
  }

  /** The options ask for a part of what the bundle covers. */
  predicate PartOf(b: Bundle, opts: Options) {
    && b.from <= Or(opts.from, b.from) && Or(opts.to, b.to) <= b.to
    && (b.device.None? || b.device == EffectiveDevice(b, opts))
  }

  /** What analysis sees when it looks at the store itself. */
  function Reference(db: Db, from: int, to: int, device: Option<string>, tag: Option<string>): Input {
    var samples := ListSamples(db, from, to, device);
    var transitions := SortByTs(Select(db.transitions.rows, TransitionIn(from, to, device)));
    var contextTransitions := SortByTs(Select(db.contextTransitions.rows, InWindow(from, to)));
    Input(from, to, device, tag, samples, transitions, [], ListContextValues(db, from, to), contextTransitions, [],
          LatestSystemInfo(db), Some(SummaryOf(from, to, samples, transitions, |contextTransitions|)), [])
  }

  lemma {:induction false} PreparedSamples(db: Db, b: Bundle, opts: Options)
    requires Faithful(db, b) && PartOf(b, opts)
    ensures PrepareInput(b, opts).samples == ListSamples(db, Or(opts.from, b.from), Or(opts.to, b.to), EffectiveDevice(b, opts))
  {
    var from, to, device := Or(opts.from, b.from), Or(opts.to, b.to), EffectiveDevice(b, opts);
    SelectFromListing(db.samples.rows, SampleIn(b.from, b.to, b.device), from, to, SampleOfDevice(device), SampleIn(from, to, device));
  }

  lemma {:induction false} PreparedTransitions(db: Db, b: Bundle, opts: Options)
    requires Faithful(db, b) && PartOf(b, opts)
    ensures PrepareInput(b, opts).transitions
         == SortByTs(Select(db.transitions.rows, TransitionIn(Or(opts.from, b.from), Or(opts.to, b.to), EffectiveDevice(b, opts))))
  {
    var from, to, device := Or(opts.from, b.from), Or(opts.to, b.to), EffectiveDevice(b, opts);
    SelectFromListing(db.transitions.rows, TransitionIn(b.from, b.to, b.device), from, to, TransitionOfDevice(device), TransitionIn(from, to, device));
  }

  lemma {:induction false} PreparedContext(db: Db, b: Bundle, opts: Options)
    requires Faithful(db, b) && PartOf(b, opts)
    ensures PrepareInput(b, opts).values == ListContextValues(db, Or(opts.from, b.from), Or(opts.to, b.to))
    ensures PrepareInput(b, opts).contextTransitions
         == SortByTs(Select(db.contextTransitions.rows, InWindow(Or(opts.from, b.from), Or(opts.to, b.to))))
  {
    var from, to := Or(opts.from, b.from), Or(opts.to, b.to);
    SelectWindow(db.values.rows, b.from, b.to, from, to);
    SelectWindow(db.contextTransitions.rows, b.from, b.to, from, to);
  }

  lemma {:induction false} SameEvidence(a: Input, b: Input)
    requires a.from == b.from && a.to == b.to && a.device == b.device && a.issueTag == b.issueTag
    requires a.samples == b.samples && a.transitions == b.transitions && a.values == b.values
    requires a.contextTransitions == b.contextTransitions && a.system == b.system && a.warnings == b.warnings
    ensures Evidence(a) == Evidence(b)
  { }

  lemma {:induction false} PreparedLists(db: Db, b: Bundle, opts: Options)
    requires Faithful(db, b) && PartOf(b, opts)
    ensures Evidence(PrepareInput(b, opts))
         == Evidence(Reference(db, Or(opts.from, b.from), Or(opts.to, b.to), EffectiveDevice(b, opts), opts.issueTag))
  {
    PreparedSamples(db, b, opts);
    PreparedTransitions(db, b, opts);
    PreparedContext(db, b, opts);
    SameEvidence(PrepareInput(b, opts), Reference(db, Or(opts.from, b.from), Or(opts.to, b.to), EffectiveDevice(b, opts), opts.issueTag));
  }

  /** Two summaries the rules cannot tell apart. */
  ghost predicate SameFigures(a: Summary, b: Summary) {
    a.activity == b.activity && a.maxPower == b.maxPower && a.avgPower == b.avgPower && a.maxTemperature == b.maxTemperature
  }

  /** The cached SQL summary and the recomputed one carry the same figures. */
  lemma {:induction false} CachedIsRecomputed(db: Db, from: int, to: int, device: Option<string>)
    ensures var r := Reference(db, from, to, device, None);
            SameFigures(SqlSummary(db, from, to, device), SummaryOf(from, to, r.samples, r.transitions, |r.contextTransitions|))
  {
    SummarySort(from, to, Select(db.samples.rows, SampleIn(from, to, device)), Select(db.transitions.rows, TransitionIn(from, to, device)),
                CountContextTransitions(db, from, to));
  }

  /** Facts do not depend on which summary was used, nor on whether an empty window had one. */
  lemma {:induction false} SameFacts(a: Input, b: Input)
    requires a.samples == b.samples && a.values == b.values && b.summary.Some?
    requires a.summary.Some? ==> SameFigures(a.summary.value, b.summary.value)
    requires a.summary.None? ==>
      a.samples == [] && b.summary.value.maxPower.None? && b.summary.value.avgPower.None? && b.summary.value.maxTemperature.None?
    ensures FactsOf(a) == FactsOf(b)
  {
    if a.summary.Some? {
      SamePct(a.summary, b.summary, a.samples, "SPL");
      SameMaxPct(a.summary, b.summary, a.samples, ThermalFlags(FactsOf(a).prochotSuspect));
    }
  }

  lemma {:induction false} SamePct(a: Option<Summary>, b: Option<Summary>, samples: seq<Row<Sample>>, flag: string)
    requires a.Some? && b.Some? && SameFigures(a.value, b.value)
    ensures FlagActivePct(a, samples, flag) == FlagActivePct(b, samples, flag)
  { }

  lemma {:induction false} SameMaxPct(a: Option<Summary>, b: Option<Summary>, samples: seq<Row<Sample>>, flags: seq<string>)
    requires a.Some? && b.Some? && SameFigures(a.value, b.value)
    ensures MaxPct(a, samples, flags) == MaxPct(b, samples, flags)
  {
    if flags != [] {
      SameMaxPct(a, b, samples, flags[..|flags| - 1]);
      SamePct(a, b, samples, flags[|flags| - 1]);
    }
  }

  /** What analysis reports is a function of the store, the window and the device, not of the bundle it came in. */
  lemma {:induction false} ReportIsReference(db: Db, b: Bundle, opts: Options)
    requires Faithful(db, b) && PartOf(b, opts)
    ensures Analyze(b, opts)
         == RunAnalysis(Reference(db, Or(opts.from, b.from), Or(opts.to, b.to), EffectiveDevice(b, opts), opts.issueTag))
  {
    var from, to, device := Or(opts.from, b.from), Or(opts.to, b.to), EffectiveDevice(b, opts);
    var prepared, reference := PrepareInput(b, opts), Reference(db, from, to, device, opts.issueTag);
    PreparedLists(db, b, opts);
    assert Evidence(prepared).samples == prepared.samples && Evidence(reference).samples == reference.samples;
    assert Evidence(prepared).values == prepared.values && Evidence(reference).values == reference.values;
    assert Evidence(prepared).transitions == prepared.transitions && Evidence(reference).transitions == reference.transitions;
    assert Evidence(prepared).contextTransitions == prepared.contextTransitions
        && Evidence(reference).contextTransitions == reference.contextTransitions;
    CachedIsRecomputed(db, from, to, device);
    SameFacts(prepared, reference);
  }

  /** Any two untruncated bundles of one store that cover the same selected window and device are reported alike. */
  lemma {:induction false} BundlesAgree(db: Db, a: Bundle, b: Bundle, opts: Options, opts': Options)
    requires Faithful(db, a) && PartOf(a, opts) && Faithful(db, b) && PartOf(b, opts')
    requires Or(opts.from, a.from) == Or(opts'.from, b.from) && Or(opts.to, a.to) == Or(opts'.to, b.to)
    requires EffectiveDevice(a, opts) == EffectiveDevice(b, opts') && opts.issueTag == opts'.issueTag
    ensures Analyze(a, opts) == Analyze(b, opts')
  {
    ReportIsReference(db, a, opts);
    ReportIsReference(db, b, opts');
  }

  lemma {:induction false} ExportWindow(db: Db, from: int, to: int, device: Option<string>, enforceWebLimits: bool, ok: bool)
    requires BuildExportBundle(db, from, to, device, enforceWebLimits, ok).Bundled?
    ensures var b := BuildExportBundle(db, from, to, device, enforceWebLimits, ok).bundle;
            b.from == from && b.to == to && b.device == device
  { }

  lemma {:induction false} DirectWindow(db: Db, from: int, to: int, device: Option<string>, ok: bool)
    requires BuildAnalysisBundle(db, from, to, device, ok).Bundled?
    ensures var b := BuildAnalysisBundle(db, from, to, device, ok).bundle;
            b.from == from && b.to == to && b.device == device
  { }

  /** The options that ask for exactly what these options select from the bundle. */
  function Resolved(b: Bundle, opts: Options): Options {
    Options(Some(Or(opts.from, b.from)), Some(Or(opts.to, b.to)), EffectiveDevice(b, opts), opts.issueTag)
  }

  /** A bundle covers what the options select from another. */
  predicate Covers(direct: Bundle, whole: Bundle, opts: Options) {
    direct.from == Or(opts.from, whole.from) && direct.to == Or(opts.to, whole.to) && direct.device == EffectiveDevice(whole, opts)
  }

  lemma {:induction false} ResolvedSelectsAll(whole: Bundle, direct: Bundle, opts: Options)
    requires Covers(direct, whole, opts)
    ensures PartOf(direct, Resolved(whole, opts)) && EffectiveDevice(direct, Resolved(whole, opts)) == direct.device
    ensures Or(Resolved(whole, opts).from, direct.from) == direct.from && Or(Resolved(whole, opts).to, direct.to) == direct.to
  { }

  /** Analysing a sub-window and device of an untruncated export and analysing a bundle built directly for them give
      the same findings, verdict, key metrics and warnings, whichever summaries were cached, recomputed or absent. */
  lemma {:induction false} SubWindowAgrees(db: Db, from: int, to: int, device: Option<string>, enforceWebLimits: bool, ok: bool,
                        whole: Bundle, opts: Options, directOk: bool, direct: Bundle)
    requires BuildExportBundle(db, from, to, device, enforceWebLimits, ok) == Bundled(whole) && whole.warnings == []
    requires PartOf(whole, opts)
    requires BuildAnalysisBundle(db, Or(opts.from, from), Or(opts.to, to), EffectiveDevice(whole, opts), directOk) == Bundled(direct)
    ensures Analyze(whole, opts) == Analyze(direct, Resolved(whole, opts))
  {
    var from', to', device' := Or(opts.from, from), Or(opts.to, to), EffectiveDevice(whole, opts);
    WarnedIsTruncated(db, from, to, device, enforceWebLimits, ok);
    ExportWindow(db, from, to, device, enforceWebLimits, ok);
    ExportBundleIsFaithful(db, from, to, device, enforceWebLimits, ok);
    DirectWindow(db, from', to', device', directOk);
    PartIsUntruncated(db, from, to, device, from', to', device');
    AnalysisBundleIsFaithful(db, from', to', device', directOk);
    ResolvedSelectsAll(whole, direct, opts);
    BundlesAgree(db, whole, direct, opts, Resolved(whole, opts));
  }

  lemma {:induction false} PartIsUntruncated(db: Db, from: int, to: int, device: Option<string>, from': int, to': int, device': Option<string>)
    requires Untruncated(db, from, to, device) && from <= from' && to' <= to && (device.None? || device == device')
    ensures Untruncated(db, from', to', device')
  {
    SelectTwice(db.transitions.rows, TransitionIn(from, to, device), TransitionIn(from', to', device'), TransitionIn(from', to', device'));
    SelectTwice(db.contextTransitions.rows, InWindow(from, to), InWindow(from', to'), InWindow(from', to'));
  }

  // ---- journal evidence ----

  /** The events of the window that a finding quotes: those of its related transitions. */
  function Quoted(journal: seq<Row<JournalEvent>>, from: int, to: int, related: set<int>): seq<Row<JournalEvent>> {
    Select(Select(journal, InWindow(from, to)), ChildOf(related))
  }

  lemma {:induction false} QuotedCount(journal: seq<Row<JournalEvent>>, from: int, to: int, related: set<int>, e: Row<JournalEvent>)
    ensures multiset(Quoted(journal, from, to, related))[e]
         == if from <= e.ts <= to && e.body.transitionId in related then multiset(journal)[e] else 0
  {
    SelectCount(journal, InWindow(from, to), e);
    SelectCount(Select(journal, InWindow(from, to)), ChildOf(related), e);
  }

  /** A listing quotes each stored event of the window and of a related, listed transition once. */
  lemma {:induction false} QuotedOnce<T>(events: seq<Row<JournalEvent>>, listing: seq<Row<T>>, from: int, to: int, related: set<int>, e: Row<JournalEvent>)
    requires IdsAscend(events) && DistinctIds(listing)
    requires forall id :: id in related ==> ListsId(listing, id)
    ensures multiset(Quoted(EventsFor(events, Ids(listing)), from, to, related))[e]
         == if e in events && from <= e.ts <= to && e.body.transitionId in related then 1 else 0
  {
    QuotedCount(EventsFor(events, Ids(listing)), from, to, related, e);
    EventsForListing(events, listing, e);
  }

  /** Events of transitions outside the part never leak into a finding's quotes: a larger and a smaller listing yield
      the same events for the transitions the finding relates to. */
  lemma {:induction false} QuotesAgree<T>(events: seq<Row<JournalEvent>>, whole: seq<Row<T>>, part: seq<Row<T>>, from: int, to: int, related: set<int>)
    requires IdsAscend(events) && DistinctIds(whole) && DistinctIds(part)
    requires forall r :: r in part ==> r in whole
    requires forall id :: id in related ==> ListsId(part, id)
    ensures multiset(Quoted(EventsFor(events, Ids(whole)), from, to, related)) == multiset(Quoted(EventsFor(events, Ids(part)), from, to, related))
  {
    forall id | id in related ensures ListsId(whole, id) { assert ListsId(part, id); }
    forall e
      ensures multiset(Quoted(EventsFor(events, Ids(whole)), from, to, related))[e]
           == multiset(Quoted(EventsFor(events, Ids(part)), from, to, related))[e]
    {
      QuotedOnce(events, whole, from, to, related, e);
      QuotedOnce(events, part, from, to, related, e);
    }
  }

  lemma {:induction false} ListingsAgree<T(!new)>(events: seq<Row<JournalEvent>>, rows: seq<Row<T>>, outer: Row<T> -> bool, inner: Row<T> -> bool,
                         from: int, to: int, related: set<int>)
    requires IdsAscend(events) && IdsAscend(rows)
    requires forall r :: r in rows && inner(r) ==> outer(r)
    requires forall id :: id in related ==> ListsId(SortByTs(Select(rows, inner)), id)
    ensures multiset(Quoted(EventsFor(events, Ids(SortByTs(Select(rows, outer)))), from, to, related))
         == multiset(Quoted(EventsFor(events, Ids(SortByTs(Select(rows, inner)))), from, to, related))
  {
    ListingIsDistinct(rows, outer);
    ListingIsDistinct(rows, inner);
    SameMembers(SortByTs(Select(rows, outer)), Select(rows, outer));
    SameMembers(SortByTs(Select(rows, inner)), Select(rows, inner));
    QuotesAgree(events, SortByTs(Select(rows, outer)), SortByTs(Select(rows, inner)), from, to, related);
  }

  /** For any related transitions of the part, the throttle journal events quoted from the export and from the direct
      bundle are the same ones, each once; only the order among equal times can differ. */
  lemma {:induction false} SameThrottleQuotes(db: Db, whole: Bundle, opts: Options, direct: Bundle, related: set<int>)
    requires Faithful(db, whole) && PartOf(whole, opts) && Faithful(db, direct) && Covers(direct, whole, opts)
    requires IdsAscend(db.journal.rows) && IdsAscend(db.transitions.rows)
    requires forall id :: id in related ==> ListsId(direct.transitions, id)
    ensures multiset(Select(PrepareInput(whole, opts).journal, ChildOf(related)))
         == multiset(Select(PrepareInput(direct, Resolved(whole, opts)).journal, ChildOf(related)))
  {
    ListingsAgree(db.journal.rows, db.transitions.rows, TransitionIn(whole.from, whole.to, whole.device),
                  TransitionIn(direct.from, direct.to, direct.device), direct.from, direct.to, related);
  }

  lemma {:induction false} SameContextQuotes(db: Db, whole: Bundle, opts: Options, direct: Bundle, related: set<int>)
    requires Faithful(db, whole) && PartOf(whole, opts) && Faithful(db, direct) && Covers(direct, whole, opts)
    requires IdsAscend(db.contextJournal.rows) && IdsAscend(db.contextTransitions.rows)
    requires forall id :: id in related ==> ListsId(direct.contextTransitions, id)
    ensures multiset(Select(PrepareInput(whole, opts).contextJournal, ChildOf(related)))
         == multiset(Select(PrepareInput(direct, Resolved(whole, opts)).contextJournal, ChildOf(related)))
  {
    ListingsAgree(db.contextJournal.rows, db.contextTransitions.rows, InWindow(whole.from, whole.to),
                  InWindow(direct.from, direct.to), direct.from, direct.to, related);
  }

  // ---- flag_active_pct ----

  lemma {:induction false} FindInActivity(activity: seq<FlagActivity>, flag: string)
    ensures Find(activity, flag).Some? <==> Lists(activity, flag)
    ensures Find(activity, flag).Some? ==> Find(activity, flag).value in activity && Find(activity, flag).value.flag == flag
  {
    if activity != [] {
      FindInActivity(activity[1..], flag);
      assert activity == [activity[0]] + activity[1..];
      assert activity[0] in activity;
    }
  }

  ghost predicate NeverRepeats(samples: seq<Row<Sample>>, flag: string) {
    forall s :: s in samples ==> multiset(s.body.flags)[flag] <= 1
  }

  lemma {:induction false} OccurrencesVersusCarriers(samples: seq<Row<Sample>>, flag: string)
    ensures Occurrences(samples, flag) >= |Select(samples, Carries(flag))|
    ensures Occurrences(samples, flag) == |Select(samples, Carries(flag))| <==> NeverRepeats(samples, flag)
  {
    if samples != [] {
      var front, last := samples[..|samples| - 1], samples[|samples| - 1];
      OccurrencesVersusCarriers(front, flag);
      assert samples == front + [last] && last in samples;
    }
  }

  lemma {:induction false} PctInjective(a: nat, b: nat, n: nat)
    requires n > 0
    ensures Pct(a, n) == Pct(b, n) <==> a == b
  {
    var x, y, d := a as real, b as real, n as real;
    if x / d * 100.0 == y / d * 100.0 {
      assert x == x / d * d && y == y / d * d;
    }
  }

  /** Whichever way the percentage of a flag is obtained, from a summary of the window, cached or recomputed, or by a
      direct count, it is the share of samples that carry the flag, exactly when no sample lists the flag twice. */
  lemma {:induction false} ActivePctIsShare(samples: seq<Row<Sample>>, transitions: seq<Row<Transition>>, summary: Option<Summary>, flag: string)
    requires samples != []
    requires summary.Some? ==> summary.value.activity == ActivityOf(samples, transitions)
    ensures FlagActivePct(summary, samples, flag) == Some(Pct(|Select(samples, Carries(flag))|, |samples|))
       <==> summary.None? || NeverRepeats(samples, flag)
  {
    if summary.Some? {
      ActivityIsSortedAndComplete(samples, transitions);
      FindInActivity(summary.value.activity, flag);
      OccurrencesVersusCarriers(samples, flag);
      PctInjective(Occurrences(samples, flag), |Select(samples, Carries(flag))|, |samples|);
      if Find(summary.value.activity, flag).None? {
        assert !Mentioned(samples, transitions, flag);
      }
    }
  }

  /** Samples the collector stored never list a flag twice, so on them all three agree. */
  lemma {:induction false} CollectedPctIsShare(names: BitNames, samples: seq<Row<Sample>>, transitions: seq<Row<Transition>>, summary: Option<Summary>, flag: string)
    requires samples != []
    requires forall s :: s in samples ==> s.body.flags == ActiveFlags(names, MaskOf(s.body))
    requires summary.Some? ==> summary.value.activity == ActivityOf(samples, transitions)
    ensures FlagActivePct(summary, samples, flag) == Some(Pct(|Select(samples, Carries(flag))|, |samples|))
  {
    forall s | s in samples ensures multiset(s.body.flags)[flag] <= 1 {
      ActiveFlagsMeaning(names, MaskOf(s.body));
      ListedOnce(s.body.flags, flag);
    }
    ActivePctIsShare(samples, transitions, summary, flag);
  }
}

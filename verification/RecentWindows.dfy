/** Pruning cannot be seen through any window that starts at or after the cutoff. */
module RecentWindows {
  import opened Rows
  import opened Database
  import opened Retention
  import opened Journal
  import opened WindowSummaries
  import opened Export

  lemma {:induction false} RecentSelection<T>(t: Table<T>, cutoff: int, p: Row<T> -> bool)
    requires forall r :: r in t.rows && p(r) ==> r.ts >= cutoff
    ensures Select(Delete(t, OlderThan(cutoff)).rows, p) == Select(t.rows, p)
  {
    SelectTwice(t.rows, Not(OlderThan(cutoff)), p, p);
  }

  /** Events of transitions that stay are all still there, in the same order. */
  lemma {:induction false} SameBatches(rows: seq<Row<JournalEvent>>, gone: set<int>, ids: seq<int>, i: nat)
    requires i <= |ids| && forall id :: id in ids ==> id !in gone
    ensures Batches(Select(rows, Not(ChildOf(gone))), ids, i) == Batches(rows, ids, i)
    decreases |ids| - i
  {
    if i < |ids| {
      var chunk := ids[i..ChunkEnd(ids, i)];
      SelectTwice(rows, Not(ChildOf(gone)), ChildOf(IdSet(chunk)), ChildOf(IdSet(chunk)));
      SameBatches(rows, gone, ids, ChunkEnd(ids, i));
    }
  }

  /** The id of a recent transition is not among those about to be pruned. */
  lemma {:induction false} RecentIds<T>(t: Table<T>, cutoff: int, listing: seq<Row<T>>)
    requires Numbered(t)
    requires forall r :: r in listing ==> r in t.rows && r.ts >= cutoff
    ensures forall id :: id in Ids(listing) ==> id !in OldIds(t, cutoff)
  {
    var ids := Ids(listing);
    forall i | 0 <= i < |ids| ensures ids[i] !in OldIds(t, cutoff) {
      assert listing[i] in listing;
    }
  }

  lemma {:induction false} LatestSurvives<T>(s: seq<Row<T>>, p: Row<T> -> bool, newest: int)
    requires forall r :: r in s ==> r.ts <= newest && (r.ts == newest ==> p(r))
    requires exists r :: r in s && r.ts == newest
    ensures Latest(Select(s, p)) == Latest(s)
  {
    var front, last := s[..|s| - 1], s[|s| - 1];
    assert s == front + [last];
    LatestIsNewest(front);
    LatestIsNewest(Select(front, p));
    if last.ts < newest {
      LatestSurvives(front, p, newest);
    }
    SelectPush(front, last, p);
    assert (Select(front, p) + [last])[..|Select(front, p)|] == Select(front, p);
  }

  lemma {:induction false} SameLatestInfo(infos: seq<Row<string>>, cutoff: int)
    ensures Latest(Select(infos, Not(OutdatedInfo(infos, cutoff)))) == Latest(infos)
  {
    LatestIsNewest(infos);
    if infos != [] {
      LatestSurvives(infos, Not(OutdatedInfo(infos, cutoff)), Latest(infos).value.ts);
    }
  }

  /** Samples, transitions, context rows, counts and the latest system inventory. */
  lemma {:induction false} SameQueries(db: Db, cutoff: int, from: int, to: int, device: Option<string>)
    requires from >= cutoff
    ensures var now := Prune(db, cutoff);
            && Select(now.samples.rows, SampleIn(from, to, device)) == Select(db.samples.rows, SampleIn(from, to, device))
            && Select(now.transitions.rows, TransitionIn(from, to, device)) == Select(db.transitions.rows, TransitionIn(from, to, device))
            && Select(now.values.rows, InWindow(from, to)) == Select(db.values.rows, InWindow(from, to))
            && Select(now.contextTransitions.rows, InWindow(from, to)) == Select(db.contextTransitions.rows, InWindow(from, to))
            && Select(now.snapshots.rows, InWindow(from, to)) == Select(db.snapshots.rows, InWindow(from, to))
            && LatestSystemInfo(now) == LatestSystemInfo(db)
  {
    PruneTables(db, cutoff, PRUNE_STATEMENTS);
    RecentSelection(db.samples, cutoff, SampleIn(from, to, device));
    RecentSelection(db.transitions, cutoff, TransitionIn(from, to, device));
    RecentSelection(db.values, cutoff, InWindow(from, to));
    RecentSelection(db.contextTransitions, cutoff, InWindow(from, to));
    RecentSelection(db.snapshots, cutoff, InWindow(from, to));
    SameLatestInfo(db.systemInfo.rows, cutoff);
  }

  lemma {:induction false} SameSummary(db: Db, cutoff: int, from: int, to: int, device: Option<string>)
    requires from >= cutoff
    ensures SqlSummary(Prune(db, cutoff), from, to, device) == SqlSummary(db, from, to, device)
  {
    SameQueries(db, cutoff, from, to, device);
  }

  /** A listing keeps only rows of its window. */
  lemma {:induction false} ListedTransitionsAreRecent(db: Db, cutoff: int, from: int, to: int, limit: nat, device: Option<string>)
    requires from >= cutoff
    ensures forall t :: t in ListTransitions(db, from, to, limit, device) ==> t in db.transitions.rows && t.ts >= cutoff
    ensures forall t :: t in ListContextTransitions(db, from, to, limit) ==> t in db.contextTransitions.rows && t.ts >= cutoff
  {
    SameMembers(SortByTs(Select(db.transitions.rows, TransitionIn(from, to, device))), Select(db.transitions.rows, TransitionIn(from, to, device)));
    SameMembers(SortByTs(Select(db.contextTransitions.rows, InWindow(from, to))), Select(db.contextTransitions.rows, InWindow(from, to)));
  }

  lemma {:induction false} SameLookups(db: Db, cutoff: int, from: int, to: int, limit: nat, device: Option<string>)
    requires from >= cutoff && Numbered(db.transitions) && Numbered(db.contextTransitions)
    ensures var now := Prune(db, cutoff);
            && EventsFor(now.journal.rows, Ids(ListTransitions(db, from, to, limit, device)))
               == EventsFor(db.journal.rows, Ids(ListTransitions(db, from, to, limit, device)))
            && EventsFor(now.contextJournal.rows, Ids(ListContextTransitions(db, from, to, limit)))
               == EventsFor(db.contextJournal.rows, Ids(ListContextTransitions(db, from, to, limit)))
  {
    PruneTables(db, cutoff, PRUNE_STATEMENTS);
    ListedTransitionsAreRecent(db, cutoff, from, to, limit, device);
    var listing, contextListing := ListTransitions(db, from, to, limit, device), ListContextTransitions(db, from, to, limit);
    RecentIds(db.transitions, cutoff, listing);
    RecentIds(db.contextTransitions, cutoff, contextListing);
    SameBatches(db.journal.rows, OldIds(db.transitions, cutoff), Ids(listing), 0);
    SameBatches(db.contextJournal.rows, OldIds(db.contextTransitions, cutoff), Ids(contextListing), 0);
  }

  /** Everything a bundle holds about a recent window is the same before and after, journal events included. */
  lemma {:induction false} SameContents(db: Db, cutoff: int, from: int, to: int, device: Option<string>, summaryOk: bool)
    requires from >= cutoff && Numbered(db.transitions) && Numbered(db.contextTransitions)
    ensures Contents(Prune(db, cutoff), from, to, device, summaryOk) == Contents(db, from, to, device, summaryOk)
  {
    SameQueries(db, cutoff, from, to, device);
    SameSummary(db, cutoff, from, to, device);
    SameLookups(db, cutoff, from, to, EXPORT_TRANSITION_LIMIT, device);
  }

  /** The rows and counts that decide a bundle. */
  ghost predicate SameAnswers(a: Db, b: Db, from: int, to: int, device: Option<string>, summaryOk: bool) {
    && Contents(a, from, to, device, summaryOk) == Contents(b, from, to, device, summaryOk)
    && CountSamples(a, from, to, device) == CountSamples(b, from, to, device)
    && Database.CountTransitions(a, from, to, device) == Database.CountTransitions(b, from, to, device)
    && CountContextTransitions(a, from, to) == CountContextTransitions(b, from, to)
    && ListContextSnapshots(a, from, to) == ListContextSnapshots(b, from, to)
  }

  lemma {:induction false} PruneKeepsAnswers(db: Db, cutoff: int, from: int, to: int, device: Option<string>, summaryOk: bool)
    requires from >= cutoff && Numbered(db.transitions) && Numbered(db.contextTransitions)
    ensures SameAnswers(db, Prune(db, cutoff), from, to, device, summaryOk)
  {
    SameQueries(db, cutoff, from, to, device);
    SameContents(db, cutoff, from, to, device, summaryOk);
  }

  function WithDevices(b: Bundled, devices: set<(string, string)>): Bundled {
    if b.Bundled? then Bundled(b.bundle.(devices := devices)) else b
  }

  lemma {:induction false} SameAnswersSameExport(a: Db, b: Db, from: int, to: int, device: Option<string>, enforceWebLimits: bool, summaryOk: bool)
    requires SameAnswers(a, b, from, to, device, summaryOk)
    ensures BuildExportBundle(b, from, to, device, enforceWebLimits, summaryOk)
         == WithDevices(BuildExportBundle(a, from, to, device, enforceWebLimits, summaryOk), Devices(b))
  { }

  lemma {:induction false} SameAnswersSameAnalysis(a: Db, b: Db, from: int, to: int, device: Option<string>, summaryOk: bool)
    requires SameAnswers(a, b, from, to, device, summaryOk)
    ensures BuildAnalysisBundle(b, from, to, device, summaryOk) == BuildAnalysisBundle(a, from, to, device, summaryOk)
  { }

  /** So is the bundle analysis runs on, and an export up to its list of devices, which is taken from the whole table. */
  lemma {:induction false} PruneIsInvisible(db: Db, cutoff: int, from: int, to: int, device: Option<string>, enforceWebLimits: bool, summaryOk: bool)
    requires from >= cutoff && Numbered(db.transitions) && Numbered(db.contextTransitions)
    ensures BuildAnalysisBundle(Prune(db, cutoff), from, to, device, summaryOk) == BuildAnalysisBundle(db, from, to, device, summaryOk)
    ensures BuildExportBundle(Prune(db, cutoff), from, to, device, enforceWebLimits, summaryOk)
         == WithDevices(BuildExportBundle(db, from, to, device, enforceWebLimits, summaryOk), Devices(Prune(db, cutoff)))
  {
    PruneKeepsAnswers(db, cutoff, from, to, device, summaryOk);
    SameAnswersSameAnalysis(db, Prune(db, cutoff), from, to, device, summaryOk);
    SameAnswersSameExport(db, Prune(db, cutoff), from, to, device, enforceWebLimits, summaryOk);
  }

  /** The device list shrinks exactly by the devices without a recent sample. */
  lemma {:induction false} DevicesAfterPrune(db: Db, cutoff: int)
    ensures forall d :: d in Devices(Prune(db, cutoff)) <==>
              exists s :: s in db.samples.rows && s.ts >= cutoff && (s.body.device, s.body.deviceName) == d
  {
    PruneTables(db, cutoff, PRUNE_STATEMENTS);
    forall s | s in db.samples.rows && s.ts >= cutoff ensures s in Prune(db, cutoff).samples.rows { }
  }
}

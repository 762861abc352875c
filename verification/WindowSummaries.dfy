/** `summarize_window` and `window_summary_sql` as the loops they are, both proved against `SummaryOf`. */
module WindowSummaries {
  import opened Rows
  import opened Names
  import opened Throttle
  import opened Database
  import opened Summaries

  // ---- the list both summaries build from their hash maps ----

  function FlagsOf(activity: seq<FlagActivity>): (r: seq<string>)
    ensures |r| == |activity| && forall i :: 0 <= i < |r| ==> r[i] == activity[i].flag
  {
    seq(|activity|, i requires 0 <= i < |activity| => activity[i].flag)
  }

  /** `sort_by(|a, b| a.flag_name.cmp(&b.flag_name))`. */
  function InsertByFlag(s: seq<FlagActivity>, a: FlagActivity): (r: seq<FlagActivity>)
    ensures forall x :: x in r <==> x in s || x == a
  {
    if s == [] || !Less(a.flag, s[|s| - 1].flag) then s + [a]
    else
      assert s == s[..|s| - 1] + [s[|s| - 1]];
      InsertByFlag(s[..|s| - 1], a) + [s[|s| - 1]]
  }

  function SortByFlag(s: seq<FlagActivity>): (r: seq<FlagActivity>)
    ensures forall x :: x in r <==> x in s
  {
    if s == [] then [] else
    assert s == s[..|s| - 1] + [s[|s| - 1]];
    InsertByFlag(SortByFlag(s[..|s| - 1]), s[|s| - 1])
  }

  lemma {:induction false} InsertByFlagAscends(s: seq<FlagActivity>, a: FlagActivity)
    requires Ascending(FlagsOf(s)) && forall x :: x in s ==> x.flag != a.flag
    ensures Ascending(FlagsOf(InsertByFlag(s, a)))
  {
    var r := InsertByFlag(s, a);
    if s != [] && Less(a.flag, s[|s| - 1].flag) {
      var front, last := s[..|s| - 1], s[|s| - 1];
      assert FlagsOf(front) == FlagsOf(s)[..|front|];
      InsertByFlagAscends(front, a);
      var inner := InsertByFlag(front, a);
      forall i | 0 <= i < |inner| ensures Less(inner[i].flag, last.flag) {
        assert inner[i] in inner;
        if inner[i] != a {
          var j :| 0 <= j < |front| && front[j] == inner[i];
          assert Less(FlagsOf(s)[j], FlagsOf(s)[|s| - 1]);
        }
      }
      assert FlagsOf(r) == FlagsOf(inner) + [last.flag];
    } else {
      forall i | 0 <= i < |s| ensures Less(s[i].flag, a.flag) {
        assert s[|s| - 1] in s;
        LessTotal(a.flag, s[|s| - 1].flag);
        if i < |s| - 1 {
          assert Less(FlagsOf(s)[i], FlagsOf(s)[|s| - 1]);
          LessTrans(s[i].flag, s[|s| - 1].flag, a.flag);
        }
      }
      assert FlagsOf(r) == FlagsOf(s) + [a.flag];
    }
  }

  ghost predicate DistinctFlags(s: seq<FlagActivity>) {
    forall i, j :: 0 <= i < j < |s| ==> s[i].flag != s[j].flag
  }

  lemma {:induction false} SortByFlagAscends(s: seq<FlagActivity>)
    requires DistinctFlags(s)
    ensures Ascending(FlagsOf(SortByFlag(s)))
  {
    if s != [] {
      SortByFlagAscends(s[..|s| - 1]);
      InsertByFlagAscends(SortByFlag(s[..|s| - 1]), s[|s| - 1]);
    }
  }

  function Get<V>(m: map<string, V>, k: string, missing: V): V {
    if k in m then m[k] else missing
  }

  function EntryFrom(stats: map<string, (nat, nat)>, active: map<string, nat>, sampleCount: nat, flag: string): FlagActivity {
    FlagActivity(flag, Pct(Get(active, flag, 0), sampleCount), Get(stats, flag, (0, 0)).0, Get(stats, flag, (0, 0)).1)
  }

  /** One entry per flag, in any order, sorts into the list of exactly these entries. */
  lemma {:induction false} CollectedIsSorted(stats: map<string, (nat, nat)>, active: map<string, nat>, sampleCount: nat, flags: set<string>,
                            collected: seq<FlagActivity>)
    requires DistinctFlags(collected)
    requires forall f :: f in flags ==> EntryFrom(stats, active, sampleCount, f) in collected
    requires forall i :: 0 <= i < |collected| ==>
      collected[i].flag in flags && collected[i] == EntryFrom(stats, active, sampleCount, collected[i].flag)
    ensures var activity := SortByFlag(collected);
            && Ascending(FlagsOf(activity)) && (forall f :: f in FlagsOf(activity) <==> f in flags)
            && forall i :: 0 <= i < |activity| ==> activity[i] == EntryFrom(stats, active, sampleCount, activity[i].flag)
  {
    var activity := SortByFlag(collected);
    SortByFlagAscends(collected);
    forall i | 0 <= i < |activity| ensures activity[i] in collected { assert activity[i] in activity; }
    forall f | f in flags ensures f in FlagsOf(activity) {
      assert EntryFrom(stats, active, sampleCount, f) in activity;
      var i :| 0 <= i < |activity| && activity[i] == EntryFrom(stats, active, sampleCount, f);
      assert FlagsOf(activity)[i] == f;
    }
  }

  /** Merge the keys of both maps, collect the entries in whatever order the map yields them, and sort. */
  method CollectActivity(stats: map<string, (nat, nat)>, active: map<string, nat>, sampleCount: nat) returns (activity: seq<FlagActivity>)
    ensures Ascending(FlagsOf(activity))
    ensures forall f :: f in FlagsOf(activity) <==> f in stats || f in active
    ensures forall i :: 0 <= i < |activity| ==> activity[i] == EntryFrom(stats, active, sampleCount, activity[i].flag)
  {
    var all := stats;
    var todo := active.Keys;
    while todo != {}
      invariant todo <= active.Keys
      invariant all.Keys == stats.Keys + (active.Keys - todo)
      invariant forall f :: f in all ==> all[f] == Get(stats, f, (0, 0))
      decreases todo
    {
      var flag :| flag in todo;
      if flag !in all {
        all := all[flag := (0, 0)];
      }
      todo := todo - {flag};
    }
    activity := [];
    todo := all.Keys;
    while todo != {}
      invariant todo <= all.Keys && DistinctFlags(activity)
      invariant forall f :: f in all && f !in todo ==> EntryFrom(stats, active, sampleCount, f) in activity
      invariant forall i :: 0 <= i < |activity| ==>
        activity[i].flag in all && activity[i].flag !in todo && activity[i] == EntryFrom(stats, active, sampleCount, activity[i].flag)
      decreases todo
    {
      var flag :| flag in todo;
      var (asserts, clears) := all[flag];
      activity := activity + [FlagActivity(flag, Pct(Get(active, flag, 0), sampleCount), asserts, clears)];
      todo := todo - {flag};
    }
    CollectedIsSorted(stats, active, sampleCount, all.Keys, activity);
    activity := SortByFlag(activity);
  }

  /** Whatever order the maps were walked in, the list is the specified one. */
  lemma {:induction false} ActivityUnique(activity: seq<FlagActivity>, samples: seq<Row<Sample>>, transitions: seq<Row<Transition>>)
    requires Ascending(FlagsOf(activity))
    requires forall f :: f in FlagsOf(activity) <==> f in ActiveNames(samples, transitions)
    requires forall i :: 0 <= i < |activity| ==> activity[i] == Entry(samples, transitions, activity[i].flag)
    ensures activity == ActivityOf(samples, transitions)
  {
    SortedAscends(LoggedFlags(transitions) + ListedFlags(samples));
    AscendingUnique(FlagsOf(activity), ActiveNames(samples, transitions));
  }

  // ---- summarize_window ----

  ghost predicate CountsTransitions(stats: map<string, (nat, nat)>, transitions: seq<Row<Transition>>) {
    && (forall f :: f in stats <==> f in LoggedFlags(transitions))
    && (forall f :: Get(stats, f, (0, 0)) == (|Select(transitions, Asserting(f))|, |Select(transitions, Clearing(f))|))
  }

  function Counted(stats: map<string, (nat, nat)>, t: Transition): map<string, (nat, nat)> {
    var entry := Get(stats, t.flag, (0, 0));
    stats[t.flag := if t.newValue then (entry.0 + 1, entry.1) else (entry.0, entry.1 + 1)]
  }

  lemma {:induction false} CountedFlag(stats: map<string, (nat, nat)>, front: seq<Row<Transition>>, t: Row<Transition>, f: string)
    requires Get(stats, f, (0, 0)) == (|Select(front, Asserting(f))|, |Select(front, Clearing(f))|)
    ensures Get(Counted(stats, t.body), f, (0, 0)) == (|Select(front + [t], Asserting(f))|, |Select(front + [t], Clearing(f))|)
  {
    CountPush(front, t, Asserting(f));
    CountPush(front, t, Clearing(f));
  }

  lemma {:induction false} CountOneTransition(stats: map<string, (nat, nat)>, front: seq<Row<Transition>>, t: Row<Transition>)
    requires CountsTransitions(stats, front)
    ensures CountsTransitions(Counted(stats, t.body), front + [t])
  {
    assert (front + [t])[..|front|] == front;
    assert LoggedFlags(front + [t]) == LoggedFlags(front) + [t.body.flag];
    forall f ensures Get(Counted(stats, t.body), f, (0, 0)) == (|Select(front + [t], Asserting(f))|, |Select(front + [t], Clearing(f))|) {
      CountedFlag(stats, front, t, f);
    }
  }

  method CountTransitions(transitions: seq<Row<Transition>>) returns (stats: map<string, (nat, nat)>)
    ensures CountsTransitions(stats, transitions)
  {
    stats := map[];
    for i := 0 to |transitions|
      invariant CountsTransitions(stats, transitions[..i])
    {
      CountOneTransition(stats, transitions[..i], transitions[i]);
      assert transitions[..i + 1] == transitions[..i] + [transitions[i]];
      ghost var before := stats;
      var t := transitions[i].body;
      var entry := Get(stats, t.flag, (0, 0));
      if t.newValue {
        stats := stats[t.flag := (entry.0 + 1, entry.1)];
      } else {
        stats := stats[t.flag := (entry.0, entry.1 + 1)];
      }
      assert stats == Counted(before, t);
    }
    assert transitions[..|transitions|] == transitions;
  }

  ghost predicate CountsListings(active: map<string, nat>, samples: seq<Row<Sample>>, flags: seq<string>) {
    && (forall f :: f in active <==> f in ListedFlags(samples) || f in flags)
    && (forall f :: Get(active, f, 0) == Occurrences(samples, f) + multiset(flags)[f])
  }

  lemma {:induction false} CountOneListing(active: map<string, nat>, samples: seq<Row<Sample>>, flags: seq<string>, flag: string)
    requires CountsListings(active, samples, flags)
    ensures CountsListings(active[flag := Get(active, flag, 0) + 1], samples, flags + [flag])
  {
    var more := active[flag := Get(active, flag, 0) + 1];
    forall f ensures Get(more, f, 0) == Occurrences(samples, f) + multiset(flags + [flag])[f] {
      assert Get(active, f, 0) == Occurrences(samples, f) + multiset(flags)[f];
    }
  }

  lemma {:induction false} CountsOneMore(active: map<string, nat>, samples: seq<Row<Sample>>, i: nat)
    requires i < |samples| && CountsListings(active, samples[..i], samples[i].body.flags)
    ensures CountsListings(active, samples[..i + 1], [])
  {
    assert samples[..i + 1][..i] == samples[..i];
    forall f ensures Get(active, f, 0) == Occurrences(samples[..i + 1], f) {
      assert Get(active, f, 0) == Occurrences(samples[..i], f) + multiset(samples[i].body.flags)[f];
    }
  }

  method AddListings(active: map<string, nat>, ghost samples: seq<Row<Sample>>, flags: seq<string>) returns (more: map<string, nat>)
    requires CountsListings(active, samples, [])
    ensures CountsListings(more, samples, flags)
  {
    more := active;
    for j := 0 to |flags|
      invariant CountsListings(more, samples, flags[..j])
    {
      CountOneListing(more, samples, flags[..j], flags[j]);
      assert flags[..j + 1] == flags[..j] + [flags[j]];
      more := more[flags[j] := Get(more, flags[j], 0) + 1];
    }
    assert flags[..|flags|] == flags;
  }

  method CountListings(samples: seq<Row<Sample>>) returns (active: map<string, nat>)
    ensures CountsListings(active, samples, [])
  {
    active := map[];
    for i := 0 to |samples|
      invariant CountsListings(active, samples[..i], [])
    {
      active := AddListings(active, samples[..i], samples[i].body.flags);
      CountsOneMore(active, samples, i);
    }
    assert samples[..|samples|] == samples;
  }

  /** The power and temperature loops over the listed samples. */
  method PowerStats(samples: seq<Row<Sample>>) returns (maxPower: Option<u32>, avgPower: Option<u32>, maxTemperature: Option<real>)
    ensures maxPower == MaxPower(samples) && avgPower == AvgPower(samples) && maxTemperature == MaxTemperature(samples)
  {
    maxPower, maxTemperature := None, None;
    var sum, count := 0, 0;
    for i := 0 to |samples|
      invariant maxPower == MaxPower(samples[..i]) && maxTemperature == MaxTemperature(samples[..i])
      invariant sum == Sum(samples[..i], PowerOf()) && count == Sum(samples[..i], HasPower())
    {
      assert samples[..i + 1][..i] == samples[..i];
      var s := samples[i].body;
      if s.apuPower.Some? {
        sum, count := sum + s.apuPower.value, count + 1;
        if maxPower.None? || s.apuPower.value >= maxPower.value { maxPower := s.apuPower; }
      }
      if s.temperature.Some? && (maxTemperature.None? || s.temperature.value >= maxTemperature.value) {
        maxTemperature := s.temperature;
      }
    }
    assert samples[..|samples|] == samples;
    PowerBounds(samples);
    if count == 0 {
      avgPower := None;
    } else {
      QuotientFits(sum, count);
      avgPower := Some(sum / count);
    }
  }

  method SummarizeWindow(from: int, to: int, samples: seq<Row<Sample>>, transitions: seq<Row<Transition>>,
                         contextTransitions: seq<Row<ContextTransition>>) returns (r: Summary)
    ensures r == SummaryOf(from, to, samples, transitions, |contextTransitions|)
  {
    var stats := CountTransitions(transitions);
    var active := CountListings(samples);
    var activity := CollectActivity(stats, active, |samples|);
    forall f ensures EntryFrom(stats, active, |samples|, f) == Entry(samples, transitions, f)
                  && (f in FlagsOf(activity) <==> f in ActiveNames(samples, transitions)) {
      EntriesMatch(stats, active, samples, transitions, f);
    }
    ActivityUnique(activity, samples, transitions);
    var maxPower, avgPower, maxTemperature := PowerStats(samples);
    r := Summary(from, to, |samples|, |transitions|, |contextTransitions|, activity, maxPower, avgPower, maxTemperature,
                 ProchotWarnings(activity));
  }

  // ---- window_summary_sql ----

  /** GROUP BY flag_name with SUM(CASE ...). */
  function GroupTransitions(rows: seq<Row<Transition>>): (stats: map<string, (nat, nat)>) {
    map f | f in LoggedFlags(rows) :: (|Select(rows, Asserting(f))|, |Select(rows, Clearing(f))|)
  }

  /** `samples, json_each(active_flags) ... GROUP BY je.value`. */
  function GroupListings(rows: seq<Row<Sample>>): map<string, nat> {
    map f | f in ListedFlags(rows) :: Occurrences(rows, f)
  }

  /** AVG: the exact mean. */
  function Avg(samples: seq<Row<Sample>>): Option<real> {
    var count := Sum(samples, HasPower());
    if count == 0 then None else Some(Sum(samples, PowerOf()) as real / count as real)
  }

  lemma {:induction false} FloorOfQuotient(total: int, count: int)
    requires count > 0
    ensures (total as real / count as real).Floor == total / count
  {
    var q, rest := total / count, total % count;
    assert total == q * count + rest;
    assert total as real == q as real * count as real + rest as real;
    assert (q as real * count as real) / count as real == q as real;
    assert total as real / count as real == q as real + rest as real / count as real;
  }

  /** A real cast to `u32`: truncated, and clamped to the type's range. */
  function AsU32(x: real): u32 {
    if x < 0.0 then 0 else if x.Floor > U32_MAX then U32_MAX else x.Floor
  }

  /** The cast truncates within the type's range and clamps to it outside. */
  lemma {:induction false} CastClamps(x: real, n: u32)
    ensures AsU32(x) == n <==> if n == 0 then x < 1.0 else if n == 0xFFFF_FFFF then x >= 4_294_967_295.0 else n as real <= x < n as real + 1.0
  { }

  lemma {:induction false} NoListings(samples: seq<Row<Sample>>, f: string)
    requires f !in ListedFlags(samples)
    ensures Occurrences(samples, f) == 0
  {
    if samples != [] { NoListings(samples[..|samples| - 1], f); }
  }

  lemma {:induction false} NotLogged(rows: seq<Row<Transition>>, f: string)
    requires f !in LoggedFlags(rows)
    ensures Select(rows, Asserting(f)) == [] && Select(rows, Clearing(f)) == []
  {
    LoggedFlagsMeaning(rows, f);
    SelectNone(rows, Asserting(f));
    SelectNone(rows, Clearing(f));
  }

  const MIN_FREQ_KEY := "cpu.cur_freq_min_mhz"

  predicate IsMinFreq(v: Row<ValueRow>) {
    v.body.key == MIN_FREQ_KEY && v.body.num.Some?
  }

  function InBand(low: real, high: real): Row<ValueRow> -> bool {
    (v: Row<ValueRow>) => v.body.num.Some? && low <= v.body.num.value <= high
  }

  /** `context_freq_band_pct`: the share of CPU minimum-frequency readings in a band. */
  function FreqBandPct(values: seq<Row<ValueRow>>, low: real, high: real): Option<real> {
    var readings := Select(values, IsMinFreq);
    if readings == [] then None else Some(Pct(|Select(readings, InBand(low, high))|, |readings|))
  }

  function CpuWarnings(values: seq<Row<ValueRow>>): seq<Warning> {
    var low, high := FreqBandPct(values, 500.0, 620.0), FreqBandPct(values, 1350.0, 1450.0);
    if low.Some? && low.value >= 50.0 then [CpuLock545]
    else if high.Some? && high.value >= 50.0 then [CpuLock1400]
    else []
  }

  /** The summary of the raw tables: same aggregates, plus a warning computed from the context values. */
  function SqlSummary(db: Db, from: int, to: int, device: Option<string>): Summary {
    var summary := SummaryOf(from, to, Select(db.samples.rows, SampleIn(from, to, device)),
                             Select(db.transitions.rows, TransitionIn(from, to, device)), CountContextTransitions(db, from, to));
    summary.(warnings := summary.warnings + CpuWarnings(Select(db.values.rows, InWindow(from, to))))
  }

  method SamplePowerStats(samples: seq<Row<Sample>>) returns (maxPower: Option<u32>, avgPower: Option<u32>, maxTemperature: Option<real>)
    ensures maxPower == MaxPower(samples) && avgPower == AvgPower(samples) && maxTemperature == MaxTemperature(samples)
  {
    var avg := Avg(samples);
    PowerBounds(samples);
    if avg.Some? {
      QuotientFits(Sum(samples, PowerOf()), Sum(samples, HasPower()));
      FloorOfQuotient(Sum(samples, PowerOf()), Sum(samples, HasPower()));
    }
    maxPower, maxTemperature := MaxPower(samples), MaxTemperature(samples);
    avgPower := if avg.Some? then Some(AsU32(avg.value)) else None;
  }

  /** `for row in rows { flag_stats.insert(...) }`. */
  method InsertAll(rows: map<string, (nat, nat)>) returns (stats: map<string, (nat, nat)>)
    ensures stats == rows
  {
    stats := map[];
    var todo := rows.Keys;
    while todo != {}
      invariant todo <= rows.Keys && stats.Keys == rows.Keys - todo
      invariant forall f :: f in stats ==> stats[f] == rows[f]
      decreases todo
    {
      var flag :| flag in todo;
      stats := stats[flag := rows[flag]];
      todo := todo - {flag};
    }
  }

  lemma {:induction false} GroupedTransitions(transitions: seq<Row<Transition>>)
    ensures CountsTransitions(GroupTransitions(transitions), transitions)
  {
    var rows := GroupTransitions(transitions);
    forall f ensures Get(rows, f, (0, 0)) == (|Select(transitions, Asserting(f))|, |Select(transitions, Clearing(f))|) {
      if f !in LoggedFlags(transitions) { NotLogged(transitions, f); }
    }
  }

  lemma {:induction false} GroupCounts(samples: seq<Row<Sample>>)
    ensures CountsListings(GroupListings(samples), samples, [])
  {
    forall f | f !in ListedFlags(samples) ensures Occurrences(samples, f) == 0 { NoListings(samples, f); }
  }

  lemma {:induction false} EntriesMatch(stats: map<string, (nat, nat)>, active: map<string, nat>, samples: seq<Row<Sample>>, transitions: seq<Row<Transition>>, f: string)
    requires CountsTransitions(stats, transitions) && CountsListings(active, samples, [])
    ensures EntryFrom(stats, active, |samples|, f) == Entry(samples, transitions, f)
    ensures f in stats || f in active <==> f in ActiveNames(samples, transitions)
  {
    assert Get(stats, f, (0, 0)) == (|Select(transitions, Asserting(f))|, |Select(transitions, Clearing(f))|);
    assert Get(active, f, 0) == Occurrences(samples, f) + multiset([])[f];
  }

  method WindowSummarySql(db: Db, from: int, to: int, device: Option<string>) returns (r: Summary)
    ensures r == SqlSummary(db, from, to, device)
  {
    var samples := Select(db.samples.rows, SampleIn(from, to, device));
    var transitions := Select(db.transitions.rows, TransitionIn(from, to, device));
    var maxPower, avgPower, maxTemperature := SamplePowerStats(samples);
    var stats := InsertAll(GroupTransitions(transitions));
    var active := GroupListings(samples);
    GroupedTransitions(transitions);
    GroupCounts(samples);
    var activity := CollectActivity(stats, active, |samples|);
    forall f ensures EntryFrom(stats, active, |samples|, f) == Entry(samples, transitions, f)
                  && (f in FlagsOf(activity) <==> f in ActiveNames(samples, transitions)) {
      EntriesMatch(stats, active, samples, transitions, f);
    }
    ActivityUnique(activity, samples, transitions);
    var warnings := ProchotWarnings(activity) + CpuWarnings(Select(db.values.rows, InWindow(from, to)));
    r := Summary(from, to, |samples|, |transitions|, CountContextTransitions(db, from, to), activity, maxPower, avgPower,
                 maxTemperature, warnings);
  }

  // ---- the two agree ----

  lemma {:induction false} LimitNotReached<T>(s: seq<T>, n: nat)
    requires |s| <= n
    ensures Limit(s, n) == s
  { }

  /** Over every table content, window and device, given untruncated transition lists, the in-memory summary of what
      the list queries return is the SQL summary, up to the SQL summary's additional CPU warning. */
  lemma {:induction false} SummariesAgree(db: Db, from: int, to: int, device: Option<string>, limit: nat)
    requires Database.CountTransitions(db, from, to, device) <= limit && CountContextTransitions(db, from, to) <= limit
    ensures var mem := SummaryOf(from, to, ListSamples(db, from, to, device), ListTransitions(db, from, to, limit, device),
                                 |ListContextTransitions(db, from, to, limit)|);
            SqlSummary(db, from, to, device) == mem.(warnings := mem.warnings + CpuWarnings(ListContextValues(db, from, to)))
  {
    SummarySort(from, to, Select(db.samples.rows, SampleIn(from, to, device)), Select(db.transitions.rows, TransitionIn(from, to, device)),
                CountContextTransitions(db, from, to));
    CpuWarningsSort(Select(db.values.rows, InWindow(from, to)));
  }

  lemma {:induction false} FreqBandSort(values: seq<Row<ValueRow>>, low: real, high: real)
    ensures FreqBandPct(SortByTs(values), low, high) == FreqBandPct(values, low, high)
  {
    SelectSort(values, IsMinFreq);
    SelectSort(Select(values, IsMinFreq), InBand(low, high));
  }

  lemma {:induction false} CpuWarningsSort(values: seq<Row<ValueRow>>)
    ensures CpuWarnings(SortByTs(values)) == CpuWarnings(values)
  {
    FreqBandSort(values, 500.0, 620.0);
    FreqBandSort(values, 1350.0, 1450.0);
  }
}

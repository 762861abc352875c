/** The analysis rules in figures: when each finding is reported, how severe it is and which transitions it names. */
module Rules {
  import opened Rows
  import Division
  import opened Throttle
  import opened Database
  import opened Summaries
  import opened WindowSummaries
  import opened Export
  import opened Analysis
  import opened Reports

  // ---- what a report looks at ----

  /** The options decide over the bundle's own window and device, and what lies outside them is not looked at. */
  lemma {:induction false} SelectedInput(b: Bundle, opts: Options)
    ensures var i := PrepareInput(b, opts);
            && i.from == (if opts.from.Some? then opts.from.value else b.from)
            && i.to == (if opts.to.Some? then opts.to.value else b.to)
            && i.device == (if opts.device.Some? then opts.device else b.device)
            && i.issueTag == opts.issueTag && i.system == b.system && i.warnings == b.warnings
            && (forall s :: s in i.samples <==> s in b.samples && i.from <= s.ts <= i.to && (i.device.Some? ==> s.body.device == i.device.value))
            && (forall t :: t in i.transitions <==>
                  t in b.transitions && i.from <= t.ts <= i.to && (i.device.Some? ==> t.body.device == i.device.value))
            && (forall v :: v in i.values <==> v in b.values && i.from <= v.ts <= i.to)
            && (forall t :: t in i.contextTransitions <==> t in b.contextTransitions && i.from <= t.ts <= i.to)
            && (forall e :: e in i.journal <==> e in b.journal && i.from <= e.ts <= i.to)
            && (forall e :: e in i.contextJournal <==> e in b.contextJournal && i.from <= e.ts <= i.to)
  { }

  /** A cached summary is used exactly when it is of the selected window and device; else one is computed, unless nothing
      was sampled. */
  lemma {:induction false} SelectedSummary(b: Bundle, opts: Options)
    ensures var i := PrepareInput(b, opts);
            if b.summary.Some? && b.summary.value.from == i.from && b.summary.value.to == i.to && b.device == i.device
            then i.summary == b.summary
            else if i.samples == [] then i.summary.None?
            else i.summary == Some(SummaryOf(i.from, i.to, i.samples, i.transitions, |i.contextTransitions|))
  { }

  // ---- the newest value of a key ----

  /** The i-th row holds the key, no row of the key is newer, and no later one is as new. */
  ghost predicate NewestOf(values: seq<Row<ValueRow>>, key: string, i: int) {
    && 0 <= i < |values| && values[i].body.key == key
    && (forall j :: 0 <= j < |values| && values[j].body.key == key ==> values[j].ts <= values[i].ts)
    && (forall j :: i < j < |values| && values[j].body.key == key ==> values[j].ts < values[i].ts)
  }

  /** What the newest row of the key holds, none exactly when the key has no row. */
  ghost predicate Newest(values: seq<Row<ValueRow>>, key: string, v: Option<ValueRow>) {
    if v.Some? then exists i :: NewestOf(values, key, i) && values[i].body == v.value
    else forall i :: 0 <= i < |values| ==> values[i].body.key != key
  }

  lemma {:induction false} NewestIsLatest(values: seq<Row<ValueRow>>, key: string, i: int)
    requires NewestOf(values, key, i)
    ensures LatestRow(values, key) == Some(values[i])
  {
    var n := |values| - 1;
    if i < n {
      NewestIsLatest(values[..n], key, i);
    } else {
      LatestIsNewest(Select(values[..n], KeyIs(key)));
    }
  }

  lemma {:induction false} NewestExists(values: seq<Row<ValueRow>>, key: string) returns (v: Option<ValueRow>)
    ensures Newest(values, key, v)
  {
    if r :| 0 <= r < |values| && values[r].body.key == key {
      LatestRowIsNewest(values, key, r);
      var i :| NewestOf(values, key, i);
      v := Some(values[i].body);
    } else {
      v := None;
    }
  }

  lemma {:induction false} LatestRowIsNewest(values: seq<Row<ValueRow>>, key: string, r: nat)
    requires r < |values| && values[r].body.key == key
    ensures exists i :: NewestOf(values, key, i)
  {
    var n := |values| - 1;
    if k :| 0 <= k < n && values[k].body.key == key {
      LatestRowIsNewest(values[..n], key, k);
      var i :| NewestOf(values[..n], key, i);
      if values[n].body.key == key && values[n].ts >= values[i].ts {
        assert NewestOf(values, key, n);
      } else {
        assert NewestOf(values, key, i);
      }
    } else {
      assert NewestOf(values, key, n);
    }
  }

  /** The three readers look at the newest row of the key, the last one among equals, and give nothing when there is
      none or it lacks the field. */
  lemma {:induction false} LatestMeaning(values: seq<Row<ValueRow>>, key: string, v: Option<ValueRow>)
    requires Newest(values, key, v)
    ensures LatestNum(values, key) == if v.Some? then v.value.num else None
    ensures LatestStr(values, key) == if v.Some? then v.value.str else None
    ensures LatestBool(values, key) == if v.None? then None
                                       else if v.value.num.Some? then Some(v.value.num.value >= 0.5)
                                       else if v.value.str.Some? then Some(SaysYes(v.value.str.value))
                                       else None
  {
    if v.Some? {
      var i :| NewestOf(values, key, i) && values[i].body == v.value;
      NewestIsLatest(values, key, i);
      if v.value.str.Some? { TruthyMeaning(v.value.str.value); }
    } else {
      SelectNone(values, KeyIs(key));
    }
  }

  // ---- words for yes ----

  /** The same letters, capital or small. */
  predicate SameLetters(s: string, word: string) {
    |s| == |word| && forall k :: 0 <= k < |s| ==>
      s[k] == word[k] || ('A' <= s[k] <= 'Z' && s[k] as int + 32 == word[k] as int)
  }

  predicate SaysYes(s: string) {
    SameLetters(s, "true") || SameLetters(s, "1") || SameLetters(s, "yes") || SameLetters(s, "on") || SameLetters(s, "connected")
  }

  lemma {:induction false} LoweredIs(s: string, word: string)
    requires forall k :: 0 <= k < |word| ==> !('A' <= word[k] <= 'Z')
    ensures seq(|s|, i requires 0 <= i < |s| => Lower(s[i])) == word <==> SameLetters(s, word)
  {
    var lower := seq(|s|, i requires 0 <= i < |s| => Lower(s[i]));
    forall k | 0 <= k < |s| && k < |word|
      ensures lower[k] == word[k] <==> s[k] == word[k] || ('A' <= s[k] <= 'Z' && s[k] as int + 32 == word[k] as int)
    { }
    if lower == word {
      forall k | 0 <= k < |s| ensures s[k] == word[k] || ('A' <= s[k] <= 'Z' && s[k] as int + 32 == word[k] as int) {
        assert lower[k] == word[k];
      }
    }
  }

  lemma {:induction false} TruthyMeaning(s: string)
    ensures Truthy(s) <==> SaysYes(s)
  {
    LoweredIs(s, "true");
    LoweredIs(s, "1");
    LoweredIs(s, "yes");
    LoweredIs(s, "on");
    LoweredIs(s, "connected");
  }

  // ---- what is reported ----

  /** The ids of the rows a condition holds of, in their order. */
  ghost predicate IdsWhere<T>(ids: seq<int>, rows: seq<Row<T>>, p: Row<T> -> bool) {
    && |ids| == |Positions(rows, p)|
    && forall k :: 0 <= k < |ids| ==> ids[k] == rows[Positions(rows, p)[k]].id
  }

  ghost function Naming(flags: set<string>): Row<Transition> -> bool {
    (t: Row<Transition>) => t.body.flag in flags
  }

  ghost function Under(prefixes: set<string>): Row<ContextTransition> -> bool {
    (t: Row<ContextTransition>) => exists p :: p in prefixes && p <= t.body.key
  }

  /** The findings have one of this id exactly when it fires, then with this severity and confidence, and it names the
      transitions of these flags and those of the keys under these prefixes. */
  ghost predicate Lists(findings: seq<Finding>, i: Input, id: string, fires: bool, severity: Severity, confidence: Confidence,
                        flags: set<string>, prefixes: set<string>) {
    && (fires <==> exists x :: x in findings && x.id == id)
    && forall x :: x in findings && x.id == id ==>
         && x.severity == severity && x.confidence == confidence
         && IdsWhere(x.throttleIds, i.transitions, Naming(flags)) && IdsWhere(x.contextIds, i.contextTransitions, Under(prefixes))
  }

  ghost predicate Reported(i: Input, id: string, fires: bool, severity: Severity, confidence: Confidence,
                           flags: set<string>, prefixes: set<string>) {
    Lists(RunAnalysis(i).findings, i, id, fires, severity, confidence, flags, prefixes)
  }

  lemma {:induction false} SelectedIds<T>(rows: seq<Row<T>>, p: Row<T> -> bool, q: Row<T> -> bool)
    requires forall r :: r in rows ==> p(r) == q(r)
    ensures IdsWhere(Ids(Select(rows, p)), rows, q)
  {
    SelectSame(rows, p, q);
    SelectIsAt(rows, q);
  }

  lemma {:induction false} FlagIds(transitions: seq<Row<Transition>>, flags: set<string>)
    ensures IdsWhere(RelatedThrottleIds(transitions, flags), transitions, Naming(flags))
  {
    SelectedIds(transitions, Logs(flags), Naming(flags));
  }

  lemma {:induction false} KeyIds(transitions: seq<Row<ContextTransition>>, prefix: string)
    ensures IdsWhere(RelatedContextIds(transitions, prefix), transitions, Under({prefix}))
  {
    SelectedIds(transitions, KeyStarts(prefix), Under({prefix}));
  }

  lemma {:induction false} NoFlagIds(transitions: seq<Row<Transition>>)
    ensures IdsWhere([], transitions, Naming({}))
  {
    SelectNone(transitions, Naming({}));
    SelectIsAt(transitions, Naming({}));
  }

  lemma {:induction false} NoKeyIds(transitions: seq<Row<ContextTransition>>)
    ensures IdsWhere([], transitions, Under({}))
  {
    SelectNone(transitions, Under({}));
    SelectIsAt(transitions, Under({}));
  }

  lemma {:induction false} InFlatten(parts: seq<seq<Finding>>, x: Finding)
    ensures x in Flatten(parts) <==> exists k :: 0 <= k < |parts| && x in parts[k]
  {
    if parts != [] {
      var n := |parts| - 1;
      InFlatten(parts[..n], x);
      if k :| 0 <= k < |parts| && x in parts[k] {
        assert k < n ==> x in parts[..n][k];
      }
    }
  }

  lemma {:induction false} InPart(parts: seq<seq<Finding>>, ids: seq<string>, k: nat, x: Finding)
    requires k < |parts| == |ids| && forall j :: 0 <= j < |ids| ==> Single(parts[j], ids[j])
    requires forall j :: 0 <= j < |ids| && ids[j] == ids[k] ==> j == k
    ensures x in Flatten(parts) && x.id == ids[k] <==> x in parts[k]
  {
    InFlatten(parts, x);
  }

  /** A report holds under an id what the one rule of that id gives. */
  lemma {:induction false} RankedUnder(i: Input, f: Facts, k: nat, x: Finding)
    requires k < 8
    ensures x in SortByRank(Findings(i, f)) && x.id == IDS[k] <==> x in Fired(i, f)[k]
  {
    var parts := Fired(i, f);
    SameMembers(SortByRank(Flatten(parts)), Flatten(parts));
    EachFiresOnce(i, f);
    IdsDiffer();
    InPart(parts, IDS, k, x);
    assert x in SortByRank(Flatten(parts)) <==> x in Flatten(parts);
  }

  /** So a rule that gives one finding or none is listed as it fired. */
  lemma {:induction false} ListsRule(i: Input, f: Facts, k: nat, x: Finding, fires: bool, flags: set<string>, prefixes: set<string>)
    requires k < 8 && Fired(i, f)[k] == (if fires then [x] else []) && x.id == IDS[k]
    requires IdsWhere(x.throttleIds, i.transitions, Naming(flags)) && IdsWhere(x.contextIds, i.contextTransitions, Under(prefixes))
    ensures Lists(SortByRank(Findings(i, f)), i, IDS[k], fires, x.severity, x.confidence, flags, prefixes)
  {
    RankedUnder(i, f, k, x);
    forall y | y in SortByRank(Findings(i, f)) && y.id == IDS[k] ensures fires && y == x { RankedUnder(i, f, k, y); }
  }

  /** The report ranks what the rules give on the evidence and the facts. */
  lemma {:induction false} ReportsRanked(i: Input, f: Facts, id: string, fires: bool, severity: Severity, confidence: Confidence,
                                         flags: set<string>, prefixes: set<string>)
    requires f == FactsOf(i) && Lists(SortByRank(Findings(Evidence(i), f)), Evidence(i), id, fires, severity, confidence, flags, prefixes)
    ensures Reported(i, id, fires, severity, confidence, flags, prefixes)
  { }

  // ---- the facts the rules share ----

  lemma {:induction false} SharePct(summary: Option<Summary>, samples: seq<Row<Sample>>, flag: string)
    requires summary.None? || Find(summary.value.activity, flag).None?
    ensures FlagActivePct(summary, samples, flag) == if samples == [] then None else Some(Pct(|Select(samples, Carries(flag))|, |samples|))
  { }

  ghost function CarrierCount(samples: seq<Row<Sample>>, flag: string): nat {
    Count(samples, (s: Row<Sample>) => flag in s.body.flags)
  }

  /** Without an entry of the flag it is the share of the samples that carry it. */
  lemma {:induction false} UnlistedPct(summary: Option<Summary>, samples: seq<Row<Sample>>, flag: string)
    requires summary.None? || forall a :: a in summary.value.activity ==> a.flag != flag
    ensures FlagActivePct(summary, samples, flag) == if samples == [] then None else Some(Pct(CarrierCount(samples, flag), |samples|))
  {
    if summary.Some? { NotInActivity(summary.value.activity, flag); }
    SharePct(summary, samples, flag);
    CountsSame(samples, Carries(flag), (s: Row<Sample>) => flag in s.body.flags);
  }

  /** Else the summary's first entry of the flag counts. */
  lemma {:induction false} ListedPct(summary: Summary, samples: seq<Row<Sample>>, flag: string, k: nat)
    requires k < |summary.activity| && summary.activity[k].flag == flag && forall j :: 0 <= j < k ==> summary.activity[j].flag != flag
    ensures FlagActivePct(Some(summary), samples, flag) == Some(summary.activity[k].activePct)
  {
    FoundInActivity(summary.activity, flag, k);
  }

  /** A part has throttle bits when some sample lists a flag or has a bit set. */
  lemma {:induction false} AmdMeaning(i: Input)
    ensures FactsOf(i).amd <==> exists s :: s in i.samples && (s.body.flags != [] || s.body.status % 0x1_0000_0000_0000_0000 != 0)
    ensures FactsOf(i).splPct == if FactsOf(i).amd then FlagActivePct(i.summary, i.samples, "SPL") else None
  { }

  /** Power and temperature come from the summary where it has them, else from the samples. */
  lemma {:induction false} PowerFacts(i: Input)
    ensures var f := FactsOf(i);
            && (i.summary.Some? && i.summary.value.maxPower.Some? ==> f.maxPower == i.summary.value.maxPower)
            && (i.summary.Some? && i.summary.value.avgPower.Some? ==> f.avgPower == i.summary.value.avgPower)
            && (i.summary.Some? && i.summary.value.maxTemperature.Some? ==> f.maxTemperature == i.summary.value.maxTemperature)
            && (i.summary.None? || i.summary.value.maxPower.None? ==> f.maxPower == MaxPower(i.samples))
            && (i.summary.None? || i.summary.value.avgPower.None? ==> f.avgPower == AvgPower(i.samples))
            && (i.summary.None? || i.summary.value.maxTemperature.None? ==> f.maxTemperature == MaxTemperature(i.samples))
  { }

  /** Nine of ten samples list both flags and nine of ten raw words are bits 9 and 10 alone, over at least five samples. */
  ghost predicate LooksSticky(samples: seq<Row<Sample>>) {
    var raws := Count(samples, (s: Row<Sample>) => s.body.raw.Some?);
    && |samples| >= 5
    && 10 * Count(samples, (s: Row<Sample>) => "PROCHOT_CPU" in s.body.flags && "PROCHOT_GPU" in s.body.flags) >= 9 * |samples|
    && raws > 0
    && 10 * Count(samples, (s: Row<Sample>) => s.body.raw == Some(512 + 1024)) >= 9 * raws
  }

  lemma {:induction false} AtLeastQuotient(n: nat, d: nat, k: nat)
    requires d > 0
    ensures n / d >= k <==> n >= k * d
  {
    Division.QuotientBounds(n, d);
    Division.MulOrder(n / d, k, d);
    Division.MulOrder(k, n / d + 1, d);
  }

  lemma {:induction false} StickyMeaning(samples: seq<Row<Sample>>)
    ensures ProchotSuspect(samples) <==> LooksSticky(samples)
  {
    if |samples| >= 5 {
      var both := |Select(samples, BothProchot)|;
      CountsSame(samples, BothProchot, (s: Row<Sample>) => "PROCHOT_CPU" in s.body.flags && "PROCHOT_GPU" in s.body.flags);
      AtLeastQuotient(both * 100, |samples|, 90);
      var raws := Select(samples, HasRaw);
      CountsSame(samples, HasRaw, (s: Row<Sample>) => s.body.raw.Some?);
      SelectTwice(samples, HasRaw, LegacyRaw, LegacyRaw);
      CountsSame(samples, LegacyRaw, (s: Row<Sample>) => s.body.raw == Some(512 + 1024));
      if raws != [] { PctAtLeast(|Select(raws, LegacyRaw)|, |raws|, 90); }
    }
  }

  lemma {:induction false} MaxPctMeaning(summary: Option<Summary>, samples: seq<Row<Sample>>, flags: seq<string>, bound: real)
    requires bound > 0.0
    ensures MaxPct(summary, samples, flags) >= bound <==> exists f :: f in flags && AtLeast(FlagActivePct(summary, samples, f), bound)
  {
    if flags != [] {
      var front, last := flags[..|flags| - 1], flags[|flags| - 1];
      MaxPctMeaning(summary, samples, front, bound);
      assert flags == front + [last];
      if AtLeast(FlagActivePct(summary, samples, last), bound) { assert last in flags; }
      if f :| f in front && AtLeast(FlagActivePct(summary, samples, f), bound) { assert f in flags; }
    }
  }

  /** A flag of the thermal family on 15 of 100 samples, without the PROCHOT flags while those look stuck, or 85 degrees. */
  ghost predicate RunsHot(i: Input) {
    var f := FactsOf(i);
    || (f.amd && exists flag :: AtLeast(FlagActivePct(i.summary, i.samples, flag), 15.0)
                  && (flag == "TEMP_HOTSPOT" || flag == "TEMP_CORE"
                      || (!LooksSticky(i.samples) && (flag == "PROCHOT_CPU" || flag == "PROCHOT_GPU"))))
    || (f.maxTemperature.Some? && f.maxTemperature.value >= 85.0)
  }

  lemma {:induction false} HotFlagMeaning(i: Input, sticky: bool)
    requires sticky == (FactsOf(i).amd && LooksSticky(i.samples))
    ensures FactsOf(i).prochotSuspect == sticky
    ensures FactsOf(i).amd ==> FactsOf(i).thermalActive == MaxPct(i.summary, i.samples, ThermalFlags(sticky))
  {
    StickyMeaning(i.samples);
  }

  lemma {:induction false} HotMeaning(i: Input)
    ensures ThermalDominant(FactsOf(i)) <==> RunsHot(i)
  {
    var f, sticky := FactsOf(i), FactsOf(i).amd && LooksSticky(i.samples);
    HotFlagMeaning(i, sticky);
    MaxPctMeaning(i.summary, i.samples, ThermalFlags(sticky), 15.0);
  }

  /** The SPL limit on a tenth of the samples, or logged as reached. */
  ghost predicate SplReached(i: Input) {
    FactsOf(i).amd && (AtLeast(FlagActivePct(i.summary, i.samples, "SPL"), 10.0)
                       || exists t :: t in i.transitions && t.body.flag == "SPL" && t.body.newValue)
  }

  // ---- the eight rules ----

  ghost function FreqReadings(values: seq<Row<ValueRow>>): nat {
    Count(values, (v: Row<ValueRow>) => v.body.key == "cpu.cur_freq_min_mhz" && v.body.num.Some?)
  }

  ghost function FreqWithin(values: seq<Row<ValueRow>>, low: real, high: real): nat {
    Count(values, (v: Row<ValueRow>) => v.body.key == "cpu.cur_freq_min_mhz" && v.body.num.Some? && low <= v.body.num.value <= high)
  }

  lemma {:induction false} BandAtLeast(values: seq<Row<ValueRow>>, low: real, high: real, k: nat)
    ensures FreqBandPct(values, low, high).None? <==> FreqReadings(values) == 0
    ensures AtLeast(FreqBandPct(values, low, high), k as real)
       <==> FreqReadings(values) > 0 && 100 * FreqWithin(values, low, high) >= k * FreqReadings(values)
  {
    var inBand := (v: Row<ValueRow>) => v.body.key == "cpu.cur_freq_min_mhz" && v.body.num.Some? && low <= v.body.num.value <= high;
    CountsSame(values, IsMinFreq, (v: Row<ValueRow>) => v.body.key == "cpu.cur_freq_min_mhz" && v.body.num.Some?);
    var readings := Select(values, IsMinFreq);
    SelectTwice(values, IsMinFreq, InBand(low, high), inBand);
    SelectCounts(values, inBand);
    if readings != [] { PctAtLeast(|Select(readings, InBand(low, high))|, |readings|, k); }
  }

  /** Of the readings in the band of 545 MHz, or else in the one of 1400 MHz. */
  ghost predicate LockShare(values: seq<Row<ValueRow>>, percent: nat) {
    var n, low, high := FreqReadings(values), FreqWithin(values, 500.0, 620.0), FreqWithin(values, 1350.0, 1450.0);
    n > 0 && if 2 * low >= n then 100 * low >= percent * n else 2 * high >= n && 100 * high >= percent * n
  }

  lemma {:induction false} LockShares(values: seq<Row<ValueRow>>, pct: Option<real>)
    requires pct == if AtLeast(FreqBandPct(values, 500.0, 620.0), 50.0) then FreqBandPct(values, 500.0, 620.0)
                    else FreqBandPct(values, 1350.0, 1450.0)
    ensures LockShare(values, 50) <==> AtLeast(pct, 50.0)
    ensures LockShare(values, 80) <==> AtLeast(pct, 80.0)
  {
    BandAtLeast(values, 500.0, 620.0, 50);
    BandAtLeast(values, 500.0, 620.0, 80);
    BandAtLeast(values, 1350.0, 1450.0, 50);
    BandAtLeast(values, 1350.0, 1450.0, 80);
  }

  lemma {:induction false} CpuLockLists(i: Input, f: Facts)
    ensures var pct := if AtLeast(f.context.lowBand, 50.0) then f.context.lowBand else f.context.highBand;
            Lists(SortByRank(Findings(i, f)), i, "cpu_frequency_lock", AtLeast(pct, 50.0), Warn,
                  if AtLeast(pct, 80.0) then High else Medium, {}, {"cpu."})
  {
    var pct := if AtLeast(f.context.lowBand, 50.0) then f.context.lowBand else f.context.highBand;
    KeyIds(i.contextTransitions, "cpu.");
    NoFlagIds(i.transitions);
    var confidence := if AtLeast(pct, 80.0) then High else Medium;
    var x := Finding("cpu_frequency_lock", Warn, confidence, [], RelatedContextIds(i.contextTransitions, "cpu."));
    ListsRule(i, f, 0, x, AtLeast(pct, 50.0), {}, {"cpu."});
  }

  /** Half of the minimum-frequency readings in one of the two bands; four fifths make it certain. */
  lemma {:induction false} CpuLockRule(i: Input)
    ensures Reported(i, "cpu_frequency_lock", LockShare(i.values, 50), Warn, if LockShare(i.values, 80) then High else Medium, {}, {"cpu."})
  {
    var c := ContextOf(i.values);
    LockShares(i.values, if AtLeast(c.lowBand, 50.0) then c.lowBand else c.highBand);
    CpuLockLists(Evidence(i), FactsOf(i));
    ReportsRanked(i, FactsOf(i), "cpu_frequency_lock", LockShare(i.values, 50), Warn, if LockShare(i.values, 80) then High else Medium,
                  {}, {"cpu."});
  }

  /** Some PMF limit has a number. */
  ghost predicate Recorded(spl: Option<ValueRow>, sppt: Option<ValueRow>) {
    (spl.Some? && spl.value.num.Some?) || (sppt.Some? && sppt.value.num.Some?)
  }

  lemma {:induction false} PmfMeaning(values: seq<Row<ValueRow>>, spl: Option<ValueRow>, sppt: Option<ValueRow>)
    requires Newest(values, "pmf.spl_mw", spl) && Newest(values, "pmf.sppt_mw", sppt)
    ensures PmfPresent(ContextOf(values)) <==> Recorded(spl, sppt)
  {
    LatestMeaning(values, "pmf.spl_mw", spl);
    LatestMeaning(values, "pmf.sppt_mw", sppt);
  }

  lemma {:induction false} PmfLists(i: Input, f: Facts)
    ensures Lists(SortByRank(Findings(i, f)), i, "pmf_missing", PmfAbsent(f), Info, High, {}, {})
  {
    NoFlagIds(i.transitions);
    NoKeyIds(i.contextTransitions);
    ListsRule(i, f, 1, Finding("pmf_missing", Info, High, [], []), PmfAbsent(f), {}, {});
  }

  /** Neither PMF limit has a number, on a part with throttle bits. */
  lemma {:induction false} PmfRule(i: Input, spl: Option<ValueRow>, sppt: Option<ValueRow>)
    requires Newest(i.values, "pmf.spl_mw", spl) && Newest(i.values, "pmf.sppt_mw", sppt)
    ensures Reported(i, "pmf_missing", FactsOf(i).amd && !Recorded(spl, sppt), Info, High, {}, {})
  {
    PmfMeaning(i.values, spl, sppt);
    PmfLists(Evidence(i), FactsOf(i));
    ReportsRanked(i, FactsOf(i), "pmf_missing", FactsOf(i).amd && !Recorded(spl, sppt), Info, High, {}, {});
  }

  /** What the newest value of a switch says: a number of one half or more, or without a number a word for yes. */
  ghost predicate IsOnNow(v: Option<ValueRow>) {
    v.Some? && if v.value.num.Some? then v.value.num.value >= 0.5 else v.value.str.Some? && SaysYes(v.value.str.value)
  }

  lemma {:induction false} AcLists(i: Input, f: Facts)
    ensures Lists(SortByRank(Findings(i, f)), i, "adapter_or_ac_uncertain", f.context.ac != Some(true), Warn,
                  if f.context.ac.None? then Medium else High, {}, {"power."})
  {
    KeyIds(i.contextTransitions, "power.");
    NoFlagIds(i.transitions);
    var confidence := if f.context.ac.None? then Medium else High;
    var x := Finding("adapter_or_ac_uncertain", Warn, confidence, [], RelatedContextIds(i.contextTransitions, "power."));
    ListsRule(i, f, 2, x, f.context.ac != Some(true), {}, {"power."});
  }

  /** The newest charger value is missing or says no. */
  lemma {:induction false} AcRule(i: Input, ac: Option<ValueRow>)
    requires Newest(i.values, "power.ac_connected", ac)
    ensures Reported(i, "adapter_or_ac_uncertain", !IsOnNow(ac), Warn,
                     if ac.None? || (ac.value.num.None? && ac.value.str.None?) then Medium else High,
                     {}, {"power."})
  {
    LatestMeaning(i.values, "power.ac_connected", ac);
    var confidence := if ac.None? || (ac.value.num.None? && ac.value.str.None?) then Medium else High;
    AcLists(Evidence(i), FactsOf(i));
    ReportsRanked(i, FactsOf(i), "adapter_or_ac_uncertain", !IsOnNow(ac), Warn, confidence, {}, {"power."});
  }

  lemma {:induction false} StickyLists(i: Input, f: Facts)
    ensures Lists(SortByRank(Findings(i, f)), i, "prochot_suspect_legacy_status", f.prochotSuspect, Info, High, {}, {})
  {
    NoFlagIds(i.transitions);
    NoKeyIds(i.contextTransitions);
    ListsRule(i, f, 3, Finding("prochot_suspect_legacy_status", Info, High, [], []), f.prochotSuspect, {}, {});
  }

  lemma {:induction false} StickyRule(i: Input)
    ensures Reported(i, "prochot_suspect_legacy_status", FactsOf(i).amd && LooksSticky(i.samples), Info, High, {}, {})
  {
    StickyMeaning(i.samples);
    StickyLists(Evidence(i), FactsOf(i));
    ReportsRanked(i, FactsOf(i), "prochot_suspect_legacy_status", FactsOf(i).amd && LooksSticky(i.samples), Info, High, {}, {});
  }

  /** The thermal flags that count. */
  ghost function HotFlags(i: Input): set<string> {
    {"TEMP_HOTSPOT", "TEMP_CORE"} + if FactsOf(i).amd && LooksSticky(i.samples) then {} else {"PROCHOT_CPU", "PROCHOT_GPU"}
  }

  lemma {:induction false} ThermalLists(i: Input, f: Facts, flags: set<string>)
    requires flags == set x | x in ThermalFlags(f.prochotSuspect)
    ensures Lists(SortByRank(Findings(i, f)), i, "thermal_limit_shape", ThermalDominant(f), Important, Medium, flags, {})
  {
    FlagIds(i.transitions, flags);
    NoKeyIds(i.contextTransitions);
    var x := Finding("thermal_limit_shape", Important, Medium, RelatedThrottleIds(i.transitions, flags), []);
    ListsRule(i, f, 4, x, ThermalDominant(f), flags, {});
  }

  lemma {:induction false} ThermalRule(i: Input)
    ensures Reported(i, "thermal_limit_shape", RunsHot(i), Important, Medium, HotFlags(i), {})
  {
    HotMeaning(i);
    StickyMeaning(i.samples);
    ThermalLists(Evidence(i), FactsOf(i), HotFlags(i));
    ReportsRanked(i, FactsOf(i), "thermal_limit_shape", RunsHot(i), Important, Medium, HotFlags(i), {});
  }

  lemma {:induction false} PowerLimitLists(i: Input, f: Facts)
    ensures Lists(SortByRank(Findings(i, f)), i, "power_limit_without_thermal", SplAsserted(i, f) && !ThermalDominant(f), Important, Medium,
                  {"SPL", "SPPT", "FPPT", "STAPM"}, {})
  {
    FlagIds(i.transitions, {"SPL", "SPPT", "FPPT", "STAPM"});
    NoKeyIds(i.contextTransitions);
    var x := Finding("power_limit_without_thermal", Important, Medium, RelatedThrottleIds(i.transitions, {"SPL", "SPPT", "FPPT", "STAPM"}), []);
    ListsRule(i, f, 5, x, SplAsserted(i, f) && !ThermalDominant(f), {"SPL", "SPPT", "FPPT", "STAPM"}, {});
  }

  /** SPL was reached and nothing ran hot. */
  lemma {:induction false} PowerLimitRule(i: Input)
    ensures Reported(i, "power_limit_without_thermal", SplReached(i) && !RunsHot(i), Important, Medium, {"SPL", "SPPT", "FPPT", "STAPM"}, {})
  {
    HotMeaning(i);
    PowerLimitLists(Evidence(i), FactsOf(i));
    ReportsRanked(i, FactsOf(i), "power_limit_without_thermal", SplReached(i) && !RunsHot(i), Important, Medium,
                  {"SPL", "SPPT", "FPPT", "STAPM"}, {});
  }

  ghost function RowsOf(values: seq<Row<ValueRow>>, key: string): nat {
    Count(values, (v: Row<ValueRow>) => v.body.key == key)
  }

  ghost function RowsOn(values: seq<Row<ValueRow>>, key: string): nat {
    Count(values, (v: Row<ValueRow>) => v.body.key == key && SwitchedOn(v.body))
  }

  /** The switch is on in half of its rows. */
  ghost predicate MostlyOn(values: seq<Row<ValueRow>>, key: string) {
    RowsOf(values, key) > 0 && 2 * RowsOn(values, key) >= RowsOf(values, key)
  }

  /** A number within one half of 1, or a word for yes. */
  predicate SwitchedOn(v: ValueRow) {
    (v.num.Some? && 0.5 < v.num.value < 1.5) || (v.str.Some? && SaysYes(v.str.value))
  }

  lemma {:induction false} OnRows(values: seq<Row<ValueRow>>, key: string)
    ensures |Select(values, KeyIs(key))| == RowsOf(values, key)
    ensures |Select(Select(values, KeyIs(key)), IsOn)| == RowsOn(values, key)
  {
    var both := (v: Row<ValueRow>) => v.body.key == key && SwitchedOn(v.body);
    CountsSame(values, KeyIs(key), (v: Row<ValueRow>) => v.body.key == key);
    forall v | v in values ensures both(v) == (KeyIs(key)(v) && IsOn(v)) {
      if v.body.str.Some? { TruthyMeaning(v.body.str.value); }
    }
    SelectTwice(values, KeyIs(key), IsOn, both);
    SelectCounts(values, both);
  }

  lemma {:induction false} OnPctIs(values: seq<Row<ValueRow>>, key: string)
    ensures OnPct(values, key) == if RowsOf(values, key) == 0 then None else Some(Pct(RowsOn(values, key), RowsOf(values, key)))
  {
    OnRows(values, key);
  }

  lemma {:induction false} OnPctMeaning(values: seq<Row<ValueRow>>, key: string)
    ensures AtLeast(OnPct(values, key), 50.0) <==> MostlyOn(values, key)
    ensures OnPct(values, key).None? <==> RowsOf(values, key) == 0
    ensures OnPct(values, key).Some? ==> OnPct(values, key).value * RowsOf(values, key) as real == 100.0 * RowsOn(values, key) as real
  {
    OnPctIs(values, key);
    PctIsShare(RowsOn(values, key), RowsOf(values, key));
    if RowsOf(values, key) > 0 { PctAtLeast(RowsOn(values, key), RowsOf(values, key), 50); }
  }

  // ---- the power cap ----

  /** The six signs of the power cap. */
  ghost predicate DgpuAsleep(i: Input, status: Option<ValueRow>) {
    MostlyOn(i.values, "gpu_power.dgpu_runtime_suspended")
    || (status.Some? && (status.value.str == Some("suspended") || status.value.str == Some("inactive")))
  }

  ghost predicate LowPower(i: Input) {
    FactsOf(i).maxPower.Some? && FactsOf(i).maxPower.value <= 45_000
  }

  ghost predicate LowLimit(spl: Option<ValueRow>) {
    spl.Some? && spl.value.num.Some? && spl.value.num.value <= 40_000.0
  }

  function One(b: bool): nat {
    if b then 1 else 0
  }

  ghost function Signs(i: Input, status: Option<ValueRow>, ac: Option<ValueRow>, spl: Option<ValueRow>): nat {
    One(DgpuAsleep(i, status)) + One(SplReached(i)) + One(LowPower(i)) + One(IsOnNow(ac)) + One(LowLimit(spl)) + One(!RunsHot(i))
  }

  /** The signs as the facts show them. */
  ghost predicate Shown(i: Input, f: Facts, asleep: bool, spl: bool, low: bool, ac: bool, limit: bool, hot: bool) {
    && asleep == (AtLeast(f.context.suspended, 50.0) || f.context.dgpuStatus == Some("suspended") || f.context.dgpuStatus == Some("inactive"))
    && spl == SplAsserted(i, f) && low == (f.maxPower.Some? && f.maxPower.value <= 45_000) && ac == (f.context.ac == Some(true))
    && limit == (f.context.splMw.Some? && f.context.splMw.value <= 40_000.0) && hot == ThermalDominant(f)
  }

  lemma {:induction false} ScoreCounts(i: Input, f: Facts, asleep: bool, spl: bool, low: bool, ac: bool, limit: bool, hot: bool)
    requires Shown(i, f, asleep, spl, low, ac, limit, hot)
    ensures Score(i, f) == One(asleep) + One(spl) + One(low) + One(ac) + One(limit) + One(!hot)
  { }

  lemma {:induction false} AsleepMeaning(values: seq<Row<ValueRow>>, status: Option<ValueRow>)
    requires Newest(values, "gpu_power.dgpu_runtime_status", status)
    ensures var c := ContextOf(values);
            (AtLeast(c.suspended, 50.0) || c.dgpuStatus == Some("suspended") || c.dgpuStatus == Some("inactive"))
            <==> MostlyOn(values, "gpu_power.dgpu_runtime_suspended")
                 || (status.Some? && (status.value.str == Some("suspended") || status.value.str == Some("inactive")))
  {
    LatestMeaning(values, "gpu_power.dgpu_runtime_status", status);
    OnPctMeaning(values, "gpu_power.dgpu_runtime_suspended");
  }

  lemma {:induction false} SwitchesMeaning(values: seq<Row<ValueRow>>, ac: Option<ValueRow>, spl: Option<ValueRow>)
    requires Newest(values, "power.ac_connected", ac) && Newest(values, "pmf.spl_mw", spl)
    ensures var c := ContextOf(values);
            && (c.ac == Some(true) <==> IsOnNow(ac))
            && (c.splMw.Some? && c.splMw.value <= 40_000.0 <==> LowLimit(spl))
  {
    LatestMeaning(values, "power.ac_connected", ac);
    LatestMeaning(values, "pmf.spl_mw", spl);
  }

  lemma {:induction false} ContextSigns(i: Input, status: Option<ValueRow>, ac: Option<ValueRow>, spl: Option<ValueRow>, c: ContextFacts)
    requires Newest(i.values, "gpu_power.dgpu_runtime_status", status) && c == ContextOf(i.values)
    requires Newest(i.values, "power.ac_connected", ac) && Newest(i.values, "pmf.spl_mw", spl)
    ensures DgpuAsleep(i, status) <==> AtLeast(c.suspended, 50.0) || c.dgpuStatus == Some("suspended") || c.dgpuStatus == Some("inactive")
    ensures IsOnNow(ac) <==> c.ac == Some(true)
    ensures LowLimit(spl) <==> c.splMw.Some? && c.splMw.value <= 40_000.0
  {
    AsleepMeaning(i.values, status);
    SwitchesMeaning(i.values, ac, spl);
  }

  lemma {:induction false} SampleSigns(i: Input, f: Facts)
    requires f == FactsOf(i)
    ensures f.context == ContextOf(i.values)
    ensures SplReached(i) <==> SplAsserted(Evidence(i), f)
    ensures LowPower(i) <==> f.maxPower.Some? && f.maxPower.value <= 45_000
    ensures RunsHot(i) <==> ThermalDominant(f)
  {
    HotMeaning(i);
  }

  lemma {:induction false} ScoreOf(i: Input, f: Facts, status: Option<ValueRow>, ac: Option<ValueRow>, spl: Option<ValueRow>)
    requires Shown(Evidence(i), f, DgpuAsleep(i, status), SplReached(i), LowPower(i), IsOnNow(ac), LowLimit(spl), RunsHot(i))
    ensures Score(Evidence(i), f) == Signs(i, status, ac, spl)
  {
    ScoreCounts(Evidence(i), f, DgpuAsleep(i, status), SplReached(i), LowPower(i), IsOnNow(ac), LowLimit(spl), RunsHot(i));
  }

  lemma {:induction false} SignsShown(i: Input, f: Facts, status: Option<ValueRow>, ac: Option<ValueRow>, spl: Option<ValueRow>)
    requires Newest(i.values, "gpu_power.dgpu_runtime_status", status) && f == FactsOf(i)
    requires Newest(i.values, "power.ac_connected", ac) && Newest(i.values, "pmf.spl_mw", spl)
    ensures Shown(Evidence(i), f, DgpuAsleep(i, status), SplReached(i), LowPower(i), IsOnNow(ac), LowLimit(spl), RunsHot(i))
  {
    SampleSigns(i, f);
    ContextSigns(i, status, ac, spl, f.context);
  }

  lemma {:induction false} ScoreMeaning(i: Input, status: Option<ValueRow>, ac: Option<ValueRow>, spl: Option<ValueRow>)
    requires Newest(i.values, "gpu_power.dgpu_runtime_status", status)
    requires Newest(i.values, "power.ac_connected", ac) && Newest(i.values, "pmf.spl_mw", spl)
    ensures Score(Evidence(i), FactsOf(i)) == Signs(i, status, ac, spl)
  {
    SignsShown(i, FactsOf(i), status, ac, spl);
    ScoreOf(i, FactsOf(i), status, ac, spl);
  }

  lemma {:induction false} PowerCapLists(i: Input, f: Facts, score: nat, recorded: bool)
    requires Score(i, f) == score && PmfPresent(f.context) == recorded
    ensures Lists(SortByRank(Findings(i, f)), i, "framework_146_shape", f.amd && score >= 4, Important,
                  if score >= 5 && recorded then High else Medium, {"SPL", "PROCHOT_CPU"}, {"gpu_power."})
  {
    FlagIds(i.transitions, {"SPL", "PROCHOT_CPU"});
    KeyIds(i.contextTransitions, "gpu_power.");
    var x := Finding("framework_146_shape", Important, if score >= 5 && recorded then High else Medium,
                     RelatedThrottleIds(i.transitions, {"SPL", "PROCHOT_CPU"}), RelatedContextIds(i.contextTransitions, "gpu_power."));
    ListsRule(i, f, 6, x, f.amd && score >= 4, {"SPL", "PROCHOT_CPU"}, {"gpu_power."});
  }

  /** Four of six signs on a part with throttle bits; five with a PMF limit on record make it certain. */
  lemma {:induction false} PowerCapRule(i: Input, status: Option<ValueRow>, ac: Option<ValueRow>, spl: Option<ValueRow>, sppt: Option<ValueRow>)
    requires Newest(i.values, "gpu_power.dgpu_runtime_status", status) && Newest(i.values, "power.ac_connected", ac)
    requires Newest(i.values, "pmf.spl_mw", spl) && Newest(i.values, "pmf.sppt_mw", sppt)
    ensures Reported(i, "framework_146_shape", FactsOf(i).amd && Signs(i, status, ac, spl) >= 4, Important,
                     if Signs(i, status, ac, spl) >= 5 && Recorded(spl, sppt) then High else Medium,
                     {"SPL", "PROCHOT_CPU"}, {"gpu_power."})
  {
    ScoreMeaning(i, status, ac, spl);
    PmfMeaning(i.values, spl, sppt);
    PowerCapLists(Evidence(i), FactsOf(i), Signs(i, status, ac, spl), Recorded(spl, sppt));
    ReportsRanked(i, FactsOf(i), "framework_146_shape", FactsOf(i).amd && Signs(i, status, ac, spl) >= 4, Important,
                  if Signs(i, status, ac, spl) >= 5 && Recorded(spl, sppt) then High else Medium, {"SPL", "PROCHOT_CPU"}, {"gpu_power."});
  }

  lemma {:induction false} SleepLists(i: Input, f: Facts, prefixes: set<string>)
    requires prefixes == {"system.", "gpu_power.", "profile."}
    ensures Lists(SortByRank(Findings(i, f)), i, "sleep_wake_correlation", Count(i.contextTransitions, Under(prefixes)) >= 2, Info, Medium,
                  {}, prefixes)
  {
    SelectedIds(i.contextTransitions, SleepRelated, Under(prefixes));
    CountsSame(i.contextTransitions, SleepRelated, Under(prefixes));
    NoFlagIds(i.transitions);
    var x := Finding("sleep_wake_correlation", Info, Medium, [], Ids(Select(i.contextTransitions, SleepRelated)));
    ListsRule(i, f, 7, x, Count(i.contextTransitions, Under(prefixes)) >= 2, {}, prefixes);
  }

  /** Two system, GPU-power or profile transitions. */
  lemma {:induction false} SleepRule(i: Input)
    ensures Reported(i, "sleep_wake_correlation", Count(i.contextTransitions, Under({"system.", "gpu_power.", "profile."})) >= 2,
                     Info, Medium, {}, {"system.", "gpu_power.", "profile."})
  {
    SleepLists(Evidence(i), FactsOf(i), {"system.", "gpu_power.", "profile."});
    ReportsRanked(i, FactsOf(i), "sleep_wake_correlation", Count(i.contextTransitions, Under({"system.", "gpu_power.", "profile."})) >= 2,
                  Info, Medium, {}, {"system.", "gpu_power.", "profile."});
  }

  lemma {:induction false} LockedMeaning(i: Input)
    ensures Locked(FactsOf(i)) <==> LockShare(i.values, 50)
  {
    var c := ContextOf(i.values);
    LockShares(i.values, if AtLeast(c.lowBand, 50.0) then c.lowBand else c.highBand);
  }

  /** The verdict, in the figures of the rules. */
  lemma {:induction false} VerdictInFigures(i: Input, status: Option<ValueRow>, ac: Option<ValueRow>, spl: Option<ValueRow>)
    requires Newest(i.values, "gpu_power.dgpu_runtime_status", status)
    requires Newest(i.values, "power.ac_connected", ac) && Newest(i.values, "pmf.spl_mw", spl)
    ensures var verdict, capped := RunAnalysis(i).verdict, FactsOf(i).amd && Signs(i, status, ac, spl) >= 4;
            && (verdict == Framework146 <==> capped)
            && (verdict == FrequencyLock <==> !capped && LockShare(i.values, 50))
            && (verdict == Thermal <==> !capped && !LockShare(i.values, 50) && RunsHot(i))
            && (verdict == NoPattern <==> RunAnalysis(i).findings == [])
  {
    VerdictMeaning(i);
    ScoreMeaning(i, status, ac, spl);
    LockedMeaning(i);
    HotMeaning(i);
    assert |RunAnalysis(i).findings| == |multiset(SortByRank(Findings(Evidence(i), FactsOf(i))))|;
    assert |Findings(Evidence(i), FactsOf(i))| == |multiset(Findings(Evidence(i), FactsOf(i)))|;
  }

  /** The warning a summary of the tables adds: half of the minimum-frequency readings in a band. */
  lemma {:induction false} CpuWarningsMeaning(values: seq<Row<ValueRow>>)
    ensures var n, low, high := FreqReadings(values), FreqWithin(values, 500.0, 620.0), FreqWithin(values, 1350.0, 1450.0);
            CpuWarnings(values) == if n > 0 && 2 * low >= n then [CpuLock545] else if n > 0 && 2 * high >= n then [CpuLock1400] else []
  {
    BandAtLeast(values, 500.0, 620.0, 50);
    BandAtLeast(values, 1350.0, 1450.0, 50);
  }

  // ---- order, warnings and key metrics ----

  /** Findings are ranked by severity first and by confidence within a severity. */
  lemma {:induction false} RankOrder(a: Finding, b: Finding)
    ensures a.severity.Important? && !b.severity.Important? ==> Rank(a) > Rank(b)
    ensures a.severity.Warn? && b.severity.Info? ==> Rank(a) > Rank(b)
    ensures a.severity == b.severity && a.confidence.High? && !b.confidence.High? ==> Rank(a) > Rank(b)
    ensures a.severity == b.severity && a.confidence.Medium? && b.confidence.Low? ==> Rank(a) > Rank(b)
    ensures a.severity == b.severity && a.confidence == b.confidence ==> Rank(a) == Rank(b)
  { }

  lemma {:induction false} InFour<T>(a: seq<T>, b: seq<T>, c: seq<T>, d: seq<T>, x: T)
    ensures x in a + b + c + d <==> x in a || x in b || x in c || x in d
  { }

  lemma {:induction false} FromTheExport(warnings: seq<ExportWarning>, x: ReportWarning)
    ensures x in ExportWarnings(warnings) <==> x.FromExport? && x.w in warnings
  {
    if x.FromExport? {
      if k :| 0 <= k < |warnings| && warnings[k] == x.w { assert ExportWarnings(warnings)[k] == x; }
    }
  }

  lemma {:induction false} WarnedOfInput(i: Input, x: ReportWarning)
    ensures x in InputWarnings(i) <==>
              || x in ExportWarnings(i.warnings) || (|i.samples| < 5 && x == FewSamples(|i.samples|))
              || (i.system.None? && x == NoSystem) || (Powerless(i.samples) && x == NoPower)
  {
    InFour(ExportWarnings(i.warnings), When(|i.samples| < 5, FewSamples(|i.samples|)), When(i.system.None?, NoSystem),
           When(Powerless(i.samples), NoPower), x);
  }

  lemma {:induction false} WarnedByRules(i: Input, f: Facts, findings: seq<Finding>, x: ReportWarning)
    ensures x in RuleWarnings(i, f, findings) <==>
              || (!f.amd && i.samples != [] && x == NoAmd)
              || (PmfAbsent(f) && NothingFromPmf(i.values) && x == PmfMissing) || (f.prochotSuspect && x == Sticky)
              || (i.issueTag == Some("framework-146") && !Found(findings, "framework_146_shape") && x == TagMismatch)
  {
    InFour(When(!f.amd && i.samples != [], NoAmd), When(PmfAbsent(f) && NothingFromPmf(i.values), PmfMissing),
           When(f.prochotSuspect, Sticky),
           When(i.issueTag == Some("framework-146") && !Found(findings, "framework_146_shape"), TagMismatch), x);
  }

  /** Each warning is given exactly when its condition holds. */
  lemma {:induction false} WarnedWhen(i: Input, f: Facts, findings: seq<Finding>, x: ReportWarning)
    ensures x in ReportWarnings(i, f, findings) <==> match x
              case FromExport(w) => w in i.warnings
              case FewSamples(n) => n == |i.samples| < 5
              case NoSystem => i.system.None?
              case NoPower => i.samples != [] && forall s :: s in i.samples ==> s.body.apuPower.None?
              case NoAmd => !f.amd && i.samples != []
              case PmfMissing => PmfAbsent(f) && forall v :: v in i.values ==> v.body.source != "pmf" && !("pmf." <= v.body.key)
              case Sticky => f.prochotSuspect
              case TagMismatch => i.issueTag == Some("framework-146") && !Found(findings, "framework_146_shape")
  {
    FromTheExport(i.warnings, x);
    WarnedOfInput(i, x);
    WarnedByRules(i, f, findings, x);
  }

  /** Findings are what the rules give, in firing order before they are ranked. */
  lemma {:induction false} FiringOrder(i: Input, f: Facts)
    ensures Findings(i, f) == CpuLock(i, f) + NoPmfLimits(f) + AcUncertain(i, f) + ProchotLegacy(f) + ThermalShape(i, f)
                              + PowerLimit(i, f) + PowerCap(i, f) + SleepWake(i)
  {
    FlattenEight(CpuLock(i, f), NoPmfLimits(f), AcUncertain(i, f), ProchotLegacy(f), ThermalShape(i, f), PowerLimit(i, f), PowerCap(i, f), SleepWake(i));
  }

  /** The rules see everything but the summary and the journal. */
  lemma {:induction false} EvidenceKeeps(i: Input)
    ensures var e := Evidence(i);
            && e.from == i.from && e.to == i.to && e.device == i.device && e.issueTag == i.issueTag && e.warnings == i.warnings
            && e.samples == i.samples && e.transitions == i.transitions && e.values == i.values
            && e.contextTransitions == i.contextTransitions && e.system == i.system
  { }

  /** What a report is made of. */
  lemma {:induction false} ReportParts(i: Input)
    ensures var e, f, r := Evidence(i), FactsOf(i), RunAnalysis(i);
            && r.findings == SortByRank(Findings(e, f)) && r.warnings == ReportWarnings(e, f, Findings(e, f)) && r.metrics == KeyMetrics(f)
            && r.from == i.from && r.to == i.to && r.device == i.device
  { }

  lemma {:induction false} FlattenPush(parts: seq<seq<Finding>>, last: seq<Finding>)
    ensures Flatten(parts + [last]) == Flatten(parts) + last
  {
    assert (parts + [last])[..|parts|] == parts;
  }

  lemma {:induction false} FlattenFour(parts: seq<seq<Finding>>, a: seq<Finding>, b: seq<Finding>, c: seq<Finding>, d: seq<Finding>)
    ensures Flatten(parts + [a, b, c, d]) == Flatten(parts) + a + b + c + d
  {
    FlattenPush(parts, a);
    FlattenPush(parts + [a], b);
    assert parts + [a] + [b] == parts + [a, b];
    FlattenPush(parts + [a, b], c);
    assert parts + [a, b] + [c] == parts + [a, b, c];
    FlattenPush(parts + [a, b, c], d);
    assert parts + [a, b, c] + [d] == parts + [a, b, c, d];
  }

  lemma {:induction false} FlattenEight(a: seq<Finding>, b: seq<Finding>, c: seq<Finding>, d: seq<Finding>,
                                        e: seq<Finding>, f: seq<Finding>, g: seq<Finding>, h: seq<Finding>)
    ensures Flatten([a, b, c, d, e, f, g, h]) == a + b + c + d + e + f + g + h
  {
    FlattenFour([], a, b, c, d);
    assert [] + [a, b, c, d] == [a, b, c, d] && Flatten([]) + a == a;
    FlattenFour([a, b, c, d], e, f, g, h);
    assert [a, b, c, d] + [e, f, g, h] == [a, b, c, d, e, f, g, h];
  }

  /** The metric stands under its key exactly when there is a figure. */
  ghost predicate Shows(m: map<string, Metric>, key: string, figure: Option<Metric>) {
    if figure.Some? then key in m && m[key] == figure.value else key !in m
  }

  ghost function PowerMetric(p: Option<u32>): Option<Metric> {
    if p.Some? then Some(Power(p.value)) else None
  }

  ghost function RealMetric(x: Option<real>): Option<Metric> {
    if x.Some? then Some(Value(x.value)) else None
  }

  lemma {:induction false} AllShown(figures: seq<(string, Option<Metric>)>, k: nat)
    requires k < |figures| && forall i, j :: 0 <= i < j < |figures| ==> figures[i].0 != figures[j].0
    ensures Shows(Entered(figures), figures[k].0, figures[k].1)
  {
    var n := |figures| - 1;
    if k < n {
      AllShown(figures[..n], k);
    } else {
      OnlyEntered(figures[..n], figures[n].0);
    }
  }

  lemma {:induction false} OnlyEntered(figures: seq<(string, Option<Metric>)>, key: string)
    requires forall i :: 0 <= i < |figures| ==> figures[i].0 != key
    ensures key !in Entered(figures)
  {
    if figures != [] { OnlyEntered(figures[..|figures| - 1], key); }
  }

  lemma {:induction false} FigureKeysDiffer(f: Facts)
    ensures forall j, k :: 0 <= j < k < 11 ==> Figures(f)[j].0 != Figures(f)[k].0
  {
    var keys := ["max_apu_power_mw", "avg_apu_power_mw", "max_temperature_core_c", "spl_active_sample_pct", "dgpu_runtime_suspended_pct",
                 "ac_connected", "power_profile", "pmf_spl_mw", "cpu_cur_freq_min_mhz", "cpu_freq_545_band_pct", "cpu_freq_1400_band_pct"];
    assert forall k :: 0 <= k < 11 ==> Figures(f)[k].0 == keys[k];
    KeysDiffer(keys);
  }

  lemma {:induction false} KeysDiffer(keys: seq<string>)
    requires keys == ["max_apu_power_mw", "avg_apu_power_mw", "max_temperature_core_c", "spl_active_sample_pct", "dgpu_runtime_suspended_pct",
                      "ac_connected", "power_profile", "pmf_spl_mw", "cpu_cur_freq_min_mhz", "cpu_freq_545_band_pct", "cpu_freq_1400_band_pct"]
    ensures forall j, k :: 0 <= j < k < 11 ==> keys[j] != keys[k]
  {
    assert |keys[0]| == 16 && |keys[1]| == 16 && |keys[2]| == 22 && |keys[3]| == 21 && |keys[4]| == 26 && |keys[5]| == 12;
    assert |keys[6]| == 13 && |keys[7]| == 10 && |keys[8]| == 20 && |keys[9]| == 21 && |keys[10]| == 22;
    assert keys[0][0] != keys[1][0] && keys[2][0] != keys[10][0] && keys[3][0] != keys[9][0];
  }

  lemma {:induction false} FigureShown(f: Facts, k: nat, key: string, figure: Option<Metric>)
    requires k < 11 && Figures(f)[k] == (key, figure)
    ensures Shows(KeyMetrics(f), key, figure)
  {
    FigureKeysDiffer(f);
    AllShown(Figures(f), k);
  }

  /** Every figure of the facts stands under its key. */
  lemma {:induction false} FactsShown(f: Facts)
    ensures Shows(KeyMetrics(f), "max_apu_power_mw", PowerMetric(f.maxPower))
    ensures Shows(KeyMetrics(f), "avg_apu_power_mw", PowerMetric(f.avgPower))
    ensures Shows(KeyMetrics(f), "max_temperature_core_c", RealMetric(f.maxTemperature))
    ensures Shows(KeyMetrics(f), "spl_active_sample_pct", RealMetric(f.splPct))
  {
    FigureShown(f, 0, "max_apu_power_mw", PowerMetric(f.maxPower));
    FigureShown(f, 1, "avg_apu_power_mw", PowerMetric(f.avgPower));
    FigureShown(f, 2, "max_temperature_core_c", RealMetric(f.maxTemperature));
    FigureShown(f, 3, "spl_active_sample_pct", RealMetric(f.splPct));
  }

  lemma {:induction false} ContextShown(f: Facts)
    ensures Shows(KeyMetrics(f), "dgpu_runtime_suspended_pct", RealMetric(f.context.suspended))
    ensures Shows(KeyMetrics(f), "ac_connected", if f.context.ac.Some? then Some(Switch(f.context.ac.value)) else None)
    ensures Shows(KeyMetrics(f), "power_profile", if f.context.profile.Some? then Some(Label(f.context.profile.value)) else None)
  {
    FigureShown(f, 4, "dgpu_runtime_suspended_pct", RealMetric(f.context.suspended));
    FigureShown(f, 5, "ac_connected", if f.context.ac.Some? then Some(Switch(f.context.ac.value)) else None);
    FigureShown(f, 6, "power_profile", if f.context.profile.Some? then Some(Label(f.context.profile.value)) else None);
  }

  lemma {:induction false} FrequenciesShown(f: Facts)
    ensures Shows(KeyMetrics(f), "pmf_spl_mw", RealMetric(f.context.splMw))
    ensures Shows(KeyMetrics(f), "cpu_cur_freq_min_mhz", RealMetric(f.context.cpuMin))
    ensures Shows(KeyMetrics(f), "cpu_freq_545_band_pct", RealMetric(f.context.lowBand))
    ensures Shows(KeyMetrics(f), "cpu_freq_1400_band_pct", RealMetric(f.context.highBand))
  {
    FigureShown(f, 7, "pmf_spl_mw", RealMetric(f.context.splMw));
    FigureShown(f, 8, "cpu_cur_freq_min_mhz", RealMetric(f.context.cpuMin));
    FigureShown(f, 9, "cpu_freq_545_band_pct", RealMetric(f.context.lowBand));
    FigureShown(f, 10, "cpu_freq_1400_band_pct", RealMetric(f.context.highBand));
  }

  ghost function SwitchOf(v: Option<ValueRow>): Option<bool> {
    if v.None? || (v.value.num.None? && v.value.str.None?) then None else Some(IsOnNow(v))
  }

  /** The context figures are those of the newest value of their keys. */
  lemma {:induction false} ContextMeaning(values: seq<Row<ValueRow>>, ac: Option<ValueRow>, status: Option<ValueRow>, profile: Option<ValueRow>)
    requires Newest(values, "power.ac_connected", ac) && Newest(values, "gpu_power.dgpu_runtime_status", status)
    requires Newest(values, "profile.active", profile)
    ensures ContextOf(values).ac == SwitchOf(ac)
    ensures ContextOf(values).dgpuStatus == if status.Some? then status.value.str else None
    ensures ContextOf(values).profile == if profile.Some? then profile.value.str else None
  {
    LatestMeaning(values, "power.ac_connected", ac);
    LatestMeaning(values, "gpu_power.dgpu_runtime_status", status);
    LatestMeaning(values, "profile.active", profile);
  }

  lemma {:induction false} ContextNumbers(values: seq<Row<ValueRow>>, spl: Option<ValueRow>, sppt: Option<ValueRow>, cpu: Option<ValueRow>)
    requires Newest(values, "pmf.spl_mw", spl) && Newest(values, "pmf.sppt_mw", sppt) && Newest(values, "cpu.cur_freq_min_mhz", cpu)
    ensures ContextOf(values).splMw == if spl.Some? then spl.value.num else None
    ensures ContextOf(values).spptMw == if sppt.Some? then sppt.value.num else None
    ensures ContextOf(values).cpuMin == if cpu.Some? then cpu.value.num else None
  {
    LatestMeaning(values, "pmf.spl_mw", spl);
    LatestMeaning(values, "pmf.sppt_mw", sppt);
    LatestMeaning(values, "cpu.cur_freq_min_mhz", cpu);
  }

  /** And the shares are those of the bands and of the switch. */
  lemma {:induction false} ContextShares(values: seq<Row<ValueRow>>)
    ensures ContextOf(values).lowBand == FreqBandPct(values, 500.0, 620.0) && ContextOf(values).highBand == FreqBandPct(values, 1350.0, 1450.0)
    ensures ContextOf(values).suspended == OnPct(values, "gpu_power.dgpu_runtime_suspended")
  { }
}

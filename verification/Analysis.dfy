/** The evidence report over a bundle: selecting the window, choosing or recomputing the summary, and the rules. */
module Analysis {
  import opened Rows
  import opened Throttle
  import opened Database
  import opened Summaries
  import opened WindowSummaries
  import opened Export

  datatype Options = Options(from: Option<int>, to: Option<int>, device: Option<string>, issueTag: Option<string>)

  datatype Input = Input(
    from: int, to: int, device: Option<string>, issueTag: Option<string>,
    samples: seq<Row<Sample>>, transitions: seq<Row<Transition>>, journal: seq<Row<JournalEvent>>,
    values: seq<Row<ValueRow>>, contextTransitions: seq<Row<ContextTransition>>, contextJournal: seq<Row<JournalEvent>>,
    system: Option<Row<string>>, summary: Option<Summary>, warnings: seq<ExportWarning>)

  function SampleOfDevice(device: Option<string>): Row<Sample> -> bool {
    (s: Row<Sample>) => Matches(device, s.body.device)
  }

  function TransitionOfDevice(device: Option<string>): Row<Transition> -> bool {
    (t: Row<Transition>) => Matches(device, t.body.device)
  }

  function Or<T>(first: Option<T>, second: T): T {
    if first.Some? then first.value else second
  }

  /** The cached summary is reused only for exactly its own window and device filter. */
  predicate Reusable(b: Bundle, from: int, to: int, device: Option<string>) {
    b.summary.Some? && b.summary.value.from == from && b.summary.value.to == to && b.device == device
  }

  function PrepareInput(b: Bundle, opts: Options): Input {
    var from, to := Or(opts.from, b.from), Or(opts.to, b.to);
    var device := if opts.device.Some? then opts.device else b.device;
    var samples := Select(Select(b.samples, InWindow(from, to)), SampleOfDevice(device));
    var transitions := Select(Select(b.transitions, InWindow(from, to)), TransitionOfDevice(device));
    var contextTransitions := Select(b.contextTransitions, InWindow(from, to));
    Input(from, to, device, opts.issueTag, samples, transitions, Select(b.journal, InWindow(from, to)),
          Select(b.values, InWindow(from, to)), contextTransitions, Select(b.contextJournal, InWindow(from, to)), b.system,
          if Reusable(b, from, to, device) then b.summary
          else if samples == [] then None
          else Some(SummaryOf(from, to, samples, transitions, |contextTransitions|)),
          b.warnings)
  }

  // ---- what the rules read off the samples and the summary ----

  function Carries(flag: string): Row<Sample> -> bool {
    (s: Row<Sample>) => flag in s.body.flags
  }

  function FlagActivePct(summary: Option<Summary>, samples: seq<Row<Sample>>, flag: string): Option<real> {
    var found := if summary.Some? then Find(summary.value.activity, flag) else None;
    if found.Some? then Some(found.value.activePct)
    else if samples == [] then None
    else Some(Pct(|Select(samples, Carries(flag))|, |samples|))
  }

  predicate HasAmdThrottle(samples: seq<Row<Sample>>) {
    exists s :: s in samples && (s.body.flags != [] || MaskOf(s.body) != 0)
  }

  predicate BothProchot(s: Row<Sample>) {
    "PROCHOT_CPU" in s.body.flags && "PROCHOT_GPU" in s.body.flags
  }

  predicate HasRaw(s: Row<Sample>) { s.body.raw.Some? }

  /** Bits 9 and 10. */
  const LEGACY_PROCHOT_RAW := 1536

  predicate LegacyRaw(s: Row<Sample>) { s.body.raw == Some(LEGACY_PROCHOT_RAW) }

  predicate ProchotSuspect(samples: seq<Row<Sample>>) {
    && |samples| >= 5
    && |Select(samples, BothProchot)| * 100 / |samples| >= 90
    && var raws := Select(samples, HasRaw);
    && raws != []
    && Pct(|Select(raws, LegacyRaw)|, |raws|) >= 90.0
  }

  function ThermalFlags(suspect: bool): seq<string> {
    if suspect then ["TEMP_HOTSPOT", "TEMP_CORE"] else ["PROCHOT_CPU", "PROCHOT_GPU", "TEMP_HOTSPOT", "TEMP_CORE"]
  }

  function MaxPct(summary: Option<Summary>, samples: seq<Row<Sample>>, flags: seq<string>): real {
    if flags == [] then 0.0 else
    var best, pct := MaxPct(summary, samples, flags[..|flags| - 1]), FlagActivePct(summary, samples, flags[|flags| - 1]);
    if pct.Some? && pct.value > best then pct.value else best
  }

  // ---- what they read off the context values ----

  function KeyIs(key: string): Row<ValueRow> -> bool {
    (v: Row<ValueRow>) => v.body.key == key
  }

  function Lower(c: char): char {
    if 'A' <= c <= 'Z' then c - 'A' + 'a' else c
  }

  predicate Truthy(s: string) {
    var lower := seq(|s|, i requires 0 <= i < |s| => Lower(s[i]));
    lower == "true" || lower == "1" || lower == "yes" || lower == "on" || lower == "connected"
  }

  predicate IsOn(v: Row<ValueRow>) {
    (v.body.num.Some? && -0.5 < v.body.num.value - 1.0 < 0.5) || (v.body.str.Some? && Truthy(v.body.str.value))
  }

  function OnPct(values: seq<Row<ValueRow>>, key: string): Option<real> {
    var rows := Select(values, KeyIs(key));
    if rows == [] then None else Some(Pct(|Select(rows, IsOn)|, |rows|))
  }

  /** `max_by_key(ts)` over the rows of a key: the last of the newest. */
  function LatestRow(values: seq<Row<ValueRow>>, key: string): Option<Row<ValueRow>> {
    Latest(Select(values, KeyIs(key)))
  }

  function LatestNum(values: seq<Row<ValueRow>>, key: string): Option<real> {
    var row := LatestRow(values, key);
    if row.Some? then row.value.body.num else None
  }

  function LatestStr(values: seq<Row<ValueRow>>, key: string): Option<string> {
    var row := LatestRow(values, key);
    if row.Some? then row.value.body.str else None
  }

  function LatestBool(values: seq<Row<ValueRow>>, key: string): Option<bool> {
    var row := LatestRow(values, key);
    if row.None? then None
    else if row.value.body.num.Some? then Some(row.value.body.num.value >= 0.5)
    else if row.value.body.str.Some? then Some(Truthy(row.value.body.str.value))
    else None
  }

  predicate FromPmf(v: Row<ValueRow>) {
    v.body.source == "pmf" || "pmf." <= v.body.key
  }

  // ---- the facts the rules share ----

  /** What the rules read off the context values. */
  datatype ContextFacts = ContextFacts(
    lowBand: Option<real>, highBand: Option<real>, suspended: Option<real>, dgpuStatus: Option<string>, ac: Option<bool>,
    profile: Option<string>, splMw: Option<real>, spptMw: Option<real>, cpuMin: Option<real>)

  datatype Facts = Facts(
    amd: bool, splPct: Option<real>, maxPower: Option<u32>, avgPower: Option<u32>, maxTemperature: Option<real>,
    prochotSuspect: bool, thermalActive: real, context: ContextFacts)

  function ContextOf(values: seq<Row<ValueRow>>): ContextFacts {
    ContextFacts(FreqBandPct(values, 500.0, 620.0), FreqBandPct(values, 1350.0, 1450.0), OnPct(values, "gpu_power.dgpu_runtime_suspended"),
            LatestStr(values, "gpu_power.dgpu_runtime_status"), LatestBool(values, "power.ac_connected"),
            LatestStr(values, "profile.active"), LatestNum(values, "pmf.spl_mw"), LatestNum(values, "pmf.sppt_mw"),
            LatestNum(values, "cpu.cur_freq_min_mhz"))
  }

  function FactsOf(i: Input): Facts {
    var amd := HasAmdThrottle(i.samples);
    var suspect := amd && ProchotSuspect(i.samples);
    Facts(amd,
          if amd then FlagActivePct(i.summary, i.samples, "SPL") else None,
          if i.summary.Some? && i.summary.value.maxPower.Some? then i.summary.value.maxPower else MaxPower(i.samples),
          if i.summary.Some? && i.summary.value.avgPower.Some? then i.summary.value.avgPower else AvgPower(i.samples),
          if i.summary.Some? && i.summary.value.maxTemperature.Some? then i.summary.value.maxTemperature else MaxTemperature(i.samples),
          suspect,
          if amd then MaxPct(i.summary, i.samples, ThermalFlags(suspect)) else 0.0,
          ContextOf(i.values))
  }

  // ---- findings ----

  datatype Severity = Info | Warn | Important
  datatype Confidence = Low | Medium | High

  datatype Finding = Finding(id: string, severity: Severity, confidence: Confidence, throttleIds: seq<int>, contextIds: seq<int>)

  datatype Metric = Power(mw: int) | Value(x: real) | Switch(on: bool) | Label(s: string)

  datatype ReportWarning = FromExport(w: ExportWarning) | FewSamples(n: nat) | NoSystem | NoPower | NoAmd | PmfMissing | Sticky | TagMismatch

  datatype Verdict = Framework146 | FrequencyLock | Thermal | NoPattern | Mixed

  datatype Report = Report(
    from: int, to: int, device: Option<string>, verdict: Verdict, findings: seq<Finding>, warnings: seq<ReportWarning>,
    metrics: map<string, Metric>)

  function Logs(flags: set<string>): Row<Transition> -> bool {
    (t: Row<Transition>) => t.body.flag in flags
  }

  function RelatedThrottleIds(transitions: seq<Row<Transition>>, flags: set<string>): seq<int> {
    Ids(Select(transitions, Logs(flags)))
  }

  function KeyStarts(prefix: string): Row<ContextTransition> -> bool {
    (t: Row<ContextTransition>) => prefix <= t.body.key
  }

  function RelatedContextIds(transitions: seq<Row<ContextTransition>>, prefix: string): seq<int> {
    Ids(Select(transitions, KeyStarts(prefix)))
  }

  predicate SleepRelated(t: Row<ContextTransition>) {
    "system." <= t.body.key || "gpu_power." <= t.body.key || "profile." <= t.body.key
  }

  predicate AtLeast(x: Option<real>, bound: real) {
    x.Some? && x.value >= bound
  }

  predicate ThermalDominant(f: Facts) {
    (f.amd && f.thermalActive >= 15.0) || AtLeast(f.maxTemperature, 85.0)
  }

  predicate SplAsserted(i: Input, f: Facts) {
    f.amd && (AtLeast(f.splPct, 10.0) || exists t :: t in i.transitions && t.body.flag == "SPL" && t.body.newValue)
  }

  predicate PmfPresent(c: ContextFacts) {
    c.splMw.Some? || c.spptMw.Some?
  }

  predicate PmfAbsent(f: Facts) {
    f.amd && !PmfPresent(f.context)
  }

  /** At most one finding, of this id. */
  predicate Single(s: seq<Finding>, id: string) {
    s == [] || (|s| == 1 && s[0].id == id)
  }

  function CpuLock(i: Input, f: Facts): (r: seq<Finding>)
    ensures Single(r, "cpu_frequency_lock")
  {
    var pct := if AtLeast(f.context.lowBand, 50.0) then f.context.lowBand else f.context.highBand;
    if AtLeast(pct, 50.0)
    then [Finding("cpu_frequency_lock", Warn, if pct.value >= 80.0 then High else Medium, [], RelatedContextIds(i.contextTransitions, "cpu."))]
    else []
  }

  function AcUncertain(i: Input, f: Facts): (r: seq<Finding>)
    ensures Single(r, "adapter_or_ac_uncertain")
  {
    var ac := f.context.ac;
    if ac == Some(true) then [] else
    [Finding("adapter_or_ac_uncertain", Warn, if ac.None? then Medium else High, [], RelatedContextIds(i.contextTransitions, "power."))]
  }

  /** How many of the six signs of the power-cap pattern show. */
  function Score(i: Input, f: Facts): nat {
    var status, spl := f.context.dgpuStatus, f.context.splMw;
    (if AtLeast(f.context.suspended, 50.0) || status == Some("suspended") || status == Some("inactive") then 1 else 0)
    + (if SplAsserted(i, f) then 1 else 0)
    + (if f.maxPower.Some? && f.maxPower.value <= 45_000 then 1 else 0)
    + (if f.context.ac == Some(true) then 1 else 0)
    + (if spl.Some? && spl.value <= 40_000.0 then 1 else 0)
    + (if ThermalDominant(f) then 0 else 1)
  }

  function PowerCap(i: Input, f: Facts): (r: seq<Finding>)
    ensures Single(r, "framework_146_shape")
  {
    var score := Score(i, f);
    if f.amd && score >= 4
    then [Finding("framework_146_shape", Important, if score >= 5 && PmfPresent(f.context) then High else Medium,
                  RelatedThrottleIds(i.transitions, {"SPL", "PROCHOT_CPU"}), RelatedContextIds(i.contextTransitions, "gpu_power."))]
    else []
  }

  function SleepWake(i: Input): (r: seq<Finding>)
    ensures Single(r, "sleep_wake_correlation")
  {
    var related := Select(i.contextTransitions, SleepRelated);
    if |related| >= 2 then [Finding("sleep_wake_correlation", Info, Medium, [], Ids(related))] else []
  }

  function NoPmfLimits(f: Facts): (r: seq<Finding>)
    ensures Single(r, "pmf_missing")
  {
    if PmfAbsent(f) then [Finding("pmf_missing", Info, High, [], [])] else []
  }

  function ProchotLegacy(f: Facts): (r: seq<Finding>)
    ensures Single(r, "prochot_suspect_legacy_status")
  {
    if f.prochotSuspect then [Finding("prochot_suspect_legacy_status", Info, High, [], [])] else []
  }

  function ThermalShape(i: Input, f: Facts): (r: seq<Finding>)
    ensures Single(r, "thermal_limit_shape")
  {
    var ids := RelatedThrottleIds(i.transitions, set x | x in ThermalFlags(f.prochotSuspect));
    if ThermalDominant(f) then [Finding("thermal_limit_shape", Important, Medium, ids, [])] else []
  }

  function PowerLimit(i: Input, f: Facts): (r: seq<Finding>)
    ensures Single(r, "power_limit_without_thermal")
  {
    var ids := RelatedThrottleIds(i.transitions, {"SPL", "SPPT", "FPPT", "STAPM"});
    if SplAsserted(i, f) && !ThermalDominant(f) then [Finding("power_limit_without_thermal", Important, Medium, ids, [])] else []
  }

  /** What each rule contributes, in the order the rules fire. */
  function Fired(i: Input, f: Facts): seq<seq<Finding>> {
    [CpuLock(i, f), NoPmfLimits(f), AcUncertain(i, f), ProchotLegacy(f), ThermalShape(i, f), PowerLimit(i, f), PowerCap(i, f), SleepWake(i)]
  }

  function Flatten(parts: seq<seq<Finding>>): seq<Finding> {
    if parts == [] then [] else Flatten(parts[..|parts| - 1]) + parts[|parts| - 1]
  }

  function Findings(i: Input, f: Facts): seq<Finding> {
    Flatten(Fired(i, f))
  }

  function Rank(f: Finding): nat {
    (match f.severity case Important => 30 case Warn => 20 case Info => 10)
    + (match f.confidence case High => 3 case Medium => 2 case Low => 1)
  }

  /** `sort_by_key(Reverse(rank))`, which is stable. */
  function InsertByRank(s: seq<Finding>, f: Finding): (r: seq<Finding>)
    ensures multiset(r) == multiset(s) + multiset{f}
  {
    if s == [] || Rank(s[|s| - 1]) >= Rank(f) then s + [f]
    else
      assert s == s[..|s| - 1] + [s[|s| - 1]];
      InsertByRank(s[..|s| - 1], f) + [s[|s| - 1]]
  }

  function SortByRank(s: seq<Finding>): (r: seq<Finding>)
    ensures multiset(r) == multiset(s)
  {
    if s == [] then [] else
    assert s == s[..|s| - 1] + [s[|s| - 1]];
    InsertByRank(SortByRank(s[..|s| - 1]), s[|s| - 1])
  }

  predicate Found(findings: seq<Finding>, id: string) {
    exists f :: f in findings && f.id == id
  }

  function VerdictOf(findings: seq<Finding>): Verdict {
    if Found(findings, "framework_146_shape") then Framework146
    else if Found(findings, "cpu_frequency_lock") then FrequencyLock
    else if Found(findings, "thermal_limit_shape") then Thermal
    else if findings == [] then NoPattern
    else Mixed
  }

  function ExportWarnings(warnings: seq<ExportWarning>): seq<ReportWarning> {
    seq(|warnings|, k requires 0 <= k < |warnings| => FromExport(warnings[k]))
  }

  predicate Powerless(samples: seq<Row<Sample>>) {
    samples != [] && forall s :: s in samples ==> s.body.apuPower.None?
  }

  predicate NothingFromPmf(values: seq<Row<ValueRow>>) {
    forall v :: v in values ==> !FromPmf(v)
  }

  function When(holds: bool, w: ReportWarning): seq<ReportWarning> {
    if holds then [w] else []
  }

  function InputWarnings(i: Input): seq<ReportWarning> {
    ExportWarnings(i.warnings)
    + When(|i.samples| < 5, FewSamples(|i.samples|))
    + When(i.system.None?, NoSystem)
    + When(Powerless(i.samples), NoPower)
  }

  function RuleWarnings(i: Input, f: Facts, findings: seq<Finding>): seq<ReportWarning> {
    When(!f.amd && i.samples != [], NoAmd)
    + When(PmfAbsent(f) && NothingFromPmf(i.values), PmfMissing)
    + When(f.prochotSuspect, Sticky)
    + When(i.issueTag == Some("framework-146") && !Found(findings, "framework_146_shape"), TagMismatch)
  }

  function ReportWarnings(i: Input, f: Facts, findings: seq<Finding>): seq<ReportWarning> {
    InputWarnings(i) + RuleWarnings(i, f, findings)
  }

  function Add(metrics: map<string, Metric>, key: string, m: Option<Metric>): map<string, Metric> {
    if m.Some? then metrics[key := m.value] else metrics
  }

  function AsValue(x: Option<real>): Option<Metric> {
    if x.Some? then Some(Value(x.value)) else None
  }

  function AsPower(x: Option<u32>): Option<Metric> {
    if x.Some? then Some(Power(x.value)) else None
  }

  /** The figures of a report, in the order they are entered. */
  function Figures(f: Facts): seq<(string, Option<Metric>)> {
    var c := f.context;
    [("max_apu_power_mw", AsPower(f.maxPower)),
     ("avg_apu_power_mw", AsPower(f.avgPower)),
     ("max_temperature_core_c", AsValue(f.maxTemperature)),
     ("spl_active_sample_pct", AsValue(f.splPct)),
     ("dgpu_runtime_suspended_pct", AsValue(c.suspended)),
     ("ac_connected", if c.ac.Some? then Some(Switch(c.ac.value)) else None),
     ("power_profile", if c.profile.Some? then Some(Label(c.profile.value)) else None),
     ("pmf_spl_mw", AsValue(c.splMw)),
     ("cpu_cur_freq_min_mhz", AsValue(c.cpuMin)),
     ("cpu_freq_545_band_pct", AsValue(c.lowBand)),
     ("cpu_freq_1400_band_pct", AsValue(c.highBand))]
  }

  function Entered(figures: seq<(string, Option<Metric>)>): map<string, Metric> {
    if figures == [] then map[] else
    Add(Entered(figures[..|figures| - 1]), figures[|figures| - 1].0, figures[|figures| - 1].1)
  }

  function KeyMetrics(f: Facts): map<string, Metric> {
    Entered(Figures(f))
  }

  /** What the rules read besides the facts: neither the summary nor any journal event. */
  function Evidence(i: Input): Input {
    i.(summary := None, journal := [], contextJournal := [])
  }

  function Assemble(i: Input, f: Facts): Report {
    var findings := Findings(i, f);
    Report(i.from, i.to, i.device, VerdictOf(findings), SortByRank(findings), ReportWarnings(i, f, findings), KeyMetrics(f))
  }

  /** `run_analysis`, without the texts and the evidence items. */
  function RunAnalysis(i: Input): Report {
    Assemble(Evidence(i), FactsOf(i))
  }

  function Analyze(b: Bundle, opts: Options): Report {
    RunAnalysis(PrepareInput(b, opts))
  }
}

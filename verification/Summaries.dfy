/** The two window summaries: the in-memory loops over listed rows and the SQL aggregates over the tables. */
module Summaries {
  import opened Rows
  import opened Division
  import opened Names
  import opened Throttle
  import opened Database

  datatype Warning = StickyProchot | CpuLock545 | CpuLock1400

  datatype FlagActivity = FlagActivity(flag: string, activePct: real, asserts: nat, clears: nat)

  datatype Summary = Summary(
    from: int, to: int, sampleCount: nat, transitionCount: nat, contextTransitionCount: nat,
    activity: seq<FlagActivity>, maxPower: Option<u32>, avgPower: Option<u32>, maxTemperature: Option<real>,
    warnings: seq<Warning>)

  function Pct(part: nat, whole: nat): real {
    if whole > 0 then part as real / whole as real * 100.0 else 0.0
  }

  /** The part per hundred of the whole. */
  lemma {:induction false} PctIsShare(part: nat, whole: nat)
    ensures whole > 0 ==> Pct(part, whole) * whole as real == 100.0 * part as real
    ensures whole == 0 ==> Pct(part, whole) == 0.0
  {
    if whole > 0 {
      var p, w := part as real, whole as real;
      assert p / w * 100.0 * w == p / w * w * 100.0;
    }
  }

  lemma {:induction false} ScaleBoth(x: real, y: real, w: real)
    requires w > 0.0
    ensures x >= y <==> x * w >= y * w
  {
    assert x * w - y * w == (x - y) * w;
  }

  lemma {:induction false} PctAtLeast(part: nat, whole: nat, k: nat)
    requires whole > 0
    ensures Pct(part, whole) >= k as real <==> 100 * part >= k * whole
  {
    PctIsShare(part, whole);
    ScaleBoth(Pct(part, whole), k as real, whole as real);
    assert (k * whole) as real == k as real * whole as real;
    assert (100 * part) as real == 100.0 * part as real;
  }

  // ---- what a summary means ----

  function Asserting(flag: string): Row<Transition> -> bool {
    (t: Row<Transition>) => t.body.flag == flag && t.body.newValue
  }

  function Clearing(flag: string): Row<Transition> -> bool {
    (t: Row<Transition>) => t.body.flag == flag && !t.body.newValue
  }

  /** How often a sample lists the flag. */
  function Listings(flag: string): Row<Sample> -> int {
    (s: Row<Sample>) => multiset(s.body.flags)[flag]
  }

  function Occurrences(samples: seq<Row<Sample>>, flag: string): (n: nat) {
    SumIsNat(samples, Listings(flag));
    Sum(samples, Listings(flag))
  }

  lemma {:induction false} SumIsNat<T>(s: seq<T>, f: T -> int)
    requires forall x :: x in s ==> f(x) >= 0
    ensures Sum(s, f) >= 0
  {
    if s != [] { SumIsNat(s[..|s| - 1], f); }
  }

  function LoggedFlags(transitions: seq<Row<Transition>>): seq<string> {
    if transitions == [] then [] else
    LoggedFlags(transitions[..|transitions| - 1]) + [transitions[|transitions| - 1].body.flag]
  }

  function ListedFlags(samples: seq<Row<Sample>>): seq<string> {
    if samples == [] then [] else
    ListedFlags(samples[..|samples| - 1]) + samples[|samples| - 1].body.flags
  }

  lemma {:induction false} LoggedFlagsMeaning(transitions: seq<Row<Transition>>, f: string)
    ensures f in LoggedFlags(transitions) <==> exists t :: t in transitions && t.body.flag == f
  {
    if transitions != [] {
      LoggedFlagsMeaning(transitions[..|transitions| - 1], f);
      assert transitions == transitions[..|transitions| - 1] + [transitions[|transitions| - 1]];
      assert transitions[|transitions| - 1] in transitions;
    }
  }

  lemma {:induction false} ListedFlagsMeaning(samples: seq<Row<Sample>>, f: string)
    ensures f in ListedFlags(samples) <==> exists s :: s in samples && f in s.body.flags
  {
    if samples != [] {
      ListedFlagsMeaning(samples[..|samples| - 1], f);
      assert samples == samples[..|samples| - 1] + [samples[|samples| - 1]];
      assert samples[|samples| - 1] in samples;
    }
  }

  function Entry(samples: seq<Row<Sample>>, transitions: seq<Row<Transition>>, flag: string): FlagActivity {
    FlagActivity(flag, Pct(Occurrences(samples, flag), |samples|),
                 |Select(transitions, Asserting(flag))|, |Select(transitions, Clearing(flag))|)
  }

  /** Every flag that was logged or listed, in name order. */
  function ActiveNames(samples: seq<Row<Sample>>, transitions: seq<Row<Transition>>): seq<string> {
    Sorted(LoggedFlags(transitions) + ListedFlags(samples))
  }

  function ActivityOf(samples: seq<Row<Sample>>, transitions: seq<Row<Transition>>): seq<FlagActivity> {
    var names := ActiveNames(samples, transitions);
    seq(|names|, i requires 0 <= i < |names| => Entry(samples, transitions, names[i]))
  }

  function HasPower(): Row<Sample> -> int {
    (s: Row<Sample>) => if s.body.apuPower.Some? then 1 else 0
  }

  function PowerOf(): Row<Sample> -> int {
    (s: Row<Sample>) => if s.body.apuPower.Some? then s.body.apuPower.value else 0
  }

  lemma {:induction false} PowerBounds(samples: seq<Row<Sample>>)
    ensures 0 <= Sum(samples, PowerOf()) <= Sum(samples, HasPower()) * U32_MAX
  {
    if samples != [] { PowerBounds(samples[..|samples| - 1]); }
  }

  /** The mean of the readings rounded down fits the 32-bit field. */
  function AvgPower(samples: seq<Row<Sample>>): Option<u32> {
    var count := Sum(samples, HasPower());
    PowerBounds(samples);
    if count == 0 then None else
    QuotientFits(Sum(samples, PowerOf()), count);
    Some(Sum(samples, PowerOf()) / count)
  }

  lemma {:induction false} NotPositive(x: int, y: int)
    requires y > 0 && x * y <= 0
    ensures x <= 0
  { }

  lemma {:induction false} QuotientFits(total: int, count: int)
    requires 0 <= total <= count * U32_MAX && count != 0
    ensures 0 < count && 0 <= total / count <= U32_MAX
  {
    var q := total / count;
    assert count * q <= total;
    assert (q - U32_MAX) * count == count * q - count * U32_MAX;
    NotPositive(q - U32_MAX, count);
  }

  function PowerTotal(samples: seq<Row<Sample>>): nat {
    if samples == [] then 0 else
    (if samples[0].body.apuPower.Some? then samples[0].body.apuPower.value else 0) + PowerTotal(samples[1..])
  }

  lemma {:induction false} PowerSum(samples: seq<Row<Sample>>)
    ensures Sum(samples, PowerOf()) == PowerTotal(samples)
  {
    if samples != [] {
      PowerSum(samples[1..]);
      assert samples == samples[..1] + samples[1..];
      SumSplits(samples[..1], samples[1..], PowerOf());
    }
  }

  lemma {:induction false} PowerCount(samples: seq<Row<Sample>>)
    ensures Sum(samples, HasPower()) == |Select(samples, (s: Row<Sample>) => s.body.apuPower.Some?)|
  {
    if samples != [] { PowerCount(samples[..|samples| - 1]); }
  }

  lemma {:induction false} AvgOfSums(samples: seq<Row<Sample>>, total: int, n: int)
    requires total == Sum(samples, PowerOf()) && n == Sum(samples, HasPower())
    ensures n >= 0 && total >= 0
    ensures if n == 0 then AvgPower(samples).None? else AvgPower(samples).Some? && AvgPower(samples).value == total / n
  {
    PowerBounds(samples);
  }

  /** The average over the samples that have a reading, rounded down; none exactly when none has one. */
  lemma {:induction false} AvgPowerMeaning(samples: seq<Row<Sample>>, n: nat)
    requires n == Count(samples, (s: Row<Sample>) => s.body.apuPower.Some?)
    ensures AvgPower(samples).None? <==> n == 0
    ensures AvgPower(samples).Some? ==> AvgPower(samples).value * n <= PowerTotal(samples) < (AvgPower(samples).value + 1) * n
  {
    PowerSum(samples);
    PowerCount(samples);
    SelectCounts(samples, (s: Row<Sample>) => s.body.apuPower.Some?);
    AvgOfSums(samples, PowerTotal(samples), n);
    if n > 0 { QuotientBounds(PowerTotal(samples), n); }
  }

  function MaxPower(samples: seq<Row<Sample>>): Option<u32> {
    if samples == [] then None else
    var best, power := MaxPower(samples[..|samples| - 1]), samples[|samples| - 1].body.apuPower;
    if best.None? || (power.Some? && power.value >= best.value) then power else best
  }

  function MaxTemperature(samples: seq<Row<Sample>>): Option<real> {
    if samples == [] then None else
    var best, temperature := MaxTemperature(samples[..|samples| - 1]), samples[|samples| - 1].body.temperature;
    if best.None? || (temperature.Some? && temperature.value >= best.value) then temperature else best
  }

  /** `iter().find(|a| a.flag_name == flag)`. */
  function Find(activity: seq<FlagActivity>, flag: string): Option<FlagActivity> {
    if activity == [] then None
    else if activity[0].flag == flag then Some(activity[0])
    else Find(activity[1..], flag)
  }

  predicate AlwaysOn(a: Option<FlagActivity>) {
    a.Some? && a.value.activePct >= 95.0 && a.value.asserts == 0 && a.value.clears == 0
  }

  /** `prochot_warnings_from_activity`. */
  function ProchotWarnings(activity: seq<FlagActivity>): seq<Warning> {
    if AlwaysOn(Find(activity, "PROCHOT_CPU")) && AlwaysOn(Find(activity, "PROCHOT_GPU")) then [StickyProchot] else []
  }

  function SummaryOf(from: int, to: int, samples: seq<Row<Sample>>, transitions: seq<Row<Transition>>, contextTransitions: nat): Summary {
    var activity := ActivityOf(samples, transitions);
    Summary(from, to, |samples|, |transitions|, contextTransitions, activity,
            MaxPower(samples), AvgPower(samples), MaxTemperature(samples), ProchotWarnings(activity))
  }

  /** A summary names its window, counts its rows and carries their figures. */
  lemma {:induction false} SummaryCounts(from: int, to: int, samples: seq<Row<Sample>>, transitions: seq<Row<Transition>>, n: nat)
    ensures var s := SummaryOf(from, to, samples, transitions, n);
            && s.from == from && s.to == to
            && s.sampleCount == |samples| && s.transitionCount == |transitions| && s.contextTransitionCount == n
            && s.activity == ActivityOf(samples, transitions)
            && s.maxPower == MaxPower(samples) && s.avgPower == AvgPower(samples) && s.maxTemperature == MaxTemperature(samples)
  { }

  ghost predicate Lists(activity: seq<FlagActivity>, flag: string) {
    exists a :: a in activity && a.flag == flag
  }

  ghost predicate Mentioned(samples: seq<Row<Sample>>, transitions: seq<Row<Transition>>, flag: string) {
    (exists t :: t in transitions && t.body.flag == flag) || (exists s :: s in samples && flag in s.body.flags)
  }

  /** Names strictly ascend; a name is listed exactly when some row of the window mentions it. */
  lemma {:induction false} ActivityIsSortedAndComplete(samples: seq<Row<Sample>>, transitions: seq<Row<Transition>>)
    ensures var activity := ActivityOf(samples, transitions);
            && (forall i, j :: 0 <= i < j < |activity| ==> Less(activity[i].flag, activity[j].flag))
            && forall f :: Lists(activity, f) <==> Mentioned(samples, transitions, f)
  {
    var names, activity := ActiveNames(samples, transitions), ActivityOf(samples, transitions);
    SortedAscends(LoggedFlags(transitions) + ListedFlags(samples));
    forall f ensures Lists(activity, f) <==> Mentioned(samples, transitions, f) {
      LoggedFlagsMeaning(transitions, f);
      ListedFlagsMeaning(samples, f);
      if f in names {
        var i :| 0 <= i < |names| && names[i] == f;
        assert activity[i] in activity && activity[i].flag == f;
      }
    }
  }

  lemma {:induction false} MaxPowerMeaning(samples: seq<Row<Sample>>)
    ensures MaxPower(samples).None? <==> forall s :: s in samples ==> s.body.apuPower.None?
    ensures MaxPower(samples).Some? ==>
              && (exists s :: s in samples && s.body.apuPower == MaxPower(samples))
              && forall s :: s in samples && s.body.apuPower.Some? ==> s.body.apuPower.value <= MaxPower(samples).value
  {
    if samples != [] {
      var front, last := samples[..|samples| - 1], samples[|samples| - 1];
      MaxPowerMeaning(front);
      assert samples == front + [last] && last in samples;
      if MaxPower(samples).Some? && MaxPower(samples) != last.body.apuPower {
        var s :| s in front && s.body.apuPower == MaxPower(front);
        assert s in samples;
      }
    }
  }

  lemma {:induction false} MaxTemperatureMeaning(samples: seq<Row<Sample>>)
    ensures MaxTemperature(samples).None? <==> forall s :: s in samples ==> s.body.temperature.None?
    ensures MaxTemperature(samples).Some? ==>
              && (exists s :: s in samples && s.body.temperature == MaxTemperature(samples))
              && forall s :: s in samples && s.body.temperature.Some? ==> s.body.temperature.value <= MaxTemperature(samples).value
  {
    if samples != [] {
      var front, last := samples[..|samples| - 1], samples[|samples| - 1];
      MaxTemperatureMeaning(front);
      assert samples == front + [last] && last in samples;
      if MaxTemperature(samples).Some? && MaxTemperature(samples) != last.body.temperature {
        var s :| s in front && s.body.temperature == MaxTemperature(front);
        assert s in samples;
      }
    }
  }

  lemma {:induction false} FoundInActivity(activity: seq<FlagActivity>, flag: string, i: nat)
    requires i < |activity| && activity[i].flag == flag && forall j :: 0 <= j < i ==> activity[j].flag != flag
    ensures Find(activity, flag) == Some(activity[i])
  {
    if i > 0 { FoundInActivity(activity[1..], flag, i - 1); }
  }

  lemma {:induction false} NotInActivity(activity: seq<FlagActivity>, flag: string)
    requires forall j :: 0 <= j < |activity| ==> activity[j].flag != flag
    ensures Find(activity, flag).None?
  {
    if activity != [] { NotInActivity(activity[1..], flag); }
  }

  /** An entry of the list, if the window mentions the flag. */
  lemma {:induction false} FindEntry(samples: seq<Row<Sample>>, transitions: seq<Row<Transition>>, flag: string)
    ensures Find(ActivityOf(samples, transitions), flag)
         == if Mentioned(samples, transitions, flag) then Some(Entry(samples, transitions, flag)) else None
  {
    var activity := ActivityOf(samples, transitions);
    ActivityIsSortedAndComplete(samples, transitions);
    if i :| 0 <= i < |activity| && activity[i].flag == flag {
      assert activity[i] in activity;
      forall j | 0 <= j < i ensures activity[j].flag != flag { LessIrreflexive(flag); }
      FoundInActivity(activity, flag, i);
    } else {
      assert !Lists(activity, flag);
      NotInActivity(activity, flag);
    }
  }

  /** An entry counts the transitions into and out of its flag and gives the listings per hundred samples. */
  lemma {:induction false} EntryMeaning(samples: seq<Row<Sample>>, transitions: seq<Row<Transition>>, flag: string)
    ensures var e := Entry(samples, transitions, flag);
            && e.flag == flag
            && e.activePct * |samples| as real == 100.0 * Occurrences(samples, flag) as real
            && e.asserts == Count(transitions, (t: Row<Transition>) => t.body.flag == flag && t.body.newValue)
            && e.clears == Count(transitions, (t: Row<Transition>) => t.body.flag == flag && !t.body.newValue)
  {
    PctIsShare(Occurrences(samples, flag), |samples|);
    CountsSame(transitions, Asserting(flag), (t: Row<Transition>) => t.body.flag == flag && t.body.newValue);
    CountsSame(transitions, Clearing(flag), (t: Row<Transition>) => t.body.flag == flag && !t.body.newValue);
  }

  /** The flag is listed at least 19 times per 20 samples, and never logged. */
  ghost predicate StuckOn(samples: seq<Row<Sample>>, transitions: seq<Row<Transition>>, flag: string) {
    && Mentioned(samples, transitions, flag)
    && 100 * Occurrences(samples, flag) >= 95 * |samples|
    && forall t :: t in transitions ==> t.body.flag != flag
  }

  lemma {:induction false} AlwaysOnMeaning(samples: seq<Row<Sample>>, transitions: seq<Row<Transition>>, flag: string)
    ensures AlwaysOn(Find(ActivityOf(samples, transitions), flag)) <==> StuckOn(samples, transitions, flag)
  {
    FindEntry(samples, transitions, flag);
    if samples != [] { PctAtLeast(Occurrences(samples, flag), |samples|, 95); }
    if exists t :: t in transitions && t.body.flag == flag {
      var t :| t in transitions && t.body.flag == flag;
      assert t in Select(transitions, Asserting(flag)) || t in Select(transitions, Clearing(flag));
    } else {
      SelectNone(transitions, Asserting(flag));
      SelectNone(transitions, Clearing(flag));
    }
  }

  /** The warning is given exactly when both flags are stuck on. */
  lemma {:induction false} StickyProchotMeaning(from: int, to: int, samples: seq<Row<Sample>>, transitions: seq<Row<Transition>>, n: nat)
    ensures SummaryOf(from, to, samples, transitions, n).warnings
         == if StuckOn(samples, transitions, "PROCHOT_CPU") && StuckOn(samples, transitions, "PROCHOT_GPU") then [StickyProchot] else []
  {
    AlwaysOnMeaning(samples, transitions, "PROCHOT_CPU");
    AlwaysOnMeaning(samples, transitions, "PROCHOT_GPU");
  }

  // ---- a summary does not depend on the order of the rows ----

  lemma {:induction false} MaxPowerUnique(a: seq<Row<Sample>>, b: seq<Row<Sample>>)
    requires SameRows(a, b)
    ensures MaxPower(a) == MaxPower(b)
  {
    MaxPowerMeaning(a);
    MaxPowerMeaning(b);
  }

  lemma {:induction false} MaxTemperatureUnique(a: seq<Row<Sample>>, b: seq<Row<Sample>>)
    requires SameRows(a, b)
    ensures MaxTemperature(a) == MaxTemperature(b)
  {
    MaxTemperatureMeaning(a);
    MaxTemperatureMeaning(b);
  }

  lemma {:induction false} MaxSort(samples: seq<Row<Sample>>)
    ensures MaxPower(SortByTs(samples)) == MaxPower(samples)
    ensures MaxTemperature(SortByTs(samples)) == MaxTemperature(samples)
  {
    SameMembers(SortByTs(samples), samples);
    MaxPowerUnique(SortByTs(samples), samples);
    MaxTemperatureUnique(SortByTs(samples), samples);
  }

  lemma {:induction false} EntrySort(samples: seq<Row<Sample>>, transitions: seq<Row<Transition>>, flag: string)
    ensures Entry(SortByTs(samples), SortByTs(transitions), flag) == Entry(samples, transitions, flag)
  {
    SumSort(samples, Listings(flag));
    SelectSort(transitions, Asserting(flag));
    SelectSort(transitions, Clearing(flag));
  }

  lemma {:induction false} NamesSort(samples: seq<Row<Sample>>, transitions: seq<Row<Transition>>)
    ensures ActiveNames(SortByTs(samples), SortByTs(transitions)) == ActiveNames(samples, transitions)
  {
    SameMembers(SortByTs(samples), samples);
    SameMembers(SortByTs(transitions), transitions);
    NamesOfSameRows(SortByTs(samples), SortByTs(transitions), samples, transitions);
  }

  lemma {:induction false} NamesOfSameRows(s: seq<Row<Sample>>, t: seq<Row<Transition>>, samples: seq<Row<Sample>>, transitions: seq<Row<Transition>>)
    requires SameRows(s, samples) && SameRows(t, transitions)
    ensures ActiveNames(s, t) == ActiveNames(samples, transitions)
  {
    forall f ensures f in ActiveNames(s, t) <==> f in ActiveNames(samples, transitions) {
      LoggedFlagsMeaning(transitions, f);
      LoggedFlagsMeaning(t, f);
      ListedFlagsMeaning(samples, f);
      ListedFlagsMeaning(s, f);
    }
    SortedAscends(LoggedFlags(transitions) + ListedFlags(samples));
    SortedAscends(LoggedFlags(t) + ListedFlags(s));
    AscendingUnique(ActiveNames(s, t), ActiveNames(samples, transitions));
  }

  lemma {:induction false} ActivitySort(samples: seq<Row<Sample>>, transitions: seq<Row<Transition>>)
    ensures ActivityOf(SortByTs(samples), SortByTs(transitions)) == ActivityOf(samples, transitions)
  {
    NamesSort(samples, transitions);
    var names := ActiveNames(samples, transitions);
    forall i | 0 <= i < |names|
      ensures Entry(SortByTs(samples), SortByTs(transitions), names[i]) == Entry(samples, transitions, names[i])
    {
      EntrySort(samples, transitions, names[i]);
    }
  }

  lemma {:induction false} AvgSort(samples: seq<Row<Sample>>)
    ensures AvgPower(SortByTs(samples)) == AvgPower(samples)
  {
    SumSort(samples, HasPower());
    SumSort(samples, PowerOf());
  }

  lemma {:induction false} SummarySort(from: int, to: int, samples: seq<Row<Sample>>, transitions: seq<Row<Transition>>, n: nat)
    ensures SummaryOf(from, to, SortByTs(samples), SortByTs(transitions), n) == SummaryOf(from, to, samples, transitions, n)
  {
    MaxSort(samples);
    AvgSort(samples);
    ActivitySort(samples, transitions);
  }
}

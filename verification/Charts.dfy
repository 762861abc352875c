/** The flag chart against the summary: its ones are the active samples, its edges the logged transitions. */
module Charts {
  import opened Rows
  import opened Throttle
  import opened Database
  import opened Retention
  import opened Summaries
  import opened Collector
  import opened Invariants
  import opened Replay
  import opened Scenarios
  import opened Downsample

  datatype Point = Point(ts: int, on: bool)

  function PointOf(names: BitNames, s: Row<Sample>, flag: string): Point {
    Point(s.ts, FlagActive(names, MaskOf(s.body), flag))
  }

  function Points(names: BitNames, samples: seq<Row<Sample>>, flag: string): (r: seq<Point>)
    ensures |r| == |samples| && forall i :: 0 <= i < |r| ==> r[i] == PointOf(names, samples[i], flag)
  {
    seq(|samples|, i requires 0 <= i < |samples| => PointOf(names, samples[i], flag))
  }

  /** `flag_series`: decoded from the stored masks, then thinned if a positive number of points is asked for. */
  function FlagSeries(names: BitNames, db: Db, device: Option<string>, flag: string, from: int, to: int, maxPoints: Option<nat>): seq<Point> {
    var points := Points(names, ListSamples(db, from, to, device), flag);
    if maxPoints.Some? then ByStride(points, maxPoints.value) else points
  }

  /** Without a limit, or within it, a point per listed sample, at its time. */
  lemma {:induction false} WholeSeries(names: BitNames, db: Db, device: Option<string>, flag: string, from: int, to: int, maxPoints: Option<nat>)
    requires maxPoints.None? || maxPoints.value == 0 || |ListSamples(db, from, to, device)| <= maxPoints.value
    ensures var series, samples := FlagSeries(names, db, device, flag, from, to, maxPoints), ListSamples(db, from, to, device);
            && |series| == |samples|
            && forall k :: 0 <= k < |series| ==> series[k].ts == samples[k].ts && series[k].on == FlagActive(names, MaskOf(samples[k].body), flag)
  { }

  /** Beyond the limit, the points of every so many samples, with the least stride that meets it. */
  lemma {:induction false} ThinnedSeries(names: BitNames, db: Db, device: Option<string>, flag: string, from: int, to: int, maxPoints: nat)
    returns (stride: nat)
    requires 0 < maxPoints < |ListSamples(db, from, to, device)|
    ensures var points, series := Points(names, ListSamples(db, from, to, device), flag),
                                  FlagSeries(names, db, device, flag, from, to, Some(maxPoints));
            && stride > 1 && stride * maxPoints >= |points| > (stride - 1) * maxPoints
            && 0 < |series| <= maxPoints
            && (forall k :: 0 <= k < |series| ==> 0 <= k * stride < |points| && series[k] == points[k * stride])
            && |points| - (|series| - 1) * stride <= stride
  {
    var points := Points(names, ListSamples(db, from, to, device), flag);
    stride := ByLeastStride(points, maxPoints);
    assert FlagSeries(names, db, device, flag, from, to, Some(maxPoints)) == ByStride(points, maxPoints);
  }

  predicate IsOne(p: Point) { p.on }

  // ---- ones ----

  /** A bit without a name is on. */
  predicate UndecodedBit(names: BitNames, mask: u64) {
    exists bit :: 0 <= bit < 64 && names[bit] == UNKNOWN && BitSet(mask, bit)
  }

  function Undecoded(names: BitNames): Row<Sample> -> bool {
    (s: Row<Sample>) => UndecodedBit(names, MaskOf(s.body))
  }

  lemma {:induction false} PlaceholderNeverListed(names: BitNames, mask: u64)
    ensures UNKNOWN !in ActiveFlags(names, mask)
    ensures FlagActive(names, mask, UNKNOWN) <==> UndecodedBit(names, mask)
  {
    ActiveFlagsMeaning(names, mask);
  }

  ghost predicate Collected(names: BitNames, samples: seq<Row<Sample>>) {
    forall s :: s in samples ==> s.body.flags == ActiveFlags(names, MaskOf(s.body))
  }

  lemma {:induction false} OneSample(names: BitNames, s: Row<Sample>, flag: string)
    requires s.body.flags == ActiveFlags(names, MaskOf(s.body))
    ensures (if PointOf(names, s, flag).on then 1 else 0)
         == Listings(flag)(s) + if flag == UNKNOWN && UndecodedBit(names, MaskOf(s.body)) then 1 else 0
  {
    ActiveFlagsMeaning(names, MaskOf(s.body));
    ListedOnce(s.body.flags, flag);
    PlaceholderNeverListed(names, MaskOf(s.body));
    if flag != UNKNOWN { FlagActiveIsListed(names, MaskOf(s.body), flag); }
  }

  lemma {:induction false} PointsPush(names: BitNames, front: seq<Row<Sample>>, last: Row<Sample>, flag: string)
    ensures Points(names, front + [last], flag) == Points(names, front, flag) + [PointOf(names, last, flag)]
  { }

  lemma {:induction false} CollectedFront(names: BitNames, samples: seq<Row<Sample>>)
    requires Collected(names, samples) && samples != []
    ensures Collected(names, samples[..|samples| - 1])
    ensures samples[|samples| - 1].body.flags == ActiveFlags(names, MaskOf(samples[|samples| - 1].body))
  {
    assert samples[|samples| - 1] in samples;
  }

  /** The ones of the series are the samples that list the flag; only the placeholder for undecoded bits is charted
      without ever being listed. */
  lemma {:induction false} OnesAreListings(names: BitNames, samples: seq<Row<Sample>>, flag: string)
    requires Collected(names, samples)
    ensures |Select(Points(names, samples, flag), IsOne)|
         == Occurrences(samples, flag) + if flag == UNKNOWN then |Select(samples, Undecoded(names))| else 0
  {
    if samples == [] {
      assert Points(names, samples, flag) == [];
    } else {
      var front, last := samples[..|samples| - 1], samples[|samples| - 1];
      CollectedFront(names, samples);
      OnesAreListings(names, front, flag);
      OneSample(names, last, flag);
      PointsPush(names, front, last, flag);
      assert samples == front + [last];
      CountPush(Points(names, front, flag), PointOf(names, last, flag), IsOne);
      CountPush(front, last, Undecoded(names));
    }
  }

  /** In every reachable state, for every window, device and named flag: the undownsampled chart shows as many ones as
      the summary counts active samples. */
  lemma {:induction false} ChartOnesMatchSummary(names: BitNames, st: State, device: Option<string>, flag: string, from: int, to: int)
    requires Inv(names, st) && flag != UNKNOWN
    ensures |Select(FlagSeries(names, st.db, device, flag, from, to, None), IsOne)|
         == Occurrences(Select(st.db.samples.rows, SampleIn(from, to, device)), flag)
  {
    var rows := Select(st.db.samples.rows, SampleIn(from, to, device));
    SameMembers(SortByTs(rows), rows);
    forall s | s in SortByTs(rows) ensures s.body.flags == ActiveFlags(names, MaskOf(s.body)) { assert s in rows; }
    OnesAreListings(names, SortByTs(rows), flag);
    SumSort(rows, Listings(flag));
  }

  // ---- edges ----

  lemma {:induction false} KnownIsCharted(names: BitNames, s: Row<Sample>, flag: string)
    requires flag != UNKNOWN
    ensures flag in Known(names, MaskOf(s.body)) <==> PointOf(names, s, flag).on
  {
    ActiveFlagsMeaning(names, MaskOf(s.body));
    FlagActiveIsListed(names, MaskOf(s.body), flag);
  }

  predicate IsEdge(before: Point, p: Point, rising: bool) {
    before.on != rising && p.on == rising
  }

  /** Edges of one direction in points[a..b], each seen against the point before it. */
  function Edges(points: seq<Point>, rising: bool, a: nat, b: nat): nat
    requires 1 <= a && b <= |points|
    decreases b
  {
    if b <= a then 0 else
    Edges(points, rising, a, b - 1) + if IsEdge(points[b - 2], points[b - 1], rising) then 1 else 0
  }

  /** Rising and falling edges alternate, so they differ by what the flag is at the two ends. */
  lemma {:induction false} EdgesAlternate(points: seq<Point>, a: nat, b: nat)
    requires 1 <= a <= b <= |points|
    ensures Edges(points, true, a, b) - Edges(points, false, a, b)
         == (if points[b - 1].on then 1 else 0) - (if points[a - 1].on then 1 else 0)
  {
    if a < b { EdgesAlternate(points, a, b - 1); }
  }

  function Toward(flag: string, value: bool): Throttle.Change -> bool {
    (c: Throttle.Change) => c.flag == flag && c.newValue == value
  }

  function LoggedToward(flag: string, value: bool): Row<Transition> -> bool {
    if value then Asserting(flag) else Clearing(flag)
  }

  lemma {:induction false} CountChanges(rows: seq<Row<Transition>>, flag: string, value: bool)
    ensures |Select(rows, LoggedToward(flag, value))| == |Select(ChangesOf(rows), Toward(flag, value))|
  {
    if rows != [] {
      var front, t := rows[..|rows| - 1], rows[|rows| - 1];
      CountChanges(front, flag, value);
      CountPush(ChangesOf(front), Change(t.body.flag, t.body.oldValue, t.body.newValue), Toward(flag, value));
    }
  }

  lemma {:induction false} AtMostOne(changes: seq<Throttle.Change>, flag: string, value: bool)
    requires FlagsDistinct(changes)
    ensures |Select(changes, Toward(flag, value))| == if exists c :: c in changes && Toward(flag, value)(c) then 1 else 0
  {
    if changes != [] {
      var front, last := changes[..|changes| - 1], changes[|changes| - 1];
      AtMostOne(front, flag, value);
      assert changes == front + [last] && last in changes;
    }
  }

  /** A sample logged as the difference from a mask holds the flag's edge against that mask, if there is one. */
  lemma {:induction false} EdgeOfMask(names: BitNames, db: Db, mask: u64, s: Row<Sample>, flag: string, value: bool)
    requires LoggedFromMask(names, db, mask, s) && flag != UNKNOWN
    ensures |Select(LoggedWith(db, s.id), LoggedToward(flag, value))|
         == if (flag in Known(names, mask)) != value && PointOf(names, s, flag).on == value then 1 else 0
  {
    var d := Diff(names, mask, MaskOf(s.body));
    CountChanges(LoggedWith(db, s.id), flag, value);
    DiffMeaning(names, mask, MaskOf(s.body));
    AtMostOne(d, flag, value);
    KnownIsCharted(names, s, flag);
    var c := Change(flag, flag in Known(names, mask), PointOf(names, s, flag).on);
    assert c in d <==> c.oldValue != c.newValue;
  }

  /** One sample's log holds the flag's edge against the sample before it, if there is one. */
  lemma {:induction false} EdgeIsLogged(names: BitNames, db: Db, before: Row<Sample>, s: Row<Sample>, flag: string, value: bool)
    requires LoggedAt(names, db, before, s) && flag != UNKNOWN
    ensures |Select(LoggedWith(db, s.id), LoggedToward(flag, value))|
         == if IsEdge(PointOf(names, before, flag), PointOf(names, s, flag), value) then 1 else 0
  {
    EdgeOfMask(names, db, MaskOf(before.body), s, flag, value);
    KnownIsCharted(names, before, flag);
  }

  function LoggedCount(db: Db, device: string, after: int, upTo: int, flag: string, value: bool): nat {
    |Select(Select(db.transitions.rows, LoggedBetween(device, after, upTo)), LoggedToward(flag, value))|
  }

  lemma {:induction false} CountSplits(rows: seq<Row<Transition>>, device: string, flag: string, value: bool, a: int, b: int, c: int)
    requires SampleIdsAscend(rows) && a <= b <= c
    ensures |Select(Select(rows, LoggedBetween(device, a, c)), LoggedToward(flag, value))|
         == |Select(Select(rows, LoggedBetween(device, a, b)), LoggedToward(flag, value))|
            + |Select(Select(rows, LoggedBetween(device, b, c)), LoggedToward(flag, value))|
  {
    SplitLog(rows, device, a, b, c);
    SelectAppend(Select(rows, LoggedBetween(device, a, b)), Select(rows, LoggedBetween(device, b, c)), LoggedToward(flag, value));
  }

  /** One more sample of the run adds its own log. */
  lemma {:induction false} HopCount(names: BitNames, st: State, device: string, flag: string, value: bool, a: nat, b: nat)
    requires ReplayInv(names, st, device) && a < b < |DeviceRun(st, device)|
    ensures LoggedCount(st.db, device, DeviceRun(st, device)[a].id, DeviceRun(st, device)[b].id, flag, value)
         == LoggedCount(st.db, device, DeviceRun(st, device)[a].id, DeviceRun(st, device)[b - 1].id, flag, value)
            + |Select(LoggedWith(st.db, DeviceRun(st, device)[b].id), LoggedToward(flag, value))|
  {
    var run := DeviceRun(st, device);
    DeviceRunIds(names, st, device);
    CountSplits(st.db.transitions.rows, device, flag, value, run[a].id, run[b - 1].id, run[b].id);
    LogOfOneSample(names, st, device, b);
  }

  /** The log between run[a] and run[k] is the log up to run[k - 1] and the edge at run[k]. */
  ghost predicate Hop(db: Db, device: string, run: seq<Row<Sample>>, points: seq<Point>, flag: string, value: bool, a: nat, k: nat)
    requires a < k < |run| == |points|
  {
    LoggedCount(db, device, run[a].id, run[k].id, flag, value)
    == LoggedCount(db, device, run[a].id, run[k - 1].id, flag, value) + if IsEdge(points[k - 1], points[k], value) then 1 else 0
  }

  lemma {:induction false} HopIsEdge(names: BitNames, st: State, device: string, flag: string, value: bool, a: nat, k: nat)
    requires ReplayInv(names, st, device) && a < k < |DeviceRun(st, device)| && flag != UNKNOWN
    ensures Hop(st.db, device, DeviceRun(st, device), Points(names, DeviceRun(st, device), flag), flag, value, a, k)
  {
    var run := DeviceRun(st, device);
    HopCount(names, st, device, flag, value, a, k);
    assert LoggedAt(names, st.db, run[k - 1], run[k]);
    EdgeIsLogged(names, st.db, run[k - 1], run[k], flag, value);
  }

  lemma {:induction false} NothingLogged(db: Db, device: string, id: int, flag: string, value: bool)
    ensures LoggedCount(db, device, id, id, flag, value) == 0
  {
    SelectNone(db.transitions.rows, LoggedBetween(device, id, id));
  }

  lemma {:induction false} HopsAddUp(db: Db, device: string, run: seq<Row<Sample>>, points: seq<Point>, flag: string, value: bool, p: nat, b: nat)
    requires p < b <= |run| == |points|
    requires forall k :: p < k < |run| ==> Hop(db, device, run, points, flag, value, p, k)
    ensures LoggedCount(db, device, run[p].id, run[b - 1].id, flag, value) == Edges(points, value, p + 1, b)
  {
    if b == p + 1 {
      NothingLogged(db, device, run[p].id, flag, value);
    } else {
      HopsAddUp(db, device, run, points, flag, value, p, b - 1);
      assert Hop(db, device, run, points, flag, value, p, b - 1);
    }
  }

  /** Between two samples of the device's run, the logged assertions and clearings of a flag are its edges. */
  lemma {:induction false} EdgesAreLogged(names: BitNames, st: State, device: string, flag: string, value: bool, p: nat, b: nat)
    requires ReplayInv(names, st, device) && p < b <= |DeviceRun(st, device)| && flag != UNKNOWN
    ensures LoggedCount(st.db, device, DeviceRun(st, device)[p].id, DeviceRun(st, device)[b - 1].id, flag, value)
         == Edges(Points(names, DeviceRun(st, device), flag), value, p + 1, b)
  {
    var run, points := DeviceRun(st, device), Points(names, DeviceRun(st, device), flag);
    forall k | p < k < |run| ensures Hop(st.db, device, run, points, flag, value, p, k) {
      HopIsEdge(names, st, device, flag, value, p, k);
    }
    HopsAddUp(st.db, device, run, points, flag, value, p, b);
  }

  /** The window cuts run[a..b] out of the device's run, and holds no sample of an earlier process. */
  ghost predicate Cuts(st: State, device: string, from: int, to: int, a: nat, b: nat) {
    var run := DeviceRun(st, device);
    && a < b <= |run|
    && (forall i :: 0 <= i < |run| ==> (from <= run[i].ts <= to <==> a <= i < b))
    && (forall s :: s in st.db.samples.rows && s.body.device == device && from <= s.ts <= to ==> s.id > st.runStart)
  }

  /** The id the window's transitions come after: that of the sample before it, or the process start. */
  function BaseId(st: State, device: string, a: nat): int
    requires a <= |DeviceRun(st, device)|
  {
    if a == 0 then st.runStart else DeviceRun(st, device)[a - 1].id
  }

  /** The index of the point the window's first edge is seen against. */
  function Baseline(a: nat): nat {
    if a == 0 then 0 else a - 1
  }

  lemma {:induction false} EarlierTransitionIsOutside(st: State, device: string, from: int, to: int, a: nat, b: nat, t: Row<Transition>)
    requires Linked(st.db) && Cuts(st, device, from, to, a, b) && t in st.db.transitions.rows && t.body.sampleId <= st.runStart
    ensures !TransitionIn(from, to, Some(device))(t)
  {
    assert SampleOf(st.db, t);
  }

  lemma {:induction false} WindowRowIsLoggedBetween(names: BitNames, st: State, device: string, from: int, to: int, a: nat, b: nat, t: Row<Transition>)
    requires Inv(names, st) && Cuts(st, device, from, to, a, b)
    requires t in st.db.transitions.rows && t.body.device == device
    ensures from <= t.ts <= to <==> BaseId(st, device, a) < t.body.sampleId <= DeviceRun(st, device)[b - 1].id
  {
    var run := DeviceRun(st, device);
    DeviceRunIds(names, st, device);
    if t.body.sampleId > st.runStart {
      var j := SampleInRun(names, st, t);
      assert a > 0 ==> (run[a - 1].id < run[j].id <==> a - 1 < j);
      assert run[j].id <= run[b - 1].id <==> j <= b - 1;
    } else {
      EarlierTransitionIsOutside(st, device, from, to, a, b, t);
    }
  }

  lemma {:induction false} WindowIsLoggedBetween(names: BitNames, st: State, device: string, from: int, to: int, a: nat, b: nat)
    requires Inv(names, st) && Cuts(st, device, from, to, a, b)
    ensures Select(st.db.transitions.rows, TransitionIn(from, to, Some(device)))
         == Select(st.db.transitions.rows, LoggedBetween(device, BaseId(st, device, a), DeviceRun(st, device)[b - 1].id))
  {
    var base, last := BaseId(st, device, a), DeviceRun(st, device)[b - 1].id;
    forall t | t in st.db.transitions.rows
      ensures TransitionIn(from, to, Some(device))(t) == LoggedBetween(device, base, last)(t)
    {
      if t.body.device == device { WindowRowIsLoggedBetween(names, st, device, from, to, a, b, t); }
    }
    SelectSame(st.db.transitions.rows, TransitionIn(from, to, Some(device)), LoggedBetween(device, base, last));
  }

  /** Since the process start the device has logged nothing before its oldest sample. */
  lemma {:induction false} FirstSampleLog(names: BitNames, st: State, device: string)
    requires Inv(names, st) && DeviceRun(st, device) != []
    ensures Select(st.db.transitions.rows, LoggedBetween(device, st.runStart, DeviceRun(st, device)[0].id))
         == LoggedWith(st.db, DeviceRun(st, device)[0].id)
  {
    var run, rows := DeviceRun(st, device), st.db.transitions.rows;
    DeviceRunIds(names, st, device);
    assert run[0] in run;
    forall t | t in rows ensures LoggedBetween(device, st.runStart, run[0].id)(t) == OfSample(run[0].id)(t) {
      if t.body.sampleId == run[0].id { SampleDevice(names, st, t, run[0]); }
      if t.body.device == device && t.body.sampleId > st.runStart { var j := SampleInRun(names, st, t); }
    }
    SelectSame(rows, LoggedBetween(device, st.runStart, run[0].id), OfSample(run[0].id));
  }

  /** What the window's first sample logged itself, where its predecessor is not in the run. */
  function Carried(st: State, device: string, a: nat, flag: string, value: bool): nat
    requires DeviceRun(st, device) != []
  {
    if a == 0 then |Select(LoggedWith(st.db, DeviceRun(st, device)[0].id), LoggedToward(flag, value))| else 0
  }

  lemma {:induction false} CountFromStart(names: BitNames, st: State, device: string, flag: string, value: bool, b: nat)
    requires ReplayInv(names, st, device) && 0 < b <= |DeviceRun(st, device)|
    ensures LoggedCount(st.db, device, st.runStart, DeviceRun(st, device)[b - 1].id, flag, value)
         == Carried(st, device, 0, flag, value)
            + LoggedCount(st.db, device, DeviceRun(st, device)[0].id, DeviceRun(st, device)[b - 1].id, flag, value)
  {
    var run, rows := DeviceRun(st, device), st.db.transitions.rows;
    DeviceRunIds(names, st, device);
    SplitLog(rows, device, st.runStart, run[0].id, run[b - 1].id);
    FirstSampleLog(names, st, device);
    SelectAppend(LoggedWith(st.db, run[0].id), Select(rows, LoggedBetween(device, run[0].id, run[b - 1].id)), LoggedToward(flag, value));
  }

  lemma {:induction false} InsertLast<T>(s: seq<Row<T>>, x: Row<T>)
    requires s != [] ==> s[|s| - 1].ts <= x.ts
    ensures InsertByTs(s, x) == s + [x]
  { }

  lemma {:induction false} SortPush<T>(s: seq<Row<T>>, x: Row<T>)
    ensures SortByTs(s + [x]) == InsertByTs(SortByTs(s), x)
  {
    assert (s + [x])[..|s|] == s;
  }

  lemma {:induction false} SortedFront<T>(front: seq<Row<T>>, last: Row<T>)
    requires TsAscend(front + [last])
    ensures TsAscend(front) && (front != [] ==> front[|front| - 1].ts <= last.ts)
  {
    var s := front + [last];
    assert forall i :: 0 <= i < |front| ==> s[i] == front[i];
    assert front != [] ==> s[|front| - 1].ts <= s[|front|].ts;
  }

  lemma {:induction false} SortedStays<T>(s: seq<Row<T>>)
    requires TsAscend(s)
    ensures SortByTs(s) == s
  {
    if s != [] {
      var front, last := s[..|s| - 1], s[|s| - 1];
      assert s == front + [last];
      SortedFront(front, last);
      SortedStays(front);
      SortPush(front, last);
      InsertLast(front, last);
    }
  }

  ghost predicate HoldsOn<T>(s: seq<T>, p: T -> bool, a: nat, b: nat) {
    forall i :: 0 <= i < |s| ==> p(s[i]) == (a <= i < b)
  }

  lemma {:induction false} HoldsOnFront<T>(front: seq<T>, last: T, p: T -> bool, a: nat, b: nat)
    requires HoldsOn(front + [last], p, a, b) && b <= |front| + 1
    ensures HoldsOn(front, p, a, if b <= |front| then b else |front|) && p(last) == (a <= |front| < b)
  {
    var s := front + [last];
    assert p(s[|front|]) == (a <= |front| < b);
    forall i | 0 <= i < |front| ensures p(front[i]) == (a <= i < b) { assert p(s[i]) == (a <= i < b); }
  }

  lemma {:induction false} SelectSlice<T>(s: seq<T>, p: T -> bool, a: nat, b: nat)
    requires a <= b <= |s| && HoldsOn(s, p, a, b)
    ensures Select(s, p) == s[a..b]
  {
    if a == |s| {
      SelectNone(s, p);
    } else {
      var front, last := s[..|s| - 1], s[|s| - 1];
      assert s == front + [last];
      HoldsOnFront(front, last, p, a, b);
      if b <= |front| {
        SelectSlice(front, p, a, b);
      } else {
        SelectSlice(front, p, a, |front|);
      }
      SlicePush(front, last, a, b);
    }
  }

  lemma {:induction false} SlicePush<T>(front: seq<T>, last: T, a: nat, b: nat)
    requires a <= |front| && a <= b <= |front| + 1
    ensures (front + [last])[a..b] == if b <= |front| then front[a..b] else front[a..] + [last]
  { }

  /** The listed samples of the window are that slice of the run. */
  lemma {:induction false} ListedSlice(st: State, device: string, from: int, to: int, a: nat, b: nat)
    requires Cuts(st, device, from, to, a, b) && TsAscend(DeviceRun(st, device))
    ensures ListSamples(st.db, from, to, Some(device)) == DeviceRun(st, device)[a..b]
  {
    var rows, run := st.db.samples.rows, DeviceRun(st, device);
    SelectTwice(rows, OfRun(device, st.runStart), InWindow(from, to), SampleIn(from, to, Some(device)));
    assert HoldsOn(run, InWindow(from, to), a, b);
    SelectSlice(run, InWindow(from, to), a, b);
    SortedStays(run[a..b]);
  }

  lemma {:induction false} CutPoint<T>(run: seq<Row<T>>, bound: int) returns (k: nat)
    requires TsAscend(run)
    ensures k <= |run| && forall i :: 0 <= i < |run| ==> (run[i].ts < bound <==> i < k)
  {
    if run == [] || run[|run| - 1].ts < bound {
      k := |run|;
    } else {
      k := CutPoint(run[..|run| - 1], bound);
      assert forall i :: 0 <= i < |run| - 1 ==> run[i] == run[..|run| - 1][i];
    }
  }

  /** Every window that holds samples of an ordered run, and none of an earlier process, cuts a slice out of it. */
  lemma {:induction false} WindowCuts(st: State, device: string, from: int, to: int) returns (a: nat, b: nat)
    requires TsAscend(DeviceRun(st, device))
    requires exists s :: s in DeviceRun(st, device) && from <= s.ts <= to
    requires forall s :: s in st.db.samples.rows && s.body.device == device && from <= s.ts <= to ==> s.id > st.runStart
    ensures Cuts(st, device, from, to, a, b)
  {
    var run := DeviceRun(st, device);
    a := CutPoint(run, from);
    b := CutPoint(run, to + 1);
    var s :| s in run && from <= s.ts <= to;
    var i :| 0 <= i < |run| && run[i] == s;
  }

  lemma {:induction false} SeriesIsSlice(names: BitNames, st: State, device: string, flag: string, from: int, to: int, a: nat, b: nat)
    requires Cuts(st, device, from, to, a, b) && TsAscend(DeviceRun(st, device))
    ensures FlagSeries(names, st.db, Some(device), flag, from, to, None) == Points(names, DeviceRun(st, device), flag)[a..b]
  {
    ListedSlice(st, device, from, to, a, b);
  }

  lemma {:induction false} WindowCount(names: BitNames, st: State, device: string, flag: string, value: bool, from: int, to: int, a: nat, b: nat)
    requires Inv(names, st) && Cuts(st, device, from, to, a, b)
    ensures |Select(Select(st.db.transitions.rows, TransitionIn(from, to, Some(device))), LoggedToward(flag, value))|
         == LoggedCount(st.db, device, BaseId(st, device, a), DeviceRun(st, device)[b - 1].id, flag, value)
  {
    WindowIsLoggedBetween(names, st, device, from, to, a, b);
  }

  lemma {:induction false} CountIsEdges(names: BitNames, st: State, device: string, flag: string, value: bool, a: nat, b: nat)
    requires ReplayInv(names, st, device) && flag != UNKNOWN && a < b <= |DeviceRun(st, device)|
    ensures LoggedCount(st.db, device, BaseId(st, device, a), DeviceRun(st, device)[b - 1].id, flag, value)
         == Carried(st, device, a, flag, value) + Edges(Points(names, DeviceRun(st, device), flag), value, Baseline(a) + 1, b)
  {
    EdgesAreLogged(names, st, device, flag, value, Baseline(a), b);
    if a == 0 {
      CountFromStart(names, st, device, flag, value, b);
    } else {
      assert BaseId(st, device, a) == DeviceRun(st, device)[Baseline(a)].id;
    }
  }

  lemma {:induction false} WindowCountIsEdges(names: BitNames, st: State, device: string, flag: string, value: bool, from: int, to: int, a: nat, b: nat)
    requires ReplayInv(names, st, device) && flag != UNKNOWN && Cuts(st, device, from, to, a, b)
    ensures |Select(Select(st.db.transitions.rows, TransitionIn(from, to, Some(device))), LoggedToward(flag, value))|
         == Carried(st, device, a, flag, value) + Edges(Points(names, DeviceRun(st, device), flag), value, Baseline(a) + 1, b)
  {
    WindowCount(names, st, device, flag, value, from, to, a, b);
    CountIsEdges(names, st, device, flag, value, a, b);
  }

  /** A log holds no edge of a flag exactly when it does not mention it. */
  lemma {:induction false} UnmentionedCountsNothing(rows: seq<Row<Transition>>, flag: string)
    ensures |Select(rows, Asserting(flag))| + |Select(rows, Clearing(flag))| == 0 <==> !Mentions(ChangesOf(rows), flag)
  {
    var changes := ChangesOf(rows);
    CountChanges(rows, flag, true);
    CountChanges(rows, flag, false);
    if Mentions(changes, flag) {
      var c :| c in changes && c.flag == flag;
      assert c in Select(changes, Toward(flag, c.newValue));
    } else {
      SelectNone(changes, Toward(flag, true));
      SelectNone(changes, Toward(flag, false));
    }
  }

  /** What the oldest sample logged about a flag is its edge against whatever was known before it. */
  lemma {:induction false} CarriedIsAnEdge(names: BitNames, st: State, device: string, flag: string) returns (before: bool)
    requires FirstLogged(names, st, device) && DeviceRun(st, device) != [] && flag != UNKNOWN
    ensures var on := PointOf(names, DeviceRun(st, device)[0], flag).on;
            && Carried(st, device, 0, flag, true) == (if !before && on then 1 else 0)
            && Carried(st, device, 0, flag, false) == if before && !on then 1 else 0
  {
    var first := DeviceRun(st, device)[0];
    var mask :| LoggedFromMask(names, st.db, mask, first);
    before := flag in Known(names, mask);
    EdgeOfMask(names, st.db, mask, first, flag, true);
    EdgeOfMask(names, st.db, mask, first, flag, false);
  }

  lemma {:induction false} CountsDifferByAtMostOne(names: BitNames, st: State, device: string, flag: string, a: nat, b: nat)
    requires FirstLogged(names, st, device) && flag != UNKNOWN && a < b <= |DeviceRun(st, device)|
    ensures var points, first := Points(names, DeviceRun(st, device), flag), Baseline(a) + 1;
            -1 <= Carried(st, device, a, flag, true) + Edges(points, true, first, b)
                  - Carried(st, device, a, flag, false) - Edges(points, false, first, b) <= 1
  {
    EdgesAlternate(Points(names, DeviceRun(st, device), flag), Baseline(a) + 1, b);
    if a == 0 { var before := CarriedIsAnEdge(names, st, device, flag); }
  }

  /** For one device and one process, in every window that holds its samples: the chart is the slice of the run's points.
      The summary's assert and clear counts are the rising and falling edges, the first seen against the point before the
      window, plus what the oldest sample logged itself if the window starts there. So they are exactly the edges unless
      that sample's log touches the flag, and differ by at most one in any case. */
  lemma {:induction false} ChartEdgesMatchSummary(names: BitNames, st: State, device: string, flag: string, from: int, to: int, a: nat, b: nat)
    requires ReplayInv(names, st, device) && FirstLogged(names, st, device) && TsAscend(DeviceRun(st, device))
    requires Cuts(st, device, from, to, a, b) && flag != UNKNOWN
    ensures var points, first := Points(names, DeviceRun(st, device), flag), Baseline(a) + 1;
            var window := Select(st.db.transitions.rows, TransitionIn(from, to, Some(device)));
            var asserts, clears := |Select(window, Asserting(flag))|, |Select(window, Clearing(flag))|;
            && FlagSeries(names, st.db, Some(device), flag, from, to, None) == points[a..b]
            && asserts == Carried(st, device, a, flag, true) + Edges(points, true, first, b)
            && clears == Carried(st, device, a, flag, false) + Edges(points, false, first, b)
            && (asserts == Edges(points, true, first, b) && clears == Edges(points, false, first, b)
                <==> a > 0 || !Mentions(ChangesOf(LoggedWith(st.db, DeviceRun(st, device)[0].id)), flag))
            && -1 <= asserts - clears <= 1
  {
    SeriesIsSlice(names, st, device, flag, from, to, a, b);
    WindowCountIsEdges(names, st, device, flag, true, from, to, a, b);
    WindowCountIsEdges(names, st, device, flag, false, from, to, a, b);
    UnmentionedCountsNothing(LoggedWith(st.db, DeviceRun(st, device)[0].id), flag);
    CountsDifferByAtMostOne(names, st, device, flag, a, b);
  }

  /** The same over every clean run with ordered time, whatever was pruned. */
  lemma {:induction false} RunChartEdges(names: BitNames, policies: map<string, Context.Policy>, events: seq<Event>, device: string, flag: string,
                                         from: int, to: int, a: nat, b: nat)
    requires CleanRun(names, policies, events, device, true) && flag != UNKNOWN
    requires Cuts(Run(names, policies, INITIAL, events), device, from, to, a, b)
    ensures var st := Run(names, policies, INITIAL, events);
            var points, first := Points(names, DeviceRun(st, device), flag), Baseline(a) + 1;
            var window := Select(st.db.transitions.rows, TransitionIn(from, to, Some(device)));
            var asserts, clears := |Select(window, Asserting(flag))|, |Select(window, Clearing(flag))|;
            && (asserts == Edges(points, true, first, b) && clears == Edges(points, false, first, b)
                <==> a > 0 || !Mentions(ChangesOf(LoggedWith(st.db, DeviceRun(st, device)[0].id)), flag))
            && -1 <= asserts - clears <= 1
  {
    CleanRunIsLogged(names, policies, events, device, true);
    CleanRunFirst(names, policies, events, device, true);
    ChartEdgesMatchSummary(names, Run(names, policies, INITIAL, events), device, flag, from, to, a, b);
  }

  lemma {:induction false} StartsUnmentioned(st: State, device: string, flag: string)
    requires DeviceRun(st, device) != [] && StartsSilent(st, device)
    ensures !Mentions(ChangesOf(LoggedWith(st.db, DeviceRun(st, device)[0].id)), flag)
  { }

  /** A process that lost its first sample to no prune and no reset charts exactly what the summary counts, from its
      first window on. */
  lemma {:induction false} ProcessChartEdges(names: BitNames, policies: map<string, Context.Policy>, before: seq<Event>, since: seq<Event>,
                                             device: string, flag: string, from: int, to: int, a: nat, b: nat)
    requires CleanRun(names, policies, before + [Restart] + since, device, true) && flag != UNKNOWN
    requires SparingRun(names, policies, Run(names, policies, INITIAL, before + [Restart]), since, device)
    requires Cuts(Run(names, policies, INITIAL, before + [Restart] + since), device, from, to, a, b)
    ensures var st := Run(names, policies, INITIAL, before + [Restart] + since);
            var points, first := Points(names, DeviceRun(st, device), flag), Baseline(a) + 1;
            var window := Select(st.db.transitions.rows, TransitionIn(from, to, Some(device)));
            && |Select(window, Asserting(flag))| == Edges(points, true, first, b)
            && |Select(window, Clearing(flag))| == Edges(points, false, first, b)
  {
    var st := Run(names, policies, INITIAL, before + [Restart] + since);
    ProcessStaysSilent(names, policies, before, since, device);
    StartsUnmentioned(st, device, flag);
    RunChartEdges(names, policies, before + [Restart] + since, device, flag, from, to, a, b);
  }

  // ---- a window in which they differ ----

  /** Two readings, and a prune that takes the first of them. */
  function PrunedReadings(ts: int): seq<Event> {
    TwoReadings(ts) + [PruneBefore(ts + 1)]
  }

  function AfterPrune(names: BitNames, ts: int): State {
    AfterTwo(names, ts).(db := AfterTwo(names, ts).db.(samples := Table([SecondRow(names, ts)], 2)))
  }

  lemma {:induction false} SelectOfTwo<T>(a: T, b: T, p: T -> bool)
    ensures Select([a, b], p) == (if p(a) then [a] else []) + (if p(b) then [b] else [])
  {
    assert [a, b][..1] == [a] && [a][..0] == [];
  }

  lemma {:induction false} SelectOfOne<T>(a: T, p: T -> bool)
    ensures Select([a], p) == if p(a) then [a] else []
  {
    assert [a][..0] == [];
  }

  lemma {:induction false} PruneOfTwo(ts: int)
    ensures Prune(AfterTwo(ONE_BIT, ts).db, ts + 1) == AfterPrune(ONE_BIT, ts).db
  {
    PruneTables(AfterTwo(ONE_BIT, ts).db, ts + 1, PRUNE_STATEMENTS);
    SelectOfTwo(FirstRow(ONE_BIT, ts), SecondRow(ONE_BIT, ts), Not(OlderThan<Sample>(ts + 1)));
    SelectOfOne(Assertion(ts), Not(OlderThan<Transition>(ts + 1)));
  }

  lemma {:induction false} RunPruned(policies: map<string, Context.Policy>, ts: int)
    ensures Run(ONE_BIT, policies, INITIAL, PrunedReadings(ts)) == AfterPrune(ONE_BIT, ts)
  {
    RunTwoReadings(policies, ts);
    RunPush(ONE_BIT, policies, INITIAL, TwoReadings(ts), PruneBefore(ts + 1));
    PruneOfTwo(ts);
  }

  lemma {:induction false} PrunedIsClean(policies: map<string, Context.Policy>, ts: int)
    ensures CleanRun(ONE_BIT, policies, PrunedReadings(ts), DEVICE, true)
  {
    var first := StoreReading(At(ts, 0), 9);
    RunOne(ONE_BIT, policies, INITIAL, first);
    StoreFirst(ts, 0);
    assert DeviceRun(INITIAL, DEVICE) == [];
    CleanPush(ONE_BIT, policies, INITIAL, [], first, DEVICE, true);
    assert [] + [first] == [first];
    SecondIsClean(policies, ts);
    assert TwoReadings(ts) == [first] + [StoreReading(At(ts + 1, 1), 9)];
    CleanPush(ONE_BIT, policies, INITIAL, [first], StoreReading(At(ts + 1, 1), 9), DEVICE, true);
    CleanPush(ONE_BIT, policies, INITIAL, TwoReadings(ts), PruneBefore(ts + 1), DEVICE, true);
  }

  lemma {:induction false} SecondIsClean(policies: map<string, Context.Policy>, ts: int)
    ensures CleanStep(ONE_BIT, Run(ONE_BIT, policies, INITIAL, [StoreReading(At(ts, 0), 9)]), StoreReading(At(ts + 1, 1), 9), DEVICE, true)
  {
    var st := Run(ONE_BIT, policies, INITIAL, [StoreReading(At(ts, 0), 9)]);
    RunOne(ONE_BIT, policies, INITIAL, StoreReading(At(ts, 0), 9));
    StoreFirst(ts, 0);
    StoreOne(st, ts + 1, 1);
    assert st.db.samples.rows == [FirstRow(ONE_BIT, ts)];
    SelectOfOne(FirstRow(ONE_BIT, ts), OfRun(DEVICE, 0));
  }

  /** A clean run with ordered time after which the window of the only sample left counts an assertion without an edge:
      the sample before it is pruned, its own log is not. */
  lemma {:induction false} PrunedWindowDiffers(policies: map<string, Context.Policy>, ts: int)
    ensures var st := Run(ONE_BIT, policies, INITIAL, PrunedReadings(ts));
            var window := Select(st.db.transitions.rows, TransitionIn(ts + 1, ts + 1, Some(DEVICE)));
            && CleanRun(ONE_BIT, policies, PrunedReadings(ts), DEVICE, true) && Cuts(st, DEVICE, ts + 1, ts + 1, 0, 1)
            && |Select(window, Asserting("SPL"))| == 1
            && Edges(Points(ONE_BIT, DeviceRun(st, DEVICE), "SPL"), true, Baseline(0) + 1, 1) == 0
  {
    var st := AfterPrune(ONE_BIT, ts);
    RunPruned(policies, ts);
    PrunedIsClean(policies, ts);
    SelectOfOne(SecondRow(ONE_BIT, ts), OfRun(DEVICE, 0));
    assert DeviceRun(st, DEVICE) == [SecondRow(ONE_BIT, ts)];
    SelectOfOne(Assertion(ts), TransitionIn(ts + 1, ts + 1, Some(DEVICE)));
    SelectOfOne(Assertion(ts), Asserting("SPL"));
  }
}

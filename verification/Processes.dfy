/** Replay beyond the running process: what later prunes, faults and restarts leave of a finished process still replays,
    and what is lost where one process ends and the next begins. */
module Processes {
  import opened Rows
  import opened Throttle
  import opened Database
  import opened Retention
  import opened Collector
  import opened Growth
  import opened Invariants
  import opened Replay

  /** The samples of one device with ids in the interval a process was handed. */
  function OfProcess(device: string, lo: nat, hi: nat): Row<Sample> -> bool {
    (s: Row<Sample>) => s.body.device == device && lo < s.id <= hi
  }

  function ProcessRun(db: Db, device: string, lo: nat, hi: nat): seq<Row<Sample>> {
    Select(db.samples.rows, OfProcess(device, lo, hi))
  }

  /** What the process logged for the device after its oldest stored sample, up to a later one. */
  function ProcessLog(db: Db, device: string, lo: nat, hi: nat, k: nat): seq<Throttle.Change>
    requires k < |ProcessRun(db, device, lo, hi)|
  {
    var run := ProcessRun(db, device, lo, hi);
    ChangesOf(Select(db.transitions.rows, LoggedBetween(device, run[0].id, run[k].id)))
  }

  // ---- every reachable log is in sample order ----

  lemma {:induction false} StepKeepsSampleOrder(names: BitNames, policies: map<string, Context.Policy>, st: State, e: Event)
    requires Inv(names, st) && SampleIdsAscend(st.db.transitions.rows)
    ensures SampleIdsAscend(Step(names, policies, st, e).db.transitions.rows)
  {
    match e {
      case StoreReading(r, quota) => if quota > 0 { StoreKeepsSampleOrder(names, st, r, quota); }
      case PruneBefore(cutoff) => PruneKeepsOrder(st.db, cutoff);
      case Reset => ResetStaysLinked(st.db, RESET_STATEMENTS);
      case Restart =>
      case _ => QuietEvent(names, policies, st, e);
    }
  }

  lemma {:induction false} ReachableOrder(names: BitNames, policies: map<string, Context.Policy>, events: seq<Event>)
    ensures SampleIdsAscend(Run(names, policies, INITIAL, events).db.transitions.rows)
  {
    if events != [] {
      var front := events[..|events| - 1];
      ReachableOrder(names, policies, front);
      ReachableInv(names, policies, front);
      StepKeepsSampleOrder(names, policies, Run(names, policies, INITIAL, front), events[|events| - 1]);
    }
  }

  // ---- a finished process stays logged ----

  ghost predicate Finished(names: BitNames, st: State, device: string, lo: nat, hi: nat) {
    && Inv(names, st) && SampleIdsAscend(st.db.transitions.rows) && lo <= hi <= st.db.samples.sequence
    && LoggedRun(names, st.db, ProcessRun(st.db, device, lo, hi)) && TsAscend(ProcessRun(st.db, device, lo, hi))
  }

  lemma {:induction false} ProcessRunRows(db: Db, device: string, lo: nat, hi: nat)
    ensures forall i :: 0 <= i < |ProcessRun(db, device, lo, hi)| ==>
              ProcessRun(db, device, lo, hi)[i] in db.samples.rows && lo < ProcessRun(db, device, lo, hi)[i].id <= hi
  {
    var run := ProcessRun(db, device, lo, hi);
    forall i | 0 <= i < |run| ensures run[i] in db.samples.rows && lo < run[i].id <= hi { assert run[i] in run; }
  }

  /** The running process is finished where it stands. */
  lemma {:induction false} FinishedNow(names: BitNames, st: State, device: string)
    requires ReplayInv(names, st, device) && TsAscend(DeviceRun(st, device))
    ensures Finished(names, st, device, st.runStart, st.db.samples.sequence)
  {
    SelectSame(st.db.samples.rows, OfRun(device, st.runStart), OfProcess(device, st.runStart, st.db.samples.sequence));
  }

  lemma {:induction false} StoreIsLater(names: BitNames, st: State, r: Reading, quota: nat, device: string, lo: nat, hi: nat)
    requires hi <= st.db.samples.sequence && quota > 0
    ensures ProcessRun(Store(names, st, r, quota).db, device, lo, hi) == ProcessRun(st.db, device, lo, hi)
  {
    StoreAddsSample(names, st, r, quota);
    assert Store(names, st, r, quota).db.samples.rows == st.db.samples.rows + [NewSample(names, st, r)];
    SelectPush(st.db.samples.rows, NewSample(names, st, r), OfProcess(device, lo, hi));
  }

  lemma {:induction false} StoreKeepsFinished(names: BitNames, st: State, r: Reading, quota: nat, device: string, lo: nat, hi: nat)
    requires Finished(names, st, device, lo, hi) && quota > 0
    ensures Finished(names, Store(names, st, r, quota), device, lo, hi)
  {
    var next := Store(names, st, r, quota);
    StoreKeeps(names, st, r, quota);
    StoreKeepsSampleOrder(names, st, r, quota);
    StoreAddsSample(names, st, r, quota);
    StoreIsLater(names, st, r, quota, device, lo, hi);
    ProcessRunRows(st.db, device, lo, hi);
    EarlierLogsStay(names, st, ProcessRun(st.db, device, lo, hi), r, quota);
    RunStaysLogged(names, st.db, next.db, ProcessRun(st.db, device, lo, hi));
  }

  lemma {:induction false} PrunedProcess(db: Db, cutoff: int, device: string, lo: nat, hi: nat)
    ensures ProcessRun(Prune(db, cutoff), device, lo, hi) == Select(ProcessRun(db, device, lo, hi), Not(OlderThan(cutoff)))
  {
    PruneTables(db, cutoff, PRUNE_STATEMENTS);
    var survives, ofProcess := Not(OlderThan<Sample>(cutoff)), OfProcess(device, lo, hi);
    var both := (s: Row<Sample>) => survives(s) && ofProcess(s);
    SelectTwice(db.samples.rows, survives, ofProcess, both);
    SelectTwice(db.samples.rows, ofProcess, survives, both);
  }

  lemma {:induction false} PruneLeavesSuffix(names: BitNames, st: State, cutoff: int, device: string, lo: nat, hi: nat)
    requires Finished(names, st, device, lo, hi)
    ensures LoggedRun(names, Prune(st.db, cutoff), ProcessRun(Prune(st.db, cutoff), device, lo, hi))
    ensures TsAscend(ProcessRun(Prune(st.db, cutoff), device, lo, hi))
  {
    var run := ProcessRun(st.db, device, lo, hi);
    PrunedProcess(st.db, cutoff, device, lo, hi);
    var k := RecentIsSuffix(run, cutoff);
    ProcessRunRows(st.db, device, lo, hi);
    forall i | k <= i < |run| ensures run[i].ts >= cutoff { assert run[k..][i - k] in Select(run, Not(OlderThan(cutoff))); }
    PruneKeepsEachLog(names, st, run, cutoff, k);
    SuffixIsLogged(names, st.db, Prune(st.db, cutoff), run, k);
  }

  lemma {:induction false} PruneKeepsFinished(names: BitNames, st: State, cutoff: int, device: string, lo: nat, hi: nat)
    requires Finished(names, st, device, lo, hi)
    ensures Finished(names, st.(db := Prune(st.db, cutoff)), device, lo, hi)
  {
    PruneKeeps(names, st, cutoff);
    PruneKeepsOrder(st.db, cutoff);
    PruneLeavesSuffix(names, st, cutoff, device, lo, hi);
  }

  lemma {:induction false} SameRowsKeepFinished(names: BitNames, st: State, next: State, device: string, lo: nat, hi: nat)
    requires Finished(names, st, device, lo, hi) && Inv(names, next)
    requires next.db.samples == st.db.samples && next.db.transitions == st.db.transitions
    ensures Finished(names, next, device, lo, hi)
  {
    forall id ensures LoggedWith(next.db, id) == LoggedWith(st.db, id) { }
    RunStaysLogged(names, st.db, next.db, ProcessRun(st.db, device, lo, hi));
  }

  lemma {:induction false} StepKeepsFinished(names: BitNames, policies: map<string, Context.Policy>, st: State, e: Event, device: string, lo: nat, hi: nat)
    requires Finished(names, st, device, lo, hi) && !e.Reset?
    ensures Finished(names, Step(names, policies, st, e), device, lo, hi)
  {
    match e {
      case StoreReading(r, quota) => if quota > 0 { StoreKeepsFinished(names, st, r, quota, device, lo, hi); }
      case PruneBefore(cutoff) => PruneKeepsFinished(names, st, cutoff, device, lo, hi);
      case Restart =>
        StepKeeps(names, policies, st, e);
        SameRowsKeepFinished(names, st, Step(names, policies, st, e), device, lo, hi);
      case _ =>
        StepKeeps(names, policies, st, e);
        QuietEvent(names, policies, st, e);
        SameRowsKeepFinished(names, st, Step(names, policies, st, e), device, lo, hi);
    }
  }

  lemma {:induction false} RunKeepsFinished(names: BitNames, policies: map<string, Context.Policy>, st: State, events: seq<Event>, device: string, lo: nat, hi: nat)
    requires Finished(names, st, device, lo, hi) && Resets(events) == 0
    ensures Finished(names, Run(names, policies, st, events), device, lo, hi)
  {
    if events != [] {
      var front, last := events[..|events| - 1], events[|events| - 1];
      NoResetAmong(events, last);
      RunKeepsFinished(names, policies, st, front, device, lo, hi);
      StepKeepsFinished(names, policies, Run(names, policies, st, front), last, device, lo, hi);
    }
  }

  // ---- and replays ----

  function LoggedUpTo(hi: nat): Row<Transition> -> bool {
    (t: Row<Transition>) => t.body.sampleId <= hi
  }

  function NumberedUpTo(hi: nat): Row<Sample> -> bool {
    (s: Row<Sample>) => s.id <= hi
  }

  /** The samples and transitions of ids up to hi, as if nothing had been stored since. */
  function Past(st: State, lo: nat, hi: nat): State {
    st.(db := EMPTY_DB.(samples := Table(Select(st.db.samples.rows, NumberedUpTo(hi)), hi),
                        transitions := Table(Select(st.db.transitions.rows, LoggedUpTo(hi)), st.db.transitions.sequence)),
        lookups := [], runStart := lo)
  }

  lemma {:induction false} PastIsLinked(db: Db, past: Db, hi: nat)
    requires Linked(db) && past == EMPTY_DB.(samples := past.samples, transitions := past.transitions)
    requires past.samples.rows == Select(db.samples.rows, NumberedUpTo(hi))
    requires past.transitions.rows == Select(db.transitions.rows, LoggedUpTo(hi))
    ensures Linked(past)
  {
    forall t | t in past.transitions.rows ensures SampleOf(past, t) {
      assert SampleOf(db, t);
      var s :| s in db.samples.rows && s.id == t.body.sampleId && s.ts == t.ts && s.body.device == t.body.device;
      assert s in past.samples.rows;
    }
  }

  lemma {:induction false} PastKeeps(names: BitNames, st: State, lo: nat, hi: nat)
    requires Inv(names, st)
    ensures Inv(names, Past(st, lo, hi))
  {
    SelectAscends(st.db.samples.rows, NumberedUpTo(hi));
    SelectAscends(st.db.transitions.rows, LoggedUpTo(hi));
    PastIsLinked(st.db, Past(st, lo, hi).db, hi);
  }

  lemma {:induction false} PastRun(st: State, device: string, lo: nat, hi: nat)
    ensures DeviceRun(Past(st, lo, hi), device) == ProcessRun(st.db, device, lo, hi)
  {
    SelectTwice(st.db.samples.rows, NumberedUpTo(hi), OfRun(device, lo), OfProcess(device, lo, hi));
  }

  lemma {:induction false} PastLogWith(st: State, lo: nat, hi: nat, id: int)
    requires id <= hi
    ensures LoggedWith(Past(st, lo, hi).db, id) == LoggedWith(st.db, id)
  {
    SelectTwice(st.db.transitions.rows, LoggedUpTo(hi), OfSample(id), OfSample(id));
  }

  lemma {:induction false} PastLog(st: State, device: string, lo: nat, hi: nat, k: nat)
    requires k < |ProcessRun(st.db, device, lo, hi)| && k < |DeviceRun(Past(st, lo, hi), device)|
    ensures LogUpTo(Past(st, lo, hi), device, k) == ProcessLog(st.db, device, lo, hi, k)
  {
    PastRun(st, device, lo, hi);
    ProcessRunRows(st.db, device, lo, hi);
    var run := ProcessRun(st.db, device, lo, hi);
    var hop := LoggedBetween(device, run[0].id, run[k].id);
    SelectTwice(st.db.transitions.rows, LoggedUpTo(hi), hop, hop);
  }

  lemma {:induction false} PastIsReplayable(names: BitNames, st: State, device: string, lo: nat, hi: nat)
    requires Finished(names, st, device, lo, hi)
    ensures Replayable(names, Past(st, lo, hi), device)
  {
    var run := ProcessRun(st.db, device, lo, hi);
    PastKeeps(names, st, lo, hi);
    PastRun(st, device, lo, hi);
    ProcessRunRows(st.db, device, lo, hi);
    SelectOrder(st.db.transitions.rows, LoggedUpTo(hi));
    forall i | 0 <= i < |run| ensures LoggedWith(Past(st, lo, hi).db, run[i].id) == LoggedWith(st.db, run[i].id) {
      PastLogWith(st, lo, hi, run[i].id);
    }
    RunStaysLogged(names, st.db, Past(st, lo, hi).db, run);
  }

  lemma {:induction false} FinishedReplays(names: BitNames, st: State, device: string, lo: nat, hi: nat, k: nat)
    requires Finished(names, st, device, lo, hi) && k < |ProcessRun(st.db, device, lo, hi)|
    ensures ApplyAll(Known(names, MaskOf(ProcessRun(st.db, device, lo, hi)[0].body)), ProcessLog(st.db, device, lo, hi, k))
         == Known(names, MaskOf(ProcessRun(st.db, device, lo, hi)[k].body))
  {
    PastRun(st, device, lo, hi);
    PastIsReplayable(names, st, device, lo, hi);
    PastLog(st, device, lo, hi, k);
    LogReplays(names, Past(st, lo, hi), device, k);
  }

  lemma {:induction false} EmptyIsLogged(names: BitNames, st: State, device: string)
    requires Inv(names, st) && SampleIdsAscend(st.db.transitions.rows) && st.runStart <= st.db.samples.sequence
    requires DeviceRun(st, device) == []
    ensures ReplayInv(names, st, device)
  { }

  /** A process starts replayable, whatever happened before. */
  lemma {:induction false} RestartIsReplayable(names: BitNames, policies: map<string, Context.Policy>, before: seq<Event>, device: string)
    ensures ReplayInv(names, Run(names, policies, INITIAL, before + [Restart]), device)
    ensures DeviceRun(Run(names, policies, INITIAL, before + [Restart]), device) == []
  {
    RestartIsSilent(names, policies, before, device);
    ReachableOrder(names, policies, before + [Restart]);
    EmptyIsLogged(names, Run(names, policies, INITIAL, before + [Restart]), device);
  }

  /** For every process of every run: any past, a stretch in which no transition INSERT of the device fails and its time
      does not go back, and then anything but a reset, faulty or not. The stretch's samples that are still stored replay
      from the oldest of them. */
  lemma {:induction false} EveryProcessReplays(names: BitNames, policies: map<string, Context.Policy>, past: seq<Event>, process: seq<Event>, rest: seq<Event>,
                                               device: string, lo: nat, hi: nat, k: nat)
    requires CleanFrom(names, policies, Run(names, policies, INITIAL, past + [Restart]), process, device, true) && Resets(rest) == 0
    requires var st := Run(names, policies, INITIAL, past + [Restart] + process); lo == st.runStart && hi == st.db.samples.sequence
    requires k < |ProcessRun(Run(names, policies, INITIAL, past + [Restart] + process + rest).db, device, lo, hi)|
    ensures var db := Run(names, policies, INITIAL, past + [Restart] + process + rest).db;
            ApplyAll(Known(names, MaskOf(ProcessRun(db, device, lo, hi)[0].body)), ProcessLog(db, device, lo, hi, k))
            == Known(names, MaskOf(ProcessRun(db, device, lo, hi)[k].body))
  {
    var start, st := Run(names, policies, INITIAL, past + [Restart]), Run(names, policies, INITIAL, past + [Restart] + process);
    RestartIsReplayable(names, policies, past, device);
    RunAppend(names, policies, INITIAL, past + [Restart], process);
    CleanFromKeepsLog(names, policies, start, process, device, true);
    FinishedNow(names, st, device);
    RunAppend(names, policies, INITIAL, past + [Restart] + process, rest);
    RunKeepsFinished(names, policies, st, rest, device, lo, hi);
    FinishedReplays(names, Run(names, policies, st, rest), device, lo, hi, k);
  }

  // ---- between two processes ----

  ghost predicate SameProcess(events: seq<Event>) {
    forall e :: e in events ==> !e.Restart? && !e.Reset?
  }

  lemma {:induction false} SameProcessStart(names: BitNames, policies: map<string, Context.Policy>, st: State, events: seq<Event>)
    requires Inv(names, st) && SameProcess(events)
    ensures Run(names, policies, st, events).runStart == st.runStart && Resets(events) == 0
  {
    SelectNone(events, IsReset);
    if events != [] {
      var front, last := events[..|events| - 1], events[|events| - 1];
      assert SameProcess(front) && last in events;
      SameProcessStart(names, policies, st, front);
      RunKeeps(names, policies, st, front);
      StartStays(names, policies, Run(names, policies, st, front), last);
    }
  }

  lemma {:induction false} StartStays(names: BitNames, policies: map<string, Context.Policy>, st: State, e: Event)
    requires Inv(names, st) && !e.Restart? && !e.Reset?
    ensures Step(names, policies, st, e).runStart == st.runStart
  {
    match e {
      case StoreReading(r, quota) => if quota > 0 { StoreAddsSample(names, st, r, quota); }
      case PruneBefore(cutoff) =>
      case _ => QuietEvent(names, policies, st, e);
    }
  }

  /** The device's newest sample. */
  ghost predicate NewestOf(db: Db, device: string, s: Row<Sample>) {
    && s in db.samples.rows && s.body.device == device
    && forall other :: other in db.samples.rows && other.body.device == device ==> other.id <= s.id
  }

  lemma {:induction false} NotLoggedWithFirst(end: State, device: string, t: Row<Transition>)
    requires StartsSilent(end, device) && DeviceRun(end, device) != [] && t in end.db.transitions.rows
    ensures t.body.sampleId != DeviceRun(end, device)[0].id
  {
    assert t !in LoggedWith(end.db, DeviceRun(end, device)[0].id);
  }

  lemma {:induction false} BoundaryRow(names: BitNames, before: Db, end: State, device: string, last: Row<Sample>, t: Row<Transition>)
    requires Inv(names, end) && NewestOf(before, device, last) && end.runStart == before.samples.sequence
    requires Grown(before.samples, end.db.samples, None) && StartsSilent(end, device) && DeviceRun(end, device) != []
    requires t in end.db.transitions.rows && t.body.device == device
    ensures t.body.sampleId <= last.id || t.body.sampleId > DeviceRun(end, device)[0].id
  {
    var run := DeviceRun(end, device);
    DeviceRunIds(names, end, device);
    NotLoggedWithFirst(end, device, t);
    assert SampleOf(end.db, t);
    if t.body.sampleId > end.runStart {
      var j := SampleInRun(names, end, t);
      assert run[0].id <= run[j].id;
    }
  }

  /** Nothing is logged between the last sample of one process and the first of the next. */
  lemma {:induction false} BoundaryIsSilent(names: BitNames, before: Db, end: State, device: string, last: Row<Sample>)
    requires Inv(names, end) && NewestOf(before, device, last) && end.runStart == before.samples.sequence
    requires Grown(before.samples, end.db.samples, None) && StartsSilent(end, device) && DeviceRun(end, device) != []
    ensures Select(end.db.transitions.rows, LoggedBetween(device, last.id, DeviceRun(end, device)[0].id)) == []
  {
    var between := LoggedBetween(device, last.id, DeviceRun(end, device)[0].id);
    forall t | t in end.db.transitions.rows ensures !between(t) {
      if t.body.device == device { BoundaryRow(names, before, end, device, last, t); }
    }
    SelectNone(end.db.transitions.rows, between);
  }

  lemma {:induction false} BoundaryLog(names: BitNames, end: State, device: string, last: Row<Sample>, k: nat)
    requires ReplayInv(names, end, device) && k < |DeviceRun(end, device)|
    requires last.id <= end.runStart
    requires Select(end.db.transitions.rows, LoggedBetween(device, last.id, DeviceRun(end, device)[0].id)) == []
    ensures ChangesOf(Select(end.db.transitions.rows, LoggedBetween(device, last.id, DeviceRun(end, device)[k].id))) == LogUpTo(end, device, k)
  {
    var run := DeviceRun(end, device);
    DeviceRunIds(names, end, device);
    SplitLog(end.db.transitions.rows, device, last.id, run[0].id, run[k].id);
    var rest := Select(end.db.transitions.rows, LoggedBetween(device, run[0].id, run[k].id));
    assert [] + rest == rest;
  }

  lemma {:induction false} BoundaryReplays(names: BitNames, before: Db, end: State, device: string, last: Row<Sample>, k: nat, f: string)
    requires ReplayInv(names, end, device) && k < |DeviceRun(end, device)| && StartsSilent(end, device)
    requires NewestOf(before, device, last) && Numbered(before.samples) && end.runStart == before.samples.sequence
    requires Grown(before.samples, end.db.samples, None)
    ensures var run := DeviceRun(end, device);
            var log := ChangesOf(Select(end.db.transitions.rows, LoggedBetween(device, last.id, run[k].id)));
            Agree(ApplyAll(Known(names, MaskOf(last.body)), log), Known(names, MaskOf(run[k].body)), f)
            <==> Mentions(log, f) || Agree(Known(names, MaskOf(last.body)), Known(names, MaskOf(run[0].body)), f)
  {
    BoundaryIsSilent(names, before, end, device, last);
    BoundaryLog(names, end, device, last, k);
    ReplayRecovers(names, end, device, Known(names, MaskOf(last.body)), k, f);
  }

  lemma {:induction false} NextIsLogged(names: BitNames, policies: map<string, Context.Policy>, before: seq<Event>, since: seq<Event>, device: string, ordered: bool)
    requires CleanFrom(names, policies, Run(names, policies, INITIAL, before + [Restart]), since, device, ordered)
    requires SparingRun(names, policies, Run(names, policies, INITIAL, before + [Restart]), since, device)
    ensures var end := Run(names, policies, INITIAL, before + [Restart] + since);
            ReplayInv(names, end, device) && StartsSilent(end, device)
  {
    RestartIsReplayable(names, policies, before, device);
    RunAppend(names, policies, INITIAL, before + [Restart], since);
    CleanFromKeepsLog(names, policies, Run(names, policies, INITIAL, before + [Restart]), since, device, ordered);
    ProcessStaysSilent(names, policies, before, since, device);
  }

  lemma {:induction false} NextIsGrown(names: BitNames, policies: map<string, Context.Policy>, before: seq<Event>, since: seq<Event>)
    requires SameProcess(since)
    ensures var db, end := Run(names, policies, INITIAL, before).db, Run(names, policies, INITIAL, before + [Restart] + since);
            && Numbered(db.samples) && Grown(db.samples, end.db.samples, None) && end.runStart == db.samples.sequence
  {
    var start := Run(names, policies, INITIAL, before + [Restart]);
    RunPush(names, policies, INITIAL, before, Restart);
    ReachableInv(names, policies, before);
    ReachableInv(names, policies, before + [Restart]);
    RunAppend(names, policies, INITIAL, before + [Restart], since);
    SameProcessStart(names, policies, start, since);
    RunGrows(names, policies, start, since, None);
  }

  /** What the boundary costs: replaying on from the last sample of one process, a flag is right at a sample of the next
      one exactly when the two samples at the boundary agree on it or it has been logged since. */
  lemma {:induction false} BoundaryCost(names: BitNames, policies: map<string, Context.Policy>, before: seq<Event>, since: seq<Event>, device: string, ordered: bool,
                                        last: Row<Sample>, k: nat, f: string)
    requires NewestOf(Run(names, policies, INITIAL, before).db, device, last) && SameProcess(since)
    requires CleanFrom(names, policies, Run(names, policies, INITIAL, before + [Restart]), since, device, ordered)
    requires SparingRun(names, policies, Run(names, policies, INITIAL, before + [Restart]), since, device)
    requires k < |DeviceRun(Run(names, policies, INITIAL, before + [Restart] + since), device)|
    ensures var end := Run(names, policies, INITIAL, before + [Restart] + since);
            var run := DeviceRun(end, device);
            var log := ChangesOf(Select(end.db.transitions.rows, LoggedBetween(device, last.id, run[k].id)));
            Agree(ApplyAll(Known(names, MaskOf(last.body)), log), Known(names, MaskOf(run[k].body)), f)
            <==> Mentions(log, f) || Agree(Known(names, MaskOf(last.body)), Known(names, MaskOf(run[0].body)), f)
  {
    NextIsLogged(names, policies, before, since, device, ordered);
    NextIsGrown(names, policies, before, since);
    BoundaryReplays(names, Run(names, policies, INITIAL, before).db, Run(names, policies, INITIAL, before + [Restart] + since), device, last, k, f);
  }
}

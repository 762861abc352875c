/** What a whole run of the registry logs, source by source. */
module ContextRuns {
  import opened Rows
  import opened Database
  import opened Context

  lemma {:induction false} LastOfTicks(last: map<string, Snapshot>, a: seq<Observation>, b: seq<Observation>)
    ensures LastAfter(last, a + b) == LastAfter(LastAfter(last, a), b)
  {
    if b == [] {
      assert a + b == a;
    } else {
      assert (a + b)[..|a + b| - 1] == a + b[..|b| - 1];
      LastOfTicks(last, a, b[..|b| - 1]);
    }
  }

  lemma {:induction false} LogPush(policies: map<string, Policy>, last: map<string, Snapshot>, obs: seq<Observation>, o: Observation)
    ensures Log(policies, last, obs + [o]) == Log(policies, last, obs) + Tick(policies, LastAfter(last, obs), o)
  {
    assert (obs + [o])[..|obs|] == obs;
  }

  /** Where one tick ends and the next begins does not matter: the registry sees one stream of snapshots. */
  lemma {:induction false} LogOfTicks(policies: map<string, Policy>, last: map<string, Snapshot>, a: seq<Observation>, b: seq<Observation>)
    ensures Log(policies, last, a + b) == Log(policies, last, a) + Log(policies, LastAfter(last, a), b)
  {
    if b == [] {
      assert a + b == a;
    } else {
      var front, o := b[..|b| - 1], b[|b| - 1];
      assert a + b == (a + front) + [o] && b == front + [o];
      calc {
        Log(policies, last, a + b);
        { LogPush(policies, last, a + front, o); }
        Log(policies, last, a + front) + Tick(policies, LastAfter(last, a + front), o);
        { LogOfTicks(policies, last, a, front); LastOfTicks(last, a, front); }
        Log(policies, last, a) + Log(policies, LastAfter(last, a), front) + Tick(policies, LastAfter(LastAfter(last, a), front), o);
        { LogPush(policies, LastAfter(last, a), front, o); }
        Log(policies, last, a) + Log(policies, LastAfter(last, a), b);
      }
    }
  }

  function By(source: string): Observation -> bool {
    (o: Observation) => o.snap.source == source
  }

  function LoggedBy(source: string): ContextChange -> bool {
    (c: ContextChange) => c.source == source
  }

  function Previous(obs: seq<Observation>): Option<Snapshot> {
    if obs == [] then None else Some(obs[|obs| - 1].snap)
  }

  /** What one source logs, from its own snapshots alone. */
  function SourceLog(policy: Policy, obs: seq<Observation>): seq<ContextChange> {
    if obs == [] then [] else
    var front := obs[..|obs| - 1];
    SourceLog(policy, front) + DiffBy(policy, Previous(front), obs[|obs| - 1])
  }

  lemma {:induction false} RemembersOwnLast(obs: seq<Observation>, source: string)
    ensures Remembered(LastAfter(map[], obs), source) == Previous(Select(obs, By(source)))
  {
    if obs != [] { RemembersOwnLast(obs[..|obs| - 1], source); }
  }

  lemma {:induction false} DiffIsOwn(policy: Policy, previous: Option<Snapshot>, o: Observation)
    ensures forall c :: c in DiffBy(policy, previous, o) ==> c.source == o.snap.source && c.ts == o.snap.ts
  {
    match policy
    case Default => DefaultIsOwn(previous, o.snap, |o.snap.values|);
    case Threshold(rules) =>
      if previous.Some? { ThresholdIsOwn(previous.value, o.snap, rules, |o.snap.values|); }
    case Custom => CustomIsOwn(o, |o.custom|);
  }

  lemma {:induction false} DefaultIsOwn(previous: Option<Snapshot>, s: Snapshot, n: nat)
    requires n <= |s.values|
    ensures forall c :: c in DefaultUpTo(previous, s, n) ==> c.source == s.source && c.ts == s.ts
  {
    if n > 0 { DefaultIsOwn(previous, s, n - 1); }
  }

  lemma {:induction false} ThresholdIsOwn(previous: Snapshot, s: Snapshot, rules: seq<Rule>, n: nat)
    requires n <= |s.values|
    ensures forall c :: c in ThresholdUpTo(previous, s, rules, n) ==> c.source == s.source && c.ts == s.ts
  {
    if n > 0 { ThresholdIsOwn(previous, s, rules, n - 1); }
  }

  lemma {:induction false} CustomIsOwn(o: Observation, n: nat)
    requires n <= |o.custom|
    ensures forall c :: c in CustomChanges(o, n) ==> c.source == o.snap.source && c.ts == o.snap.ts
  {
    if n > 0 { CustomIsOwn(o, n - 1); }
  }

  /** However the sources interleave, the log restricted to one source is what that source alone would log. */
  lemma {:induction false} SourcesDoNotInterfere(policies: map<string, Policy>, obs: seq<Observation>, source: string)
    ensures Select(Log(policies, map[], obs), LoggedBy(source))
         == SourceLog(PolicyOf(policies, source), Select(obs, By(source)))
  {
    if obs != [] {
      var front, o := obs[..|obs| - 1], obs[|obs| - 1];
      SourcesDoNotInterfere(policies, front, source);
      var policy, previous := PolicyOf(policies, o.snap.source), Remembered(LastAfter(map[], front), o.snap.source);
      SelectAppend(Log(policies, map[], front), DiffBy(policy, previous, o), LoggedBy(source));
      DiffIsOwn(policy, previous, o);
      if o.snap.source == source {
        SelectAll(DiffBy(policy, previous, o), LoggedBy(source));
        RemembersOwnLast(front, source);
        var own := Select(front, By(source));
        assert (own + [o])[..|own|] == own;
      } else {
        SelectNone(DiffBy(policy, previous, o), LoggedBy(source));
      }
    }
  }

  /** A custom diff is logged as the source's own list of changes, stamped with the snapshot's time and source. */
  lemma {:induction false} CustomLogsAll(o: Observation, n: nat)
    requires n <= |o.custom|
    ensures |CustomChanges(o, n)| == n
    ensures forall i :: 0 <= i < n ==>
              CustomChanges(o, n)[i] == ContextChange(o.snap.ts, o.snap.source, o.custom[i].0, o.custom[i].1, o.custom[i].2)
  {
    if n > 0 { CustomLogsAll(o, n - 1); }
  }

  // ---- the default policy ----

  /** The newest logged value of a key. */
  function LatestLogged(log: seq<ContextChange>, key: string): Option<Json> {
    if log == [] then None
    else if log[|log| - 1].key == key then Some(log[|log| - 1].newValue)
    else LatestLogged(log[..|log| - 1], key)
  }

  lemma {:induction false} LatestLoggedAppend(a: seq<ContextChange>, b: seq<ContextChange>, key: string)
    ensures LatestLogged(a + b, key) == if LatestLogged(b, key).Some? then LatestLogged(b, key) else LatestLogged(a, key)
  {
    if b == [] {
      assert a + b == a;
    } else {
      var ab := a + b;
      assert ab[..|ab| - 1] == a + b[..|b| - 1];
      LatestLoggedAppend(a, b[..|b| - 1], key);
    }
  }

  lemma {:induction false} LatestLoggedIsLogged(log: seq<ContextChange>, key: string)
    ensures LatestLogged(log, key).Some? <==> exists c :: c in log && c.key == key
    ensures LatestLogged(log, key).Some? ==> exists c :: c in log && c.key == key && c.newValue == LatestLogged(log, key).value
  {
    if log != [] {
      LatestLoggedIsLogged(log[..|log| - 1], key);
      assert log == log[..|log| - 1] + [log[|log| - 1]];
      assert log[|log| - 1] in log;
    }
  }

  lemma {:induction false} DefaultMembers(previous: Option<Snapshot>, s: Snapshot, n: nat, c: ContextChange)
    requires n <= |s.values|
    ensures c in DefaultUpTo(previous, s, n) <==>
              exists i :: 0 <= i < n && c == ChangeAt(previous, s, s.values[i]) && c.oldValue != c.newValue
  {
    if n > 0 {
      DefaultMembers(previous, s, n - 1, c);
    }
  }

  /** The snapshots of one source, each with distinct keys. */
  ghost predicate OwnRun(source: string, obs: seq<Observation>) {
    forall i :: 0 <= i < |obs| ==> obs[i].snap.source == source && DistinctKeys(obs[i].snap)
  }

  /** The change logged for a key at a tick, if any, is the one for the value the snapshot holds under it. */
  lemma {:induction false} DefaultLogsKey(previous: Option<Snapshot>, s: Snapshot, i: nat)
    requires i < |s.values| && DistinctKeys(s)
    ensures var v, d := s.values[i], DefaultUpTo(previous, s, |s.values|);
            LatestLogged(d, FullKey(s.source, v.key))
              == if OldValue(previous, v.key) != ToJson(v) then Some(ToJson(v)) else None
  {
    var v, d := s.values[i], DefaultUpTo(previous, s, |s.values|);
    var key := FullKey(s.source, v.key);
    forall c | c in d && c.key == key ensures c == ChangeAt(previous, s, v) && c.oldValue != c.newValue {
      DefaultMembers(previous, s, |s.values|, c);
      var j :| 0 <= j < |s.values| && c == ChangeAt(previous, s, s.values[j]);
      FullKeyInjective(s.source, s.values[j].key, v.key);
      assert j == i;
    }
    DefaultMembers(previous, s, |s.values|, ChangeAt(previous, s, v));
    LatestLoggedIsLogged(d, key);
  }

  lemma {:induction false} FindDistinct(values: seq<ContextValue>, i: nat)
    requires i < |values| && forall j, k :: 0 <= j < k < |values| ==> values[j].key != values[k].key
    ensures Find(values, values[i].key) == Some(values[i])
  {
    var found := Find(values, values[i].key);
    var j :| 0 <= j < |values| && values[j] == found.value;
  }

  /** A value is stored and compared as its number, else as its text, else as nothing. */
  lemma {:induction false} FieldsDecide(v: ContextValue, w: ContextValue)
    ensures v.num.Some? ==> ToJson(v) == Number(v.num.value)
    ensures v.num.None? && v.str.Some? ==> ToJson(v) == Text(v.str.value)
    ensures v.num.None? && v.str.None? ==> ToJson(v) == Null
    ensures ToJson(v) != ToJson(w) <==> v.num != w.num || (v.num.None? && v.str != w.str)
  { }

  /** The change carries these fields, the number before the text. */
  ghost predicate Carries(j: Json, num: Option<real>, str: Option<string>) {
    && (num.Some? ==> j == Number(num.value)) && (num.None? && str.Some? ==> j == Text(str.value))
    && (num.None? && str.None? ==> j == Null)
  }

  lemma {:induction false} LoggedIsThis(previous: Option<Snapshot>, s: Snapshot, i: nat, c: ContextChange)
    requires i < |s.values| && DistinctKeys(s)
    ensures c in DefaultUpTo(previous, s, |s.values|) && c.key == s.source + "." + s.values[i].key
       <==> c == ChangeAt(previous, s, s.values[i]) && c.oldValue != c.newValue
  {
    DefaultMembers(previous, s, |s.values|, c);
    if c in DefaultUpTo(previous, s, |s.values|) && c.key == s.source + "." + s.values[i].key {
      var j :| 0 <= j < |s.values| && c == ChangeAt(previous, s, s.values[j]);
      FullKeyInjective(s.source, s.values[j].key, s.values[i].key);
      assert i == j;
    }
    assert FullKey(s.source, s.values[i].key) == s.source + "." + s.values[i].key;
  }

  /** A key held before is logged exactly when its number differs, or when it has none and its text differs, and the
      change carries the two values. */
  lemma {:induction false} DefaultLogsFields(before: Snapshot, s: Snapshot, j: nat, i: nat)
    requires i < |s.values| && j < |before.values| && before.values[j].key == s.values[i].key
    requires DistinctKeys(before) && DistinctKeys(s)
    ensures var v, w, d := s.values[i], before.values[j], DefaultUpTo(Some(before), s, |s.values|);
            && ((exists c :: c in d && c.key == s.source + "." + v.key) <==> v.num != w.num || (v.num.None? && v.str != w.str))
            && (forall c :: c in d && c.key == s.source + "." + v.key ==>
                  Carries(c.oldValue, w.num, w.str) && Carries(c.newValue, v.num, v.str) && c.source == s.source && c.ts == s.ts)
  {
    var v, w, d := s.values[i], before.values[j], DefaultUpTo(Some(before), s, |s.values|);
    FindDistinct(before.values, j);
    FieldsDecide(v, w);
    FieldsDecide(w, v);
    LoggedIsThis(Some(before), s, i, ChangeAt(Some(before), s, v));
    forall c | c in d && c.key == s.source + "." + v.key
      ensures Carries(c.oldValue, w.num, w.str) && Carries(c.newValue, v.num, v.str) && c.source == s.source && c.ts == s.ts
      ensures c == ChangeAt(Some(before), s, v) && c.oldValue != c.newValue
    {
      LoggedIsThis(Some(before), s, i, c);
    }
  }

  /** A key that was not held is logged exactly when it has a number or a text, as a change from null. */
  lemma {:induction false} NewKeyLogsFields(previous: Option<Snapshot>, s: Snapshot, i: nat)
    requires i < |s.values| && DistinctKeys(s)
    requires previous.Some? ==> forall w :: w in previous.value.values ==> w.key != s.values[i].key
    ensures var v, d := s.values[i], DefaultUpTo(previous, s, |s.values|);
            && ((exists c :: c in d && c.key == s.source + "." + v.key) <==> v.num.Some? || v.str.Some?)
            && forall c :: c in d && c.key == s.source + "." + v.key ==> c.oldValue == Null && Carries(c.newValue, v.num, v.str)
  {
    var v, d := s.values[i], DefaultUpTo(previous, s, |s.values|);
    FieldsDecide(v, v);
    LoggedIsThis(previous, s, i, ChangeAt(previous, s, v));
    forall c | c in d && c.key == s.source + "." + v.key
      ensures c.oldValue == Null && Carries(c.newValue, v.num, v.str) && c == ChangeAt(previous, s, v) && c.oldValue != c.newValue
    {
      LoggedIsThis(previous, s, i, c);
    }
  }

  lemma {:induction false} DefaultLogTracks(source: string, obs: seq<Observation>, i: nat)
    requires obs != [] && OwnRun(source, obs)
    requires var s := obs[|obs| - 1].snap; i < |s.values| && ToJson(s.values[i]) != Null
    ensures var v := obs[|obs| - 1].snap.values[i];
            LatestLogged(SourceLog(Default, obs), FullKey(source, v.key)) == Some(ToJson(v))
  {
    var front, s := obs[..|obs| - 1], obs[|obs| - 1].snap;
    var v := s.values[i];
    var key := FullKey(source, v.key);
    DefaultLogsKey(Previous(front), s, i);
    LatestLoggedAppend(SourceLog(Default, front), DefaultUpTo(Previous(front), s, |s.values|), key);
    if OldValue(Previous(front), v.key) == ToJson(v) {
      var before := front[|front| - 1].snap;
      var found := Find(before.values, v.key).value;
      var j :| 0 <= j < |before.values| && before.values[j] == found;
      DefaultLogTracks(source, front, j);
    }
  }

  /** At every tick, the newest logged value of each key with a number or a text is the one the source now reports. */
  lemma {:induction false} DefaultLogTracksValues(source: string, obs: seq<Observation>, i: nat)
    requires obs != [] && OwnRun(source, obs)
    requires var s := obs[|obs| - 1].snap; i < |s.values| && (s.values[i].num.Some? || s.values[i].str.Some?)
    ensures var v := obs[|obs| - 1].snap.values[i];
            LatestLogged(SourceLog(Default, obs), source + "." + v.key)
            == Some(if v.num.Some? then Number(v.num.value) else Text(v.str.value))
  {
    FieldsDecide(obs[|obs| - 1].snap.values[i], obs[|obs| - 1].snap.values[i]);
    DefaultLogTracks(source, obs, i);
  }

  /** A change of the key starts from what the snapshot holds under it. */
  ghost predicate StartsFrom(source: string, before: Snapshot, key: string, c: ContextChange) {
    && c.key == FullKey(source, key)
    && c.oldValue == if Find(before.values, key).Some? then ToJson(Find(before.values, key).value) else Null
  }

  lemma {:induction false} ChangedKey(source: string, front: seq<Observation>, o: Observation, c: ContextChange) returns (key: string)
    requires o.snap.source == source && c in DiffBy(Default, Previous(front), o)
    ensures if front == [] then c.oldValue == Null else StartsFrom(source, front[|front| - 1].snap, key, c)
  {
    DefaultMembers(Previous(front), o.snap, |o.snap.values|, c);
    var i :| 0 <= i < |o.snap.values| && c == ChangeAt(Previous(front), o.snap, o.snap.values[i]);
    key := o.snap.values[i].key;
  }

  lemma {:induction false} OldValueIsLatest(source: string, front: seq<Observation>, key: string, c: ContextChange)
    requires front != [] && OwnRun(source, front) && StartsFrom(source, front[|front| - 1].snap, key, c)
    ensures c.oldValue != Null ==> LatestLogged(SourceLog(Default, front), c.key) == Some(c.oldValue)
  {
    var before := front[|front| - 1].snap;
    if c.oldValue != Null {
      var j :| 0 <= j < |before.values| && before.values[j] == Find(before.values, key).value;
      DefaultLogTracks(source, front, j);
    }
  }

  lemma {:induction false} OldValueIsHeld(source: string, before: Snapshot, key: string, c: ContextChange)
    requires forall j, k :: 0 <= j < k < |before.values| ==> before.values[j].key != before.values[k].key
    requires StartsFrom(source, before, key, c)
    ensures c.oldValue == Null <==> forall v :: v in before.values && FullKey(source, v.key) == c.key ==> ToJson(v) == Null
  {
    forall v | v in before.values && FullKey(source, v.key) == c.key ensures ToJson(v) == c.oldValue {
      var j :| 0 <= j < |before.values| && before.values[j] == v;
      FullKeyInjective(source, v.key, key);
      FindDistinct(before.values, j);
    }
  }

  /** Every logged change starts from the newest logged value, or from null after a gap: when the previous
      snapshot of the source, an error snapshot without values for instance, held nothing under the key. */
  lemma {:induction false} DefaultOldValueIsLogged(source: string, obs: seq<Observation>, c: ContextChange)
    requires obs != [] && OwnRun(source, obs)
    requires c in DiffBy(Default, Previous(obs[..|obs| - 1]), obs[|obs| - 1])
    ensures var front := obs[..|obs| - 1];
            && (c.oldValue != Null ==> LatestLogged(SourceLog(Default, front), c.key) == Some(c.oldValue))
            && (c.oldValue == Null <==>
                 front == [] || forall v :: v in front[|front| - 1].snap.values && FullKey(source, v.key) == c.key ==> ToJson(v) == Null)
  {
    var front := obs[..|obs| - 1];
    var key := ChangedKey(source, front, obs[|obs| - 1], c);
    if front != [] {
      OldValueIsHeld(source, front[|front| - 1].snap, key, c);
      OldValueIsLatest(source, front, key, c);
    }
  }

  // ---- the threshold policy ----

  lemma {:induction false} ThresholdMembers(previous: Snapshot, s: Snapshot, rules: seq<Rule>, n: nat, c: ContextChange)
    requires n <= |s.values|
    ensures c in ThresholdUpTo(previous, s, rules, n) <==>
              exists i :: 0 <= i < n && c == ChangeAt(Some(previous), s, s.values[i]) && Exceeds(previous, s.values[i], rules)
  {
    if n > 0 { ThresholdMembers(previous, s, rules, n - 1, c); }
  }

  ghost predicate Logs(changes: seq<ContextChange>, key: string) {
    exists c :: c in changes && c.key == key
  }

  /** Between two healthy snapshots, a ruled numeric key is logged exactly when it jumped by the rule's delta. */
  lemma {:induction false} ThresholdLogsExactly(previous: Snapshot, s: Snapshot, rules: seq<Rule>, key: string)
    requires previous.health == "ok" && s.health == "ok" && DistinctKeys(s)
    requires NumValue(previous, key).Some? && NumValue(s, key).Some? && RuleFor(rules, key).Some?
    ensures Logs(ThresholdChanges(Some(previous), s, rules), FullKey(s.source, key))
       <==> Abs(NumValue(previous, key).value - NumValue(s, key).value) >= RuleFor(rules, key).value.minDelta
  {
    var changes, full := ThresholdChanges(Some(previous), s, rules), FullKey(s.source, key);
    var v := Find(s.values, key).value;
    var i :| 0 <= i < |s.values| && s.values[i] == v;
    if Logs(changes, full) {
      var c :| c in changes && c.key == full;
      ThresholdMembers(previous, s, rules, |s.values|, c);
      var j :| 0 <= j < |s.values| && c == ChangeAt(Some(previous), s, s.values[j]) && Exceeds(previous, s.values[j], rules);
      FullKeyInjective(s.source, s.values[j].key, key);
      assert j == i;
    } else {
      ThresholdMembers(previous, s, rules, |s.values|, ChangeAt(Some(previous), s, v));
    }
  }

  /** Without two healthy snapshots nothing is logged. */
  lemma {:induction false} ThresholdNeedsHealth(previous: Option<Snapshot>, s: Snapshot, rules: seq<Rule>)
    requires previous.None? || previous.value.health != "ok" || s.health != "ok"
    ensures ThresholdChanges(previous, s, rules) == []
  { }

  /** Between two healthy snapshots, a held key without a rule or without two numbers is logged as by the default policy:
      when its number differs, or when it has none and its text differs. */
  lemma {:induction false} ThresholdLogsFields(before: Snapshot, s: Snapshot, rules: seq<Rule>, j: nat, i: nat)
    requires before.health == "ok" && s.health == "ok" && DistinctKeys(before) && DistinctKeys(s)
    requires i < |s.values| && j < |before.values| && before.values[j].key == s.values[i].key
    requires before.values[j].num.None? || s.values[i].num.None? || forall r :: r in rules ==> r.key != s.values[i].key
    ensures var v, w := s.values[i], before.values[j];
            Logs(ThresholdChanges(Some(before), s, rules), s.source + "." + v.key) <==> v.num != w.num || (v.num.None? && v.str != w.str)
  {
    var v, w, d := s.values[i], before.values[j], ThresholdChanges(Some(before), s, rules);
    FindDistinct(before.values, j);
    FieldsDecide(v, w);
    NoRule(rules, v.key);
    ThresholdMembers(before, s, rules, |s.values|, ChangeAt(Some(before), s, v));
    assert FullKey(s.source, v.key) == s.source + "." + v.key;
    if Logs(d, s.source + "." + v.key) {
      var c :| c in d && c.key == s.source + "." + v.key;
      ThresholdMembers(before, s, rules, |s.values|, c);
      var k :| 0 <= k < |s.values| && c == ChangeAt(Some(before), s, s.values[k]) && Exceeds(before, s.values[k], rules);
      FullKeyInjective(s.source, s.values[k].key, v.key);
      assert k == i;
    }
  }

  lemma {:induction false} NoRule(rules: seq<Rule>, key: string)
    ensures RuleFor(rules, key).None? <==> forall r :: r in rules ==> r.key != key
  {
    if rules != [] {
      NoRule(rules[1..], key);
      assert rules == [rules[0]] + rules[1..];
    }
  }

  ghost predicate HealthyRun(source: string, obs: seq<Observation>, key: string) {
    OwnRun(source, obs) && forall i :: 0 <= i < |obs| ==> obs[i].snap.health == "ok" && NumValue(obs[i].snap, key).Some?
  }

  /** The value a snapshot holds under a numeric key. */
  function Reading(o: Observation, key: string): real {
    var num := NumValue(o.snap, key);
    if num.Some? then num.value else 0.0
  }

  function Readings(obs: seq<Observation>, key: string): (xs: seq<real>)
    ensures |xs| == |obs| && forall i :: 0 <= i < |obs| ==> xs[i] == Reading(obs[i], key)
  {
    seq(|obs|, i requires 0 <= i < |obs| => Reading(obs[i], key))
  }

  // ---- a segment of a run ----

  /** What the snapshots of a segment log, after whatever the source reported before. */
  function SegmentLog(policy: Policy, past: seq<Observation>, seg: seq<Observation>): seq<ContextChange> {
    if seg == [] then [] else
    var front := seg[..|seg| - 1];
    SegmentLog(policy, past, front) + DiffBy(policy, Previous(past + front), seg[|seg| - 1])
  }

  lemma {:induction false} SourceLogPush(policy: Policy, obs: seq<Observation>, o: Observation)
    ensures SourceLog(policy, obs + [o]) == SourceLog(policy, obs) + DiffBy(policy, Previous(obs), o)
  {
    assert (obs + [o])[..|obs|] == obs;
  }

  /** The log of a run is the log of its past and then of the segment. */
  lemma {:induction false} SegmentLogSplits(policy: Policy, past: seq<Observation>, seg: seq<Observation>)
    ensures SourceLog(policy, past + seg) == SourceLog(policy, past) + SegmentLog(policy, past, seg)
  {
    if seg == [] {
      assert past + seg == past;
    } else {
      var front, last := seg[..|seg| - 1], seg[|seg| - 1];
      assert past + seg == (past + front) + [last];
      calc {
        SourceLog(policy, past + seg);
        { SourceLogPush(policy, past + front, last); }
        SourceLog(policy, past + front) + DiffBy(policy, Previous(past + front), last);
        { SegmentLogSplits(policy, past, front); }
        SourceLog(policy, past) + SegmentLog(policy, past, front) + DiffBy(policy, Previous(past + front), last);
        SourceLog(policy, past) + SegmentLog(policy, past, seg);
      }
    }
  }

  /** The snapshot the segment starts from, and the segment. */
  function From(past: seq<Observation>, seg: seq<Observation>): seq<Observation>
    requires past != []
  {
    [past[|past| - 1]] + seg
  }

  lemma {:induction false} LoggedInEither(a: seq<ContextChange>, b: seq<ContextChange>, key: string)
    ensures Logs(a + b, key) <==> Logs(a, key) || Logs(b, key)
  {
    assert forall c :: c in a + b <==> c in a || c in b;
  }

  lemma {:induction false} SegmentEnds(past: seq<Observation>, seg: seq<Observation>)
    requires past != [] && seg != []
    ensures var run := From(past, seg);
            && |run| == |seg| + 1 && run[|seg|] == seg[|seg| - 1]
            && Previous(past + seg[..|seg| - 1]) == Some(run[|seg| - 1].snap)
  { }

  /** One tick of a segment, between two healthy snapshots of it. */
  lemma {:induction false} TickInSegment(source: string, rules: seq<Rule>, previous: Observation, last: Observation, key: string)
    requires HealthyRun(source, [previous, last], key) && RuleFor(rules, key).Some?
    ensures Logs(DiffBy(Threshold(rules), Some(previous.snap), last), FullKey(source, key))
       <==> Abs(Reading(previous, key) - Reading(last, key)) >= RuleFor(rules, key).value.minDelta
  {
    var two := [previous, last];
    assert two[0] == previous && two[1] == last;
    ThresholdLogsExactly(previous.snap, last.snap, rules, key);
  }

  lemma {:induction false} HealthyPair(source: string, run: seq<Observation>, i: nat, key: string)
    requires i + 1 < |run| && HealthyRun(source, run, key)
    ensures HealthyRun(source, [run[i], run[i + 1]], key)
  { }

  lemma {:induction false} SegmentTick(source: string, rules: seq<Rule>, past: seq<Observation>, seg: seq<Observation>, key: string)
    requires past != [] && seg != [] && HealthyRun(source, From(past, seg), key) && RuleFor(rules, key).Some?
    ensures var run := From(past, seg);
            Logs(SegmentLog(Threshold(rules), past, seg), FullKey(source, key))
            <==> Logs(SegmentLog(Threshold(rules), past, seg[..|seg| - 1]), FullKey(source, key))
                 || Abs(Reading(run[|seg| - 1], key) - Reading(run[|seg|], key)) >= RuleFor(rules, key).value.minDelta
  {
    var front, last, run := seg[..|seg| - 1], seg[|seg| - 1], From(past, seg);
    SegmentEnds(past, seg);
    HealthyPair(source, run, |seg| - 1, key);
    TickInSegment(source, rules, run[|seg| - 1], run[|seg|], key);
    LoggedInEither(SegmentLog(Threshold(rules), past, front), DiffBy(Threshold(rules), Previous(past + front), last), FullKey(source, key));
  }

  /** n copies of x added up: n * x. */
  function Times(n: nat, x: real): real {
    if n == 0 then 0.0 else Times(n - 1, x) + x
  }

  lemma {:induction false} TimesIsProduct(n: nat, x: real)
    ensures Times(n, x) == n as real * x
  {
    if n > 0 {
      TimesIsProduct(n - 1, x);
      assert n as real * x == (n - 1) as real * x + x;
    }
  }

  /** Steps smaller than delta add up to less than as many deltas. */
  lemma {:induction false} SmallSteps(xs: seq<real>, delta: real)
    requires |xs| >= 2 && forall i :: 0 <= i < |xs| - 1 ==> Abs(xs[i] - xs[i + 1]) < delta
    ensures Abs(xs[|xs| - 1] - xs[0]) < Times(|xs| - 1, delta)
  {
    var n := |xs| - 1;
    assert Abs(xs[n - 1] - xs[n - 1 + 1]) < delta;
    if n >= 2 {
      SmallSteps(xs[..n], delta);
    } else {
      assert Times(1, delta) == Times(0, delta) + delta;
    }
  }

  lemma {:induction false} HealthyFront(source: string, past: seq<Observation>, seg: seq<Observation>, key: string)
    requires past != [] && seg != [] && HealthyRun(source, From(past, seg), key)
    ensures From(past, seg)[..|seg|] == From(past, seg[..|seg| - 1])
    ensures HealthyRun(source, From(past, seg[..|seg| - 1]), key)
  {
    assert From(past, seg)[..|seg|] == From(past, seg[..|seg| - 1]);
  }

  lemma {:induction false} SilentStep(source: string, rules: seq<Rule>, past: seq<Observation>, seg: seq<Observation>, key: string, i: nat)
    requires past != [] && i < |seg| && HealthyRun(source, From(past, seg), key) && RuleFor(rules, key).Some?
    requires !Logs(SegmentLog(Threshold(rules), past, seg), FullKey(source, key))
    ensures Abs(Reading(From(past, seg)[i], key) - Reading(From(past, seg)[i + 1], key)) < RuleFor(rules, key).value.minDelta
  {
    SegmentTick(source, rules, past, seg, key);
    if i + 1 < |seg| {
      HealthyFront(source, past, seg, key);
      SilentStep(source, rules, past, seg[..|seg| - 1], key, i);
    }
  }

  /** Over k consecutive healthy ticks that log nothing for a ruled key, its value moves by strictly less than k deltas,
      whatever the source reported, logged or failed to report before them. */
  lemma {:induction false} SilentRunIsBounded(source: string, rules: seq<Rule>, past: seq<Observation>, seg: seq<Observation>, key: string)
    requires past != [] && seg != [] && HealthyRun(source, From(past, seg), key) && RuleFor(rules, key).Some?
    requires !Logs(SegmentLog(Threshold(rules), past, seg), FullKey(source, key))
    ensures Abs(Reading(seg[|seg| - 1], key) - Reading(past[|past| - 1], key)) < Times(|seg|, RuleFor(rules, key).value.minDelta)
  {
    var xs := Readings(From(past, seg), key);
    SegmentReadings(past, seg, key);
    forall i | 0 <= i < |xs| - 1 ensures Abs(xs[i] - xs[i + 1]) < RuleFor(rules, key).value.minDelta {
      SilentStep(source, rules, past, seg, key, i);
    }
    SmallSteps(xs, RuleFor(rules, key).value.minDelta);
  }

  lemma {:induction false} SegmentReadings(past: seq<Observation>, seg: seq<Observation>, key: string)
    requires past != [] && seg != []
    ensures var xs := Readings(From(past, seg), key);
            |xs| == |seg| + 1 && xs[0] == Reading(past[|past| - 1], key) && xs[|seg|] == Reading(seg[|seg| - 1], key)
  { }

  /** A value creeping up by half a delta per tick. */
  function Ramp(source: string, rule: Rule, n: nat): Observation {
    Observation(Snapshot(source, n, "ok", [ContextValue(rule.key, Some(Times(n, rule.minDelta / 2.0)), None)]), [])
  }

  function RampRun(source: string, rule: Rule, n: nat): seq<Observation> {
    if n == 0 then [Ramp(source, rule, 0)] else RampRun(source, rule, n - 1) + [Ramp(source, rule, n)]
  }

  lemma {:induction false} RampShape(source: string, rule: Rule, n: nat)
    ensures |RampRun(source, rule, n)| == n + 1
    ensures forall i :: 0 <= i <= n ==> RampRun(source, rule, n)[i] == Ramp(source, rule, i)
  {
    if n > 0 { RampShape(source, rule, n - 1); }
  }

  lemma {:induction false} RampReading(source: string, rule: Rule, n: nat)
    ensures NumValue(Ramp(source, rule, n).snap, rule.key) == Some(Times(n, rule.minDelta / 2.0))
    ensures DistinctKeys(Ramp(source, rule, n).snap)
  { }

  lemma {:induction false} RampIsHealthy(source: string, rule: Rule, n: nat)
    ensures |RampRun(source, rule, n)| == n + 1 && HealthyRun(source, RampRun(source, rule, n), rule.key)
    ensures Reading(RampRun(source, rule, n)[0], rule.key) == 0.0
    ensures Reading(RampRun(source, rule, n)[n], rule.key) == Times(n, rule.minDelta / 2.0)
    ensures n > 0 ==> Reading(RampRun(source, rule, n)[n - 1], rule.key) == Times(n - 1, rule.minDelta / 2.0)
  {
    RampShape(source, rule, n);
    forall i | 0 <= i <= n ensures NumValue(RampRun(source, rule, n)[i].snap, rule.key) == Some(Times(i, rule.minDelta / 2.0)) {
      RampReading(source, rule, i);
    }
    forall i | 0 <= i <= n ensures DistinctKeys(RampRun(source, rule, n)[i].snap) { RampReading(source, rule, i); }
  }

  /** Two healthy snapshots between which the ruled key moves by less than its delta. */
  ghost predicate SmallStep(source: string, rule: Rule, previous: Observation, last: Observation) {
    HealthyRun(source, [previous, last], rule.key) && Abs(Reading(previous, rule.key) - Reading(last, rule.key)) < rule.minDelta
  }

  lemma {:induction false} FirstIsSilent(rules: seq<Rule>, o: Observation)
    ensures SourceLog(Threshold(rules), [o]) == []
  {
    SourceLogPush(Threshold(rules), [], o);
    assert [] + [o] == [o];
  }

  /** A small step adds nothing to the log of its key. */
  lemma {:induction false} SmallStepIsSilent(source: string, rule: Rule, past: seq<Observation>, last: Observation)
    requires past != [] && SmallStep(source, rule, past[|past| - 1], last)
    requires !Logs(SourceLog(Threshold([rule]), past), FullKey(source, rule.key))
    ensures !Logs(SourceLog(Threshold([rule]), past + [last]), FullKey(source, rule.key))
  {
    var previous := past[|past| - 1];
    SourceLogPush(Threshold([rule]), past, last);
    TickInSegment(source, [rule], previous, last, rule.key);
    LoggedInEither(SourceLog(Threshold([rule]), past), DiffBy(Threshold([rule]), Some(previous.snap), last), FullKey(source, rule.key));
  }

  ghost predicate GoesInSmallSteps(source: string, rule: Rule, run: seq<Observation>) {
    forall i :: 0 < i < |run| ==> SmallStep(source, rule, run[i - 1], run[i])
  }

  lemma {:induction false} SmallStepsPrefix(source: string, rule: Rule, past: seq<Observation>, last: Observation)
    requires past != [] && GoesInSmallSteps(source, rule, past + [last])
    ensures GoesInSmallSteps(source, rule, past) && SmallStep(source, rule, past[|past| - 1], last)
  {
    var run := past + [last];
    forall i | 0 < i < |past| ensures SmallStep(source, rule, past[i - 1], past[i]) { assert SmallStep(source, rule, run[i - 1], run[i]); }
    assert SmallStep(source, rule, run[|past| - 1], run[|past|]);
  }

  /** Small steps all the way log nothing. */
  lemma {:induction false} SmallStepsAreSilent(source: string, rule: Rule, run: seq<Observation>)
    requires run != [] && GoesInSmallSteps(source, rule, run)
    ensures !Logs(SourceLog(Threshold([rule]), run), FullKey(source, rule.key))
  {
    if |run| == 1 {
      FirstIsSilent([rule], run[0]);
      assert run == [run[0]];
    } else {
      var past, last := run[..|run| - 1], run[|run| - 1];
      assert run == past + [last];
      SmallStepsPrefix(source, rule, past, last);
      SmallStepsAreSilent(source, rule, past);
      SmallStepIsSilent(source, rule, past, last);
    }
  }

  lemma {:induction false} RampStep(source: string, rule: Rule, n: nat)
    requires rule.minDelta > 0.0 && n > 0
    ensures SmallStep(source, rule, Ramp(source, rule, n - 1), Ramp(source, rule, n))
  {
    RampReading(source, rule, n - 1);
    RampReading(source, rule, n);
  }

  lemma {:induction false} RampIsSilent(source: string, rule: Rule, n: nat)
    requires rule.minDelta > 0.0
    ensures !Logs(SourceLog(Threshold([rule]), RampRun(source, rule, n)), FullKey(source, rule.key))
  {
    var run := RampRun(source, rule, n);
    RampShape(source, rule, n);
    forall i | 0 < i < |run| ensures SmallStep(source, rule, run[i - 1], run[i]) { RampStep(source, rule, i); }
    SmallStepsAreSilent(source, rule, run);
  }

  /** Enough half-deltas add up to any amount. */
  lemma {:induction false} EnoughSteps(step: real, drift: real) returns (n: nat)
    requires step > 0.0
    ensures Times(n, step) >= drift
  {
    if drift <= 0.0 {
      n := 0;
    } else {
      n := (drift / step).Floor + 1;
      assert n as real * step >= (drift / step) * step;
      assert (drift / step) * step == drift;
      TimesIsProduct(n, step);
    }
  }

  /** A healthy run that logs nothing for the ruled key while its value ends at least this far from its start. */
  ghost predicate SilentDrift(source: string, rule: Rule, obs: seq<Observation>, drift: real) {
    && |obs| >= 1 && HealthyRun(source, obs, rule.key)
    && !Logs(SourceLog(Threshold([rule]), obs), FullKey(source, rule.key))
    && Abs(Reading(obs[|obs| - 1], rule.key) - Reading(obs[0], rule.key)) >= drift
  }

  /** Silence does not bound the drift: for any amount there is a silent run of one ruled key that drifts as far. */
  lemma {:induction false} SilentDriftIsUnbounded(source: string, rule: Rule, drift: real)
    requires rule.minDelta > 0.0
    ensures exists obs :: SilentDrift(source, rule, obs, drift)
  {
    var n := EnoughSteps(rule.minDelta / 2.0, drift);
    var obs := RampRun(source, rule, n);
    RampShape(source, rule, n);
    RampIsHealthy(source, rule, n);
    RampIsSilent(source, rule, n);
    assert SilentDrift(source, rule, obs, drift);
  }
}

/** Context snapshots and the registry that turns consecutive snapshots of a source into logged transitions. */
module Context {
  import opened Rows
  import opened Database

  datatype ContextValue = ContextValue(key: string, num: Option<real>, str: Option<string>)

  datatype Snapshot = Snapshot(source: string, ts: int, health: string, values: seq<ContextValue>)

  datatype Rule = Rule(key: string, minDelta: real)

  datatype Policy = Default | Custom | Threshold(rules: seq<Rule>)

  datatype ContextChange = ContextChange(ts: int, source: string, key: string, oldValue: Json, newValue: Json)

  /** One snapshot, with whatever the source's own `diff` reports should its policy be `Custom`. */
  datatype Observation = Observation(snap: Snapshot, custom: seq<(string, Json, Json)>)

  function ToJson(v: ContextValue): Json {
    if v.num.Some? then Number(v.num.value) else if v.str.Some? then Text(v.str.value) else Null
  }

  function FullKey(source: string, key: string): string {
    source + "." + key
  }

  lemma {:induction false} FullKeyInjective(source: string, a: string, b: string)
    requires FullKey(source, a) == FullKey(source, b)
    ensures a == b
  {
    assert a == FullKey(source, a)[|source| + 1..];
    assert b == FullKey(source, b)[|source| + 1..];
  }

  /** `values.iter().find(|v| v.key == key)`. */
  function Find(values: seq<ContextValue>, key: string): (r: Option<ContextValue>)
    ensures r.Some? ==> r.value in values && r.value.key == key
    ensures r.None? ==> forall v :: v in values ==> v.key != key
  {
    if values == [] then None
    else if values[0].key == key then Some(values[0])
    else Find(values[1..], key)
  }

  ghost predicate DistinctKeys(s: Snapshot) {
    forall i, j :: 0 <= i < j < |s.values| ==> s.values[i].key != s.values[j].key
  }

  function OldValue(previous: Option<Snapshot>, key: string): Json {
    if previous.None? then Null else
    var found := Find(previous.value.values, key);
    if found.Some? then ToJson(found.value) else Null
  }

  function ChangeAt(previous: Option<Snapshot>, current: Snapshot, v: ContextValue): ContextChange {
    ContextChange(current.ts, current.source, FullKey(current.source, v.key), OldValue(previous, v.key), ToJson(v))
  }

  function DefaultUpTo(previous: Option<Snapshot>, current: Snapshot, n: nat): seq<ContextChange>
    requires n <= |current.values|
  {
    if n == 0 then [] else
    var c := ChangeAt(previous, current, current.values[n - 1]);
    DefaultUpTo(previous, current, n - 1) + if c.oldValue != c.newValue then [c] else []
  }

  method DefaultDiff(previous: Option<Snapshot>, current: Snapshot) returns (transitions: seq<ContextChange>)
    ensures transitions == DefaultUpTo(previous, current, |current.values|)
  {
    transitions := [];
    for i := 0 to |current.values|
      invariant transitions == DefaultUpTo(previous, current, i)
    {
      var value := current.values[i];
      var newValue := ToJson(value);
      var oldValue := OldValue(previous, value.key);
      if oldValue != newValue {
        transitions := transitions + [ContextChange(current.ts, current.source, FullKey(current.source, value.key), oldValue, newValue)];
      }
    }
  }

  function NumValue(s: Snapshot, key: string): Option<real> {
    var found := Find(s.values, key);
    if found.Some? then found.value.num else None
  }

  function RuleFor(rules: seq<Rule>, key: string): Option<Rule> {
    if rules == [] then None
    else if rules[0].key == key then Some(rules[0])
    else RuleFor(rules[1..], key)
  }

  function Abs(x: real): real {
    if x < 0.0 then -x else x
  }

  predicate Exceeds(previous: Snapshot, v: ContextValue, rules: seq<Rule>) {
    var before, rule := NumValue(previous, v.key), RuleFor(rules, v.key);
    if before.Some? && v.num.Some? && rule.Some? then Abs(before.value - v.num.value) >= rule.value.minDelta
    else OldValue(Some(previous), v.key) != ToJson(v)
  }

  function ThresholdUpTo(previous: Snapshot, current: Snapshot, rules: seq<Rule>, n: nat): seq<ContextChange>
    requires n <= |current.values|
  {
    if n == 0 then [] else
    var v := current.values[n - 1];
    ThresholdUpTo(previous, current, rules, n - 1)
    + if Exceeds(previous, v, rules) then [ChangeAt(Some(previous), current, v)] else []
  }

  function ThresholdChanges(previous: Option<Snapshot>, current: Snapshot, rules: seq<Rule>): seq<ContextChange> {
    if previous.None? || previous.value.health != "ok" || current.health != "ok" then []
    else ThresholdUpTo(previous.value, current, rules, |current.values|)
  }

  method ThresholdDiff(previous: Option<Snapshot>, current: Snapshot, rules: seq<Rule>) returns (transitions: seq<ContextChange>)
    ensures transitions == ThresholdChanges(previous, current, rules)
  {
    if previous.None? {
      return [];
    }
    if previous.value.health != "ok" || current.health != "ok" {
      return [];
    }
    transitions := [];
    for i := 0 to |current.values|
      invariant transitions == ThresholdUpTo(previous.value, current, rules, i)
    {
      var value := current.values[i];
      var oldValue, newValue := OldValue(previous, value.key), ToJson(value);
      var changed := oldValue != newValue;
      var oldNum := NumValue(previous.value, value.key);
      if oldNum.Some? && value.num.Some? {
        var rule := RuleFor(rules, value.key);
        if rule.Some? {
          changed := Abs(oldNum.value - value.num.value) >= rule.value.minDelta;
        }
      }
      if changed {
        transitions := transitions + [ContextChange(current.ts, current.source, FullKey(current.source, value.key), oldValue, newValue)];
      }
    }
  }

  function CustomChanges(o: Observation, n: nat): seq<ContextChange>
    requires n <= |o.custom|
  {
    if n == 0 then [] else
    CustomChanges(o, n - 1) + [ContextChange(o.snap.ts, o.snap.source, o.custom[n - 1].0, o.custom[n - 1].1, o.custom[n - 1].2)]
  }

  function DiffBy(policy: Policy, previous: Option<Snapshot>, o: Observation): seq<ContextChange> {
    match policy
    case Default => DefaultUpTo(previous, o.snap, |o.snap.values|)
    case Threshold(rules) => ThresholdChanges(previous, o.snap, rules)
    case Custom => CustomChanges(o, |o.custom|)
  }

  // ---- the registry ----

  /** A source the registry does not know is diffed by the default policy. */
  function PolicyOf(policies: map<string, Policy>, source: string): Policy {
    if source in policies then policies[source] else Default
  }

  function Remembered(last: map<string, Snapshot>, source: string): Option<Snapshot> {
    if source in last then Some(last[source]) else None
  }

  /** The remembered snapshots after a sequence of observations. */
  function LastAfter(last: map<string, Snapshot>, obs: seq<Observation>): map<string, Snapshot> {
    if obs == [] then last else
    var o := obs[|obs| - 1];
    LastAfter(last, obs[..|obs| - 1])[o.snap.source := o.snap]
  }

  /** What one snapshot logs against the remembered ones. */
  function Tick(policies: map<string, Policy>, last: map<string, Snapshot>, o: Observation): seq<ContextChange> {
    DiffBy(PolicyOf(policies, o.snap.source), Remembered(last, o.snap.source), o)
  }

  /** Everything logged for a sequence of observations. */
  function Log(policies: map<string, Policy>, last: map<string, Snapshot>, obs: seq<Observation>): seq<ContextChange> {
    if obs == [] then [] else
    var front, o := obs[..|obs| - 1], obs[|obs| - 1];
    Log(policies, last, front) + Tick(policies, LastAfter(last, front), o)
  }

  class ContextRegistry {
    const policies: map<string, Policy>
    var lastSnapshots: map<string, Snapshot>

    constructor (policies: map<string, Policy>)
      ensures this.policies == policies && lastSnapshots == map[]
    {
      this.policies := policies;
      lastSnapshots := map[];
    }

    /** The remembered snapshot is replaced on every tick, whether or not anything was logged. */
    method TransitionsForTick(obs: seq<Observation>) returns (out: seq<ContextChange>)
      modifies this
      ensures out == Log(policies, old(lastSnapshots), obs)
      ensures lastSnapshots == LastAfter(old(lastSnapshots), obs)
    {
      out := [];
      for i := 0 to |obs|
        invariant out == Log(policies, old(lastSnapshots), obs[..i])
        invariant lastSnapshots == LastAfter(old(lastSnapshots), obs[..i])
      {
        var snap := obs[i].snap;
        var prev := Remembered(lastSnapshots, snap.source);
        var transitions: seq<ContextChange>;
        match PolicyOf(policies, snap.source) {
          case Default => transitions := DefaultDiff(prev, snap);
          case Custom => transitions := CustomChanges(obs[i], |obs[i].custom|);
          case Threshold(rules) => transitions := ThresholdDiff(prev, snap, rules);
        }
        assert obs[..i + 1][..i] == obs[..i];
        out := out + transitions;
        lastSnapshots := lastSnapshots[snap.source := snap];
      }
      assert obs[..|obs|] == obs;
    }
  }
}

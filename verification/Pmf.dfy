/** The PMF power limits line: parsing it, turning it into context values, and when a change of limits is logged. */
module Pmf {
  import opened Rows
  import opened Throttle
  import opened Text
  import opened Context
  import opened ContextRuns

  datatype Limits = Limits(
    spl: Option<u32>, fppt: Option<u32>, sppt: Option<u32>, spptApuOnly: Option<u32>,
    sttMin: Option<u32>, sttApu: Option<u32>, sttHs2: Option<u32>)

  const NO_LIMITS := Limits(None, None, None, None, None, None, None)

  function WithLimit(l: Limits, key: string, value: u32): Limits {
    if key == "spl" then l.(spl := Some(value))
    else if key == "fppt" then l.(fppt := Some(value))
    else if key == "sppt" then l.(sppt := Some(value))
    else if key == "sppt_apu_only" then l.(spptApuOnly := Some(value))
    else if key == "stt_min" then l.(sttMin := Some(value))
    else if key == "stt[APU]" then l.(sttApu := Some(value))
    else if key == "stt[HS2]" then l.(sttHs2 := Some(value))
    else l
  }

  /** The seven keys of the kernel's line and the limit each one sets; any other key sets none. */
  lemma {:induction false} KeysOfLimits(l: Limits, v: u32, other: string)
    ensures WithLimit(l, "spl", v) == l.(spl := Some(v)) && WithLimit(l, "fppt", v) == l.(fppt := Some(v))
    ensures WithLimit(l, "sppt", v) == l.(sppt := Some(v)) && WithLimit(l, "sppt_apu_only", v) == l.(spptApuOnly := Some(v))
    ensures WithLimit(l, "stt_min", v) == l.(sttMin := Some(v))
    ensures WithLimit(l, "stt[APU]", v) == l.(sttApu := Some(v)) && WithLimit(l, "stt[HS2]", v) == l.(sttHs2 := Some(v))
    ensures other !in ["spl", "fppt", "sppt", "sppt_apu_only", "stt_min", "stt[APU]", "stt[HS2]"] ==> WithLimit(l, other, v) == l
  { }

  function Colon(token: string): (k: nat)
    ensures k <= |token| && (k < |token| ==> token[k] == ':') && ':' !in token[..k]
  {
    if token == [] || token[0] == ':' then 0 else
    assert token == [token[0]] + token[1..];
    1 + Colon(token[1..])
  }

  /** `split_once(':')`. */
  function SplitOnce(token: string): Option<(string, string)> {
    var k := Colon(token);
    if k == |token| then None else Some((token[..k], token[k + 1..]))
  }

  function ParseU32(s: string): Option<u32> {
    ParseUnsigned(s, U32_MAX)
  }

  /** What the remaining tokens add to the limits read so far. */
  function Scan(tokens: seq<string>, out: Limits): Limits
    decreases |tokens|
  {
    if tokens == [] then out else
    var split := SplitOnce(tokens[0]);
    if split.None? then Scan(tokens[1..], out) else
    var (key, text) := split.value;
    if text == "" then
      if |tokens| == 1 then out else
      var v := ParseU32(tokens[1]);
      if v.None? then Scan(tokens[1..], out) else Scan(tokens[2..], WithLimit(out, key, v.value))
    else
      var v := ParseU32(text);
      Scan(tokens[1..], if v.None? then out else WithLimit(out, key, v.value))
  }

  /** One round of the loop, by position. */
  lemma {:induction false} ScanStep(tokens: seq<string>, i: nat, out: Limits)
    requires i < |tokens|
    ensures var split := SplitOnce(tokens[i]);
            Scan(tokens[i..], out) ==
            if split.None? then Scan(tokens[i + 1..], out)
            else if split.value.1 == "" then
              if i + 1 == |tokens| then out
              else if ParseU32(tokens[i + 1]).None? then Scan(tokens[i + 1..], out)
              else Scan(tokens[i + 2..], WithLimit(out, split.value.0, ParseU32(tokens[i + 1]).value))
            else if ParseU32(split.value.1).None? then Scan(tokens[i + 1..], out)
            else Scan(tokens[i + 1..], WithLimit(out, split.value.0, ParseU32(split.value.1).value))
  {
    assert tokens[i..][1..] == tokens[i + 1..];
    assert i + 1 < |tokens| ==> tokens[i..][1] == tokens[i + 1] && tokens[i..][2..] == tokens[i + 2..];
  }

  function Complete(l: Limits): Option<Limits> {
    if l.spl.Some? || l.sppt.Some? then Some(l) else None
  }

  /** `parse_current_power_limits`: a bad detached value is read again as a key, so every round moves on by a token. */
  method ParseCurrentPowerLimits(line: string) returns (r: Option<Limits>)
    ensures r == Complete(Scan(Words(line), NO_LIMITS))
  {
    var out, tokens, i := NO_LIMITS, Words(line), 0;
    while i < |tokens|
      invariant 0 <= i <= |tokens|
      invariant Scan(tokens[i..], out) == Scan(tokens, NO_LIMITS)
      decreases |tokens| - i
    {
      ScanStep(tokens, i, out);
      var token := tokens[i];
      var split := SplitOnce(token);
      if split.None? {
        i := i + 1;
        continue;
      }
      var (key, text) := split.value;
      var value: u32;
      if text == "" {
        i := i + 1;
        if i >= |tokens| {
          break;
        }
        var v := ParseU32(tokens[i]);
        if v.None? {
          continue;
        }
        value := v.value;
      } else {
        var v := ParseU32(text);
        if v.None? {
          i := i + 1;
          continue;
        }
        value := v.value;
      }
      out := WithLimit(out, key, value);
      i := i + 1;
    }
    assert i == |tokens| ==> tokens[i..] == [];
    r := Complete(out);
  }

  // ---- printed lines ----

  /** One `key:value` of a line; a detached value follows after a space. */
  datatype Field = Field(key: string, value: u32, detached: bool)

  ghost predicate Plain(f: Field) {
    NoWhitespace(f.key) && ':' !in f.key
  }

  function FieldText(f: Field): string {
    f.key + ":" + (if f.detached then " " else "") + Decimal(f.value)
  }

  function Line(fields: seq<Field>): string {
    if fields == [] then ""
    else if |fields| == 1 then FieldText(fields[0])
    else FieldText(fields[0]) + " " + Line(fields[1..])
  }

  function FieldTokens(f: Field): seq<string> {
    if f.detached then [f.key + ":", Decimal(f.value)] else [f.key + ":" + Decimal(f.value)]
  }

  function Tokens(fields: seq<Field>): seq<string> {
    if fields == [] then [] else FieldTokens(fields[0]) + Tokens(fields[1..])
  }

  /** Later fields win. */
  function Assign(out: Limits, fields: seq<Field>): Limits
    decreases |fields|
  {
    if fields == [] then out else Assign(WithLimit(out, fields[0].key, fields[0].value), fields[1..])
  }

  lemma {:induction false} KeyIsSolid(f: Field)
    requires Plain(f)
    ensures NoWhitespace(f.key + ":") && NoWhitespace(f.key + ":" + Decimal(f.value)) && NoWhitespace(Decimal(f.value))
    ensures Decimal(f.value) != []
  {
    DecimalDenotes(f.value);
    DigitsAreSolid(Decimal(f.value));
    assert !IsWhitespace(':');
  }

  lemma {:induction false} FieldAlone(f: Field)
    requires Plain(f)
    ensures Words(FieldText(f)) == FieldTokens(f)
  {
    KeyIsSolid(f);
    var key, number := f.key + ":", Decimal(f.value);
    if f.detached {
      assert FieldText(f) == key + " " + number;
      FirstWord(key, number);
      OnlyWord(number);
    } else {
      assert FieldText(f) == key + number;
      OnlyWord(key + number);
    }
  }

  lemma {:induction false} FieldFirst(f: Field, rest: string)
    requires Plain(f)
    ensures Words(FieldText(f) + " " + rest) == FieldTokens(f) + Words(rest)
  {
    KeyIsSolid(f);
    var key, number := f.key + ":", Decimal(f.value);
    if f.detached {
      assert FieldText(f) + " " + rest == key + " " + (number + " " + rest);
      FirstWord(key, number + " " + rest);
      FirstWord(number, rest);
    } else {
      assert FieldText(f) == key + number;
      FirstWord(key + number, rest);
    }
  }

  lemma {:induction false} LineWords(fields: seq<Field>)
    requires forall f :: f in fields ==> Plain(f)
    ensures Words(Line(fields)) == Tokens(fields)
  {
    if |fields| == 1 {
      FieldAlone(fields[0]);
      assert Tokens(fields[1..]) == [];
    } else if |fields| > 1 {
      FieldFirst(fields[0], Line(fields[1..]));
      LineWords(fields[1..]);
    }
  }

  lemma {:induction false} ColonAfterKey(key: string, rest: string)
    requires ':' !in key
    ensures Colon(key + ":" + rest) == |key|
  {
    if key != [] {
      assert (key + ":" + rest)[1..] == key[1..] + ":" + rest;
      ColonAfterKey(key[1..], rest);
    }
  }

  lemma {:induction false} SplitField(key: string, rest: string)
    requires ':' !in key
    ensures SplitOnce(key + ":" + rest) == Some((key, rest))
  {
    ColonAfterKey(key, rest);
    var token := key + ":" + rest;
    assert token[..|key|] == key && token[|key| + 1..] == rest;
  }

  lemma {:induction false} ScanField(f: Field, rest: seq<string>, out: Limits)
    requires Plain(f)
    ensures Scan(FieldTokens(f) + rest, out) == Scan(rest, WithLimit(out, f.key, f.value))
  {
    var tokens := FieldTokens(f) + rest;
    KeyIsSolid(f);
    ParseDecimal(f.value, U32_MAX);
    if f.detached {
      assert f.key + ":" == f.key + ":" + "";
      SplitField(f.key, "");
      assert tokens[2..] == rest && tokens[1] == Decimal(f.value);
    } else {
      SplitField(f.key, Decimal(f.value));
      assert tokens[1..] == rest;
    }
  }

  lemma {:induction false} ScanFields(fields: seq<Field>, out: Limits)
    requires forall f :: f in fields ==> Plain(f)
    ensures Scan(Tokens(fields), out) == Assign(out, fields)
  {
    if fields != [] {
      ScanField(fields[0], Tokens(fields[1..]), out);
      ScanFields(fields[1..], WithLimit(out, fields[0].key, fields[0].value));
    }
  }

  /** Any line of `key:value` fields, known or unknown keys in any order, attached or detached values, parses to the
      last value of each known key. */
  lemma {:induction false} ParseLine(fields: seq<Field>)
    requires forall f :: f in fields ==> Plain(f)
    ensures Complete(Scan(Words(Line(fields)), NO_LIMITS)) == Complete(Assign(NO_LIMITS, fields))
  {
    LineWords(fields);
    ScanFields(fields, NO_LIMITS);
  }

  /** A key whose detached value is missing is dropped, and nothing after it is lost. */
  lemma {:induction false} MissingValueIsSkipped(key: string, fields: seq<Field>, out: Limits)
    requires ':' !in key && forall f :: f in fields ==> Plain(f)
    ensures Scan([key + ":"] + Tokens(fields), out) == Assign(out, fields)
  {
    var tokens := [key + ":"] + Tokens(fields);
    assert key + ":" == key + ":" + "";
    SplitField(key, "");
    ScanFields(fields, out);
    if fields != [] {
      assert tokens[1..] == Tokens(fields);
      KeyIsNoNumber(fields[0]);
    }
  }

  lemma {:induction false} KeyIsNoNumber(f: Field)
    ensures ParseU32(FieldTokens(f)[0]).None?
  {
    var t := FieldTokens(f)[0];
    assert t[|f.key|] == ':';
    var digits := if |t| > 1 && t[0] == '+' then t[1..] else t;
    assert |digits| < |t| ==> |f.key| >= 1 && digits[|f.key| - 1] == ':';
  }

  function Present(key: string, value: Option<u32>, detached: bool): seq<Field> {
    if value.Some? then [Field(key, value.value, detached)] else []
  }

  function PowerFields(l: Limits): seq<Field> {
    Present("spl", l.spl, false) + Present("fppt", l.fppt, false) + Present("sppt", l.sppt, false)
    + Present("sppt_apu_only", l.spptApuOnly, false)
  }

  function TemperatureFields(l: Limits): seq<Field> {
    Present("stt_min", l.sttMin, false) + Present("stt[APU]", l.sttApu, false) + Present("stt[HS2]", l.sttHs2, true)
  }

  /** The kernel's layout, with the space it prints before the last value, leaving out absent limits. */
  function KernelFields(l: Limits): seq<Field> {
    PowerFields(l) + TemperatureFields(l)
  }

  lemma {:induction false} AssignAppend(out: Limits, a: seq<Field>, b: seq<Field>)
    ensures Assign(out, a + b) == Assign(Assign(out, a), b)
    decreases |a|
  {
    if a == [] {
      assert a + b == b;
    } else {
      assert (a + b)[1..] == a[1..] + b;
      AssignAppend(WithLimit(out, a[0].key, a[0].value), a[1..], b);
    }
  }

  lemma {:induction false} AssignPresent(out: Limits, key: string, value: Option<u32>, detached: bool)
    ensures Assign(out, Present(key, value, detached)) == if value.Some? then WithLimit(out, key, value.value) else out
  {
    if value.Some? {
      var f := Field(key, value.value, detached);
      assert [f][1..] == [];
      assert Assign(WithLimit(out, key, value.value), []) == WithLimit(out, key, value.value);
    }
  }

  /** Adding one present limit after the fields so far. */
  lemma {:induction false} AddPresent(start: Limits, fields: seq<Field>, out: Limits, key: string, value: Option<u32>, detached: bool)
    requires Assign(start, fields) == out
    ensures Assign(start, fields + Present(key, value, detached)) == if value.Some? then WithLimit(out, key, value.value) else out
  {
    AssignAppend(start, fields, Present(key, value, detached));
    AssignPresent(out, key, value, detached);
  }

  lemma {:induction false} AssignPowerFields(l: Limits)
    ensures Assign(NO_LIMITS, PowerFields(l)) == l.(sttMin := None, sttApu := None, sttHs2 := None)
  {
    var f1 := Present("spl", l.spl, false);
    AssignPresent(NO_LIMITS, "spl", l.spl, false);
    var f2 := f1 + Present("fppt", l.fppt, false);
    AddPresent(NO_LIMITS, f1, NO_LIMITS.(spl := l.spl), "fppt", l.fppt, false);
    var f3 := f2 + Present("sppt", l.sppt, false);
    AddPresent(NO_LIMITS, f2, NO_LIMITS.(spl := l.spl, fppt := l.fppt), "sppt", l.sppt, false);
    AddPresent(NO_LIMITS, f3, NO_LIMITS.(spl := l.spl, fppt := l.fppt, sppt := l.sppt), "sppt_apu_only", l.spptApuOnly, false);
  }

  lemma {:induction false} AssignTemperatureFields(out: Limits, l: Limits)
    requires out.sttMin.None? && out.sttApu.None? && out.sttHs2.None?
    ensures Assign(out, TemperatureFields(l)) == out.(sttMin := l.sttMin, sttApu := l.sttApu, sttHs2 := l.sttHs2)
  {
    var f1 := Present("stt_min", l.sttMin, false);
    AssignPresent(out, "stt_min", l.sttMin, false);
    var f2 := f1 + Present("stt[APU]", l.sttApu, false);
    AddPresent(out, f1, out.(sttMin := l.sttMin), "stt[APU]", l.sttApu, false);
    AddPresent(out, f2, out.(sttMin := l.sttMin, sttApu := l.sttApu), "stt[HS2]", l.sttHs2, true);
  }

  lemma {:induction false} PresentIsPlain(key: string, value: Option<u32>, detached: bool)
    requires NoWhitespace(key) && ':' !in key
    ensures forall f :: f in Present(key, value, detached) ==> Plain(f)
  { }

  lemma {:induction false} KernelFieldsArePlain(l: Limits)
    ensures forall f :: f in KernelFields(l) ==> Plain(f)
  {
    PresentIsPlain("spl", l.spl, false);
    PresentIsPlain("fppt", l.fppt, false);
    PresentIsPlain("sppt", l.sppt, false);
    PresentIsPlain("sppt_apu_only", l.spptApuOnly, false);
    PresentIsPlain("stt_min", l.sttMin, false);
    PresentIsPlain("stt[APU]", l.sttApu, false);
    PresentIsPlain("stt[HS2]", l.sttHs2, true);
  }

  /** Printing any limits in the kernel's layout and parsing the line gives exactly those limits, provided one of the
      two keys that identify the file is among them, and nothing otherwise. */
  lemma {:induction false} KernelLineRoundTrip(l: Limits)
    ensures Complete(Scan(Words(Line(KernelFields(l))), NO_LIMITS)) == if l.spl.Some? || l.sppt.Some? then Some(l) else None
  {
    KernelFieldsArePlain(l);
    ParseLine(KernelFields(l));
    AssignAppend(NO_LIMITS, PowerFields(l), TemperatureFields(l));
    AssignPowerFields(l);
    AssignTemperatureFields(l.(sttMin := None, sttApu := None, sttHs2 := None), l);
  }

  // ---- context values ----

  const POWER_DELTA_MW := 1000.0
  const TEMP_DELTA_C := 1.0

  const PMF_THRESHOLDS: seq<Rule> := [
    Rule("spl_mw", POWER_DELTA_MW), Rule("fppt_mw", POWER_DELTA_MW), Rule("sppt_mw", POWER_DELTA_MW),
    Rule("sppt_apu_only_mw", POWER_DELTA_MW),
    Rule("stt_min_c", TEMP_DELTA_C), Rule("stt_apu_c", TEMP_DELTA_C), Rule("stt_hs2_c", TEMP_DELTA_C)]

  /** The limits under the keys they are stored as. */
  function Table(l: Limits): seq<(string, Option<u32>)> {
    [("spl_mw", l.spl), ("fppt_mw", l.fppt), ("sppt_mw", l.sppt), ("sppt_apu_only_mw", l.spptApuOnly),
     ("stt_min_c", l.sttMin), ("stt_apu_c", l.sttApu), ("stt_hs2_c", l.sttHs2)]
  }

  function NumValueOf(key: string, value: Option<u32>): seq<ContextValue> {
    if value.Some? then [ContextValue(key, Some(value.value as real), None)] else []
  }

  function ValuesOf(table: seq<(string, Option<u32>)>): seq<ContextValue> {
    if table == [] then [] else
    ValuesOf(table[..|table| - 1]) + NumValueOf(table[|table| - 1].0, table[|table| - 1].1)
  }

  lemma {:induction false} ValuesUpTo(table: seq<(string, Option<u32>)>, k: nat)
    requires k < |table|
    ensures ValuesOf(table[..k + 1]) == ValuesOf(table[..k]) + NumValueOf(table[k].0, table[k].1)
  {
    assert table[..k + 1][..k] == table[..k];
  }

  method PushNum(values: seq<ContextValue>, key: string, limit: Option<u32>) returns (more: seq<ContextValue>)
    ensures more == values + NumValueOf(key, limit)
  {
    more := values;
    if limit.Some? {
      more := more + [ContextValue(key, Some(limit.value as real), None)];
    }
  }

  /** `limits_to_values`. */
  method LimitsToValues(l: Limits) returns (values: seq<ContextValue>)
    ensures values == ValuesOf(Table(l))
  {
    ghost var table := Table(l);
    forall k | 0 <= k < 7 ensures ValuesOf(table[..k + 1]) == ValuesOf(table[..k]) + NumValueOf(table[k].0, table[k].1) {
      ValuesUpTo(table, k);
    }
    values := PushNum([], "spl_mw", l.spl);
    assert values == ValuesOf(table[..0 + 1]);
    values := PushNum(values, "fppt_mw", l.fppt);
    assert values == ValuesOf(table[..1 + 1]);
    values := PushNum(values, "sppt_mw", l.sppt);
    assert values == ValuesOf(table[..2 + 1]);
    values := PushNum(values, "sppt_apu_only_mw", l.spptApuOnly);
    assert values == ValuesOf(table[..3 + 1]);
    values := PushNum(values, "stt_min_c", l.sttMin);
    assert values == ValuesOf(table[..4 + 1]);
    values := PushNum(values, "stt_apu_c", l.sttApu);
    assert values == ValuesOf(table[..5 + 1]);
    values := PushNum(values, "stt_hs2_c", l.sttHs2);
    assert values == ValuesOf(table[..6 + 1]);
    assert table[..7] == table;
  }

  ghost predicate KeysDiffer(table: seq<(string, Option<u32>)>) {
    forall i, j :: 0 <= i < j < |table| ==> table[i].0 != table[j].0
  }

  lemma {:induction false} KeyOfValue(table: seq<(string, Option<u32>)>, v: ContextValue) returns (i: nat)
    requires v in ValuesOf(table)
    ensures i < |table| && table[i].0 == v.key
  {
    var n := |table| - 1;
    if v in ValuesOf(table[..n]) {
      i := KeyOfValue(table[..n], v);
    } else {
      i := n;
    }
  }

  lemma {:induction false} ValuesDiffer(table: seq<(string, Option<u32>)>)
    requires KeysDiffer(table)
    ensures forall i, j :: 0 <= i < j < |ValuesOf(table)| ==> ValuesOf(table)[i].key != ValuesOf(table)[j].key
  {
    if table != [] {
      var n := |table| - 1;
      var values := ValuesOf(table[..n]);
      ValuesDiffer(table[..n]);
      forall i | 0 <= i < |values| ensures values[i].key != table[n].0 {
        var j := KeyOfValue(table[..n], values[i]);
      }
    }
  }

  lemma {:induction false} PresentIsListed(table: seq<(string, Option<u32>)>, i: nat)
    requires i < |table| && table[i].1.Some?
    ensures ContextValue(table[i].0, Some(table[i].1.value as real), None) in ValuesOf(table)
  {
    var n := |table| - 1;
    if i < n { PresentIsListed(table[..n], i); }
  }

  lemma {:induction false} LimitKeysDiffer(l: Limits)
    ensures KeysDiffer(Table(l))
  {
    var t := Table(l);
    assert |t[0].0| == 6 && |t[1].0| == 7 && |t[2].0| == 7 && |t[3].0| == 16 && |t[4].0| == 9 && |t[5].0| == 9 && |t[6].0| == 9;
    assert t[1].0[0] != t[2].0[0] && t[4].0[4] != t[5].0[4] && t[4].0[4] != t[6].0[4] && t[5].0[4] != t[6].0[4];
  }

  /** A present limit is the number the snapshot holds under its key. */
  lemma {:induction false} LimitIsHeld(source: string, ts: int, l: Limits, i: nat)
    requires i < 7 && Table(l)[i].1.Some?
    ensures var s := Snapshot(source, ts, "ok", ValuesOf(Table(l)));
            DistinctKeys(s) && NumValue(s, Table(l)[i].0) == Some(Table(l)[i].1.value as real)
  {
    var table, values := Table(l), ValuesOf(Table(l));
    LimitKeysDiffer(l);
    ValuesDiffer(table);
    PresentIsListed(table, i);
    var v := ContextValue(table[i].0, Some(table[i].1.value as real), None);
    var j :| 0 <= j < |values| && values[j] == v;
    FindDistinct(values, j);
  }

  lemma {:induction false} AbsentIsNotHeld(table: seq<(string, Option<u32>)>, i: nat)
    requires i < |table| && table[i].1.None? && KeysDiffer(table)
    ensures forall v :: v in ValuesOf(table) ==> v.key != table[i].0
  {
    var n := |table| - 1;
    if i < n { AbsentIsNotHeld(table[..n], i); }
    forall v | v in ValuesOf(table) ensures v.key != table[i].0 {
      if v in ValuesOf(table[..n]) {
        if i == n { var j := KeyOfValue(table[..n], v); }
      } else {
        assert i < n ==> table[i].0 != table[n].0;
      }
    }
  }

  ghost function AsReal(limit: Option<u32>): Option<real> {
    if limit.Some? then Some(limit.value as real) else None
  }

  lemma {:induction false} LimitReads(source: string, ts: int, l: Limits, i: nat)
    requires i < 7
    ensures NumValue(Snapshot(source, ts, "ok", ValuesOf(Table(l))), Table(l)[i].0) == AsReal(Table(l)[i].1)
  {
    if Table(l)[i].1.Some? {
      LimitIsHeld(source, ts, l, i);
    } else {
      LimitKeysDiffer(l);
      AbsentIsNotHeld(Table(l), i);
      FindAbsent(ValuesOf(Table(l)), Table(l)[i].0);
    }
  }

  lemma {:induction false} FindAbsent(values: seq<ContextValue>, key: string)
    requires forall v :: v in values ==> v.key != key
    ensures Find(values, key).None?
  {
    if values != [] { FindAbsent(values[1..], key); }
  }

  /** A snapshot holds each limit under its own key, and an absent one under none. */
  lemma {:induction false} LimitsAreHeld(source: string, ts: int, l: Limits)
    ensures var s := Snapshot(source, ts, "ok", ValuesOf(Table(l)));
            && NumValue(s, "spl_mw") == AsReal(l.spl) && NumValue(s, "fppt_mw") == AsReal(l.fppt)
            && NumValue(s, "sppt_mw") == AsReal(l.sppt) && NumValue(s, "sppt_apu_only_mw") == AsReal(l.spptApuOnly)
            && NumValue(s, "stt_min_c") == AsReal(l.sttMin)
            && NumValue(s, "stt_apu_c") == AsReal(l.sttApu) && NumValue(s, "stt_hs2_c") == AsReal(l.sttHs2)
  {
    LimitReads(source, ts, l, 0);
    LimitReads(source, ts, l, 1);
    LimitReads(source, ts, l, 2);
    LimitReads(source, ts, l, 3);
    LimitReads(source, ts, l, 4);
    LimitReads(source, ts, l, 5);
    LimitReads(source, ts, l, 6);
  }

  lemma {:induction false} OwnRule(rules: seq<Rule>, i: nat)
    requires i < |rules| && forall j :: 0 <= j < i ==> rules[j].key != rules[i].key
    ensures RuleFor(rules, rules[i].key) == Some(rules[i])
  {
    if i > 0 {
      assert rules[0].key != rules[i].key;
      OwnRule(rules[1..], i - 1);
    }
  }

  lemma {:induction false} LimitRule(l: Limits, i: nat)
    requires i < 7
    ensures PMF_THRESHOLDS[i] == Rule(Table(l)[i].0, if i < 4 then POWER_DELTA_MW else TEMP_DELTA_C)
    ensures RuleFor(PMF_THRESHOLDS, Table(l)[i].0) == Some(PMF_THRESHOLDS[i])
  {
    LimitKeysDiffer(l);
    assert forall j :: 0 <= j < 7 ==> PMF_THRESHOLDS[j].key == Table(l)[j].0;
    OwnRule(PMF_THRESHOLDS, i);
  }

  /** Between two healthy readings, a limit present in both is logged exactly when it moved: by a watt or more for the
      four power limits, by anything at all for the three temperatures, which are whole degrees. */
  lemma {:induction false} PmfLogsExactly(source: string, ts: int, before: Limits, ts': int, after: Limits, i: nat)
    requires i < 7 && Table(before)[i].1.Some? && Table(after)[i].1.Some?
    ensures var previous, s := Snapshot(source, ts, "ok", ValuesOf(Table(before))), Snapshot(source, ts', "ok", ValuesOf(Table(after)));
            var x: int, y: int := Table(before)[i].1.value, Table(after)[i].1.value;
            Logs(ThresholdChanges(Some(previous), s, PMF_THRESHOLDS), FullKey(source, Table(after)[i].0))
            <==> if i < 4 then x - y >= 1000 || y - x >= 1000 else x != y
  {
    var previous, s := Snapshot(source, ts, "ok", ValuesOf(Table(before))), Snapshot(source, ts', "ok", ValuesOf(Table(after)));
    LimitIsHeld(source, ts, before, i);
    LimitIsHeld(source, ts', after, i);
    LimitRule(after, i);
    assert Table(before)[i].0 == Table(after)[i].0;
    ThresholdLogsExactly(previous, s, PMF_THRESHOLDS, Table(after)[i].0);
  }
}

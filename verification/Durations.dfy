/** Capture durations on the command line: parsing `20m`, `1h` or `300s`, and printing a duration back. */
module Durations {
  import opened Division
  import opened Throttle
  import opened Text

  datatype Parsed = Seconds(secs: u64) | Empty | Invalid | Zero

  const U64_MAX := U64_RANGE - 1

  function SaturatingMul(a: u64, b: u64): u64 {
    assert a * b >= 0;
    if a * b > U64_MAX then U64_MAX else a * b
  }

  function Nonzero(secs: u64): Parsed {
    if secs == 0 then Zero else Seconds(secs)
  }

  function Scaled(num: string, unit: u64): Parsed {
    var n := ParseUnsigned(Trim(num), U64_MAX);
    if n.None? then Invalid else Nonzero(SaturatingMul(n.value, unit))
  }

  /** `parse_duration`. */
  function ParseDuration(raw: string): Parsed {
    var text := Trim(raw);
    if text == [] then Empty else
    var num, suffix := text[..|text| - 1], text[|text| - 1];
    if suffix == 's' then Scaled(num, 1)
    else if suffix == 'm' then Scaled(num, 60)
    else if suffix == 'h' then Scaled(num, 3600)
    else
      var n := ParseUnsigned(text, U64_MAX);
      if n.None? then Invalid else Nonzero(n.value)
  }

  /** `format_duration`, for whole seconds. */
  function FormatDuration(secs: u64): string {
    if secs >= 3600 && secs % 3600 == 0 then Decimal(secs / 3600) + "h"
    else if secs >= 60 && secs % 60 == 0 then Decimal(secs / 60) + "m"
    else Decimal(secs) + "s"
  }

  lemma {:induction false} ScaledDecimal(n: u64, unit: u64)
    ensures Scaled(Decimal(n), unit) == Nonzero(SaturatingMul(n, unit))
  {
    DecimalDenotes(n);
    DigitsAreSolid(Decimal(n));
    SolidTrims(Decimal(n));
    ParseDecimal(n, U64_MAX);
  }

  predicate IsUnit(suffix: char, unit: u64) {
    (suffix == 's' && unit == 1) || (suffix == 'm' && unit == 60) || (suffix == 'h' && unit == 3600)
  }

  lemma {:induction false} ParseSuffixed(n: u64, suffix: char, unit: u64)
    requires IsUnit(suffix, unit)
    ensures ParseDuration(Decimal(n) + [suffix]) == Nonzero(SaturatingMul(n, unit))
  {
    var text := Decimal(n) + [suffix];
    DecimalDenotes(n);
    DigitsAreSolid(Decimal(n));
    SolidTrims(text);
    assert text[..|text| - 1] == Decimal(n);
    ScaledDecimal(n, unit);
  }

  /** Whole hours are printed in hours, other whole minutes in minutes, the rest in seconds. */
  lemma {:induction false} HoursPrinted(n: nat)
    requires 1 <= n && 3600 * n < 0x1_0000_0000_0000_0000
    ensures FormatDuration(3600 * n) == Decimal(n) + "h"
  {
    QuotientIs(3600 * n, 3600, n, 0);
  }

  lemma {:induction false} MinutesPrinted(n: nat)
    requires n % 60 != 0 && 60 * n < 0x1_0000_0000_0000_0000
    ensures FormatDuration(60 * n) == Decimal(n) + "m"
  {
    QuotientIs(60 * n, 60, n, 0);
    QuotientIs(60 * n, 3600, n / 60, 60 * (n % 60));
  }

  lemma {:induction false} SecondsPrinted(n: nat)
    requires (n == 0 || n % 60 != 0) && n < 0x1_0000_0000_0000_0000
    ensures FormatDuration(n) == Decimal(n) + "s"
  {
    if n % 3600 == 0 { QuotientIs(n, 60, n / 3600 * 60, 0); }
  }

  /** A bare number is seconds; zero is refused however it is written. */
  lemma {:induction false} BareSeconds(n: nat)
    ensures ParseDuration(Decimal(n)) == if n == 0 then Zero else if n < 0x1_0000_0000_0000_0000 then Seconds(n) else Invalid
  {
    DecimalDenotes(n);
    DigitsAreSolid(Decimal(n));
    SolidTrims(Decimal(n));
    assert IsDigit(Decimal(n)[|Decimal(n)| - 1]);
    if n <= U64_MAX { ParseDecimal(n, U64_MAX); } else { OverflowRefused(n, U64_MAX); }
  }

  /** A blank text is refused as empty, and whitespace around a text or before its unit does not matter. */
  lemma {:induction false} MarginsIgnored(pre: string, raw: string, post: string)
    requires AllWhitespace(pre) && AllWhitespace(post)
    ensures ParseDuration(pre + raw + post) == ParseDuration(raw)
    ensures ParseDuration(raw) == Empty <==> AllWhitespace(raw)
  {
    TrimDropsMargins(pre, raw, post);
    TrimmedEnds(raw);
  }

  /** A text that ends in neither a digit nor one of the three units is refused. */
  lemma {:induction false} OtherUnitsRefused(raw: string)
    requires !AllWhitespace(raw) && Trim(raw) != []
    requires var last := Trim(raw)[|Trim(raw)| - 1]; last != 's' && last != 'm' && last != 'h' && !('0' <= last <= '9')
    ensures ParseDuration(raw) == Invalid
  {
    NumeralsAccepted(Trim(raw), U64_MAX);
  }

  lemma {:induction false} SpaceBeforeUnit(n: u64, pre: string, suffix: char, unit: u64)
    requires IsUnit(suffix, unit) && AllWhitespace(pre)
    ensures ParseDuration(Decimal(n) + pre + [suffix]) == ParseDuration(Decimal(n) + [suffix])
  {
    var text := Decimal(n) + pre + [suffix];
    DecimalDenotes(n);
    DigitsAreSolid(Decimal(n));
    TrimStartStays(text);
    assert Trim(text) == text;
    assert text[..|text| - 1] == Decimal(n) + pre;
    TrimDropsMargins([], Decimal(n), pre);
    assert [] + Decimal(n) + pre == Decimal(n) + pre;
    SolidTrims(Decimal(n));
    ScaledDecimal(n, unit);
    ParseSuffixed(n, suffix, unit);
  }

  lemma {:induction false} TrimStartStays(s: string)
    requires s != [] && !IsWhitespace(s[0]) && !IsWhitespace(s[|s| - 1])
    ensures Trim(s) == s
  { }

  /** Every positive whole-second duration survives being printed and parsed, without saturating. */
  lemma {:induction false} DurationRoundTrip(secs: u64)
    requires secs >= 1
    ensures ParseDuration(FormatDuration(secs)) == Seconds(secs)
  {
    if secs >= 3600 && secs % 3600 == 0 {
      assert secs / 3600 * 3600 == secs;
      ParseSuffixed(secs / 3600, 'h', 3600);
    } else if secs >= 60 && secs % 60 == 0 {
      assert secs / 60 * 60 == secs;
      ParseSuffixed(secs / 60, 'm', 60);
    } else {
      ParseSuffixed(secs, 's', 1);
    }
  }

  /** Zero prints as "0s", which is the one printed duration that is refused. */
  lemma {:induction false} ZeroIsRefused()
    ensures ParseDuration(FormatDuration(0)) == Zero
  {
    ParseSuffixed(0, 's', 1);
  }

  /** A printed count of minutes or hours is refused only for zero, and denotes its product until that leaves 64 bits;
      beyond, it denotes the maximum. */
  lemma {:induction false} SaturationBoundary(n: u64, suffix: char, unit: u64)
    requires IsUnit(suffix, unit) && n >= 1
    ensures ParseDuration(Decimal(n) + [suffix]) == Seconds(if n * unit <= U64_MAX then n * unit else U64_MAX)
  {
    ParseSuffixed(n, suffix, unit);
    SaturatedIsPositive(n, unit);
  }

  lemma {:induction false} SaturatedIsPositive(n: u64, unit: u64)
    requires n >= 1 && unit in {1, 60, 3600}
    ensures SaturatingMul(n, unit) == (if n * unit <= U64_MAX then n * unit else U64_MAX) >= 1
  { }

  /** Whatever text was accepted, printing its duration gives a text accepted as the same duration. */
  lemma {:induction false} ParseIsCanonical(raw: string)
    requires ParseDuration(raw).Seconds?
    ensures ParseDuration(raw).secs >= 1
    ensures ParseDuration(FormatDuration(ParseDuration(raw).secs)) == ParseDuration(raw)
  {
    DurationRoundTrip(ParseDuration(raw).secs);
  }
}

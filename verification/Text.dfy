/** The string operations the two text formats rely on: trimming, splitting at whitespace, and unsigned decimals. */
module Text {
  import opened Rows

  /** `char::is_whitespace`. */
  predicate IsWhitespace(c: char) {
    var n := c as int;
    0x9 <= n <= 0xD || n == 0x20 || n == 0x85 || n == 0xA0 || n == 0x1680 || 0x2000 <= n <= 0x200A
    || n == 0x2028 || n == 0x2029 || n == 0x202F || n == 0x205F || n == 0x3000
  }

  lemma {:induction false} WhitespaceIs(c: char)
    ensures IsWhitespace(c) <==> c as int in {9, 10, 11, 12, 13, 32, 133, 160, 5760, 8192, 8193, 8194, 8195, 8196, 8197, 8198, 8199,
                                              8200, 8201, 8202, 8232, 8233, 8239, 8287, 12288}
  { }

  function TrimStart(s: string): string {
    if s != [] && IsWhitespace(s[0]) then TrimStart(s[1..]) else s
  }

  function TrimEnd(s: string): string {
    if s != [] && IsWhitespace(s[|s| - 1]) then TrimEnd(s[..|s| - 1]) else s
  }

  function Trim(s: string): string {
    TrimEnd(TrimStart(s))
  }

  predicate NoWhitespace(s: string) {
    forall i :: 0 <= i < |s| ==> !IsWhitespace(s[i])
  }

  predicate AllWhitespace(s: string) {
    forall i :: 0 <= i < |s| ==> IsWhitespace(s[i])
  }

  lemma {:induction false} TrimStartSkips(pre: string, s: string)
    requires AllWhitespace(pre)
    ensures TrimStart(pre + s) == TrimStart(s)
  {
    if pre == [] {
      assert pre + s == s;
    } else {
      assert (pre + s)[1..] == pre[1..] + s;
      TrimStartSkips(pre[1..], s);
    }
  }

  lemma {:induction false} TrimEndSkips(s: string, post: string)
    requires AllWhitespace(post)
    ensures TrimEnd(s + post) == TrimEnd(s)
  {
    if post == [] {
      assert s + post == s;
    } else {
      assert (s + post)[..|s + post| - 1] == s + post[..|post| - 1];
      TrimEndSkips(s, post[..|post| - 1]);
    }
  }

  lemma {:induction false} TrimStartStops(s: string, post: string)
    requires !AllWhitespace(s)
    ensures TrimStart(s + post) == TrimStart(s) + post
  {
    if IsWhitespace(s[0]) {
      assert (s + post)[1..] == s[1..] + post;
      TrimStartStops(s[1..], post);
    }
  }

  /** Whitespace around a text is dropped, whatever the text. */
  lemma {:induction false} TrimDropsMargins(pre: string, s: string, post: string)
    requires AllWhitespace(pre) && AllWhitespace(post)
    ensures Trim(pre + s + post) == Trim(s)
  {
    assert pre + s + post == pre + (s + post);
    TrimStartSkips(pre, s + post);
    if AllWhitespace(s) {
      TrimBlank(s);
      TrimBlank(s + post);
    } else {
      TrimStartStops(s, post);
      TrimEndSkips(TrimStart(s), post);
    }
  }

  lemma {:induction false} TrimBlank(s: string)
    requires AllWhitespace(s)
    ensures TrimStart(s) == [] && Trim(s) == []
  {
    if s != [] { TrimBlank(s[1..]); }
  }

  /** What is left begins and ends with something else. */
  lemma {:induction false} TrimmedEnds(s: string)
    ensures Trim(s) == [] <==> AllWhitespace(s)
    ensures Trim(s) != [] ==> !IsWhitespace(Trim(s)[0]) && !IsWhitespace(Trim(s)[|Trim(s)| - 1])
  {
    TrimStartBegins(s);
    TrimEndEnds(TrimStart(s));
    if AllWhitespace(s) { TrimBlank(s); }
  }

  lemma {:induction false} TrimStartBegins(s: string)
    ensures TrimStart(s) != [] ==> !IsWhitespace(TrimStart(s)[0])
    ensures TrimStart(s) == [] ==> AllWhitespace(s)
  {
    if s != [] && IsWhitespace(s[0]) {
      TrimStartBegins(s[1..]);
      if TrimStart(s) == [] {
        forall i | 0 <= i < |s| ensures IsWhitespace(s[i]) { assert i > 0 ==> s[i] == s[1..][i - 1]; }
      }
    }
  }

  lemma {:induction false} TrimEndEnds(s: string)
    ensures TrimEnd(s) <= s
    ensures TrimEnd(s) != [] ==> !IsWhitespace(TrimEnd(s)[|TrimEnd(s)| - 1])
    ensures s != [] && !IsWhitespace(s[0]) ==> TrimEnd(s) != []
  {
    if s != [] && IsWhitespace(s[|s| - 1]) { TrimEndEnds(s[..|s| - 1]); }
  }

  // ---- unsigned decimals ----

  predicate IsDigit(c: char) { '0' <= c <= '9' }

  predicate AllDigits(s: string) {
    forall i :: 0 <= i < |s| ==> IsDigit(s[i])
  }

  function DigitOf(d: nat): char
    requires d < 10
  {
    '0' + d as char
  }

  function DigitValue(c: char): nat
    requires IsDigit(c)
  {
    c as int - '0' as int
  }

  /** The number a digit string denotes. */
  function ValueOf(s: string): nat
    requires AllDigits(s)
  {
    if s == [] then 0 else ValueOf(s[..|s| - 1]) * 10 + DigitValue(s[|s| - 1])
  }

  /** `to_string` of an unsigned integer. */
  function Decimal(n: nat): string {
    if n < 10 then [DigitOf(n)] else Decimal(n / 10) + [DigitOf(n % 10)]
  }

  /** `str::parse` for an unsigned type of the given maximum: an optional plus sign, digits only, no overflow. */
  function ParseUnsigned(s: string, max: nat): Option<nat> {
    var digits := if |s| > 1 && s[0] == '+' then s[1..] else s;
    if digits == [] || !AllDigits(digits) || ValueOf(digits) > max then None else Some(ValueOf(digits))
  }

  /** Decimal notation: ten digits in their order, and a further digit means ten times as much. */
  lemma {:induction false} DecimalNotation(n: nat, d: nat)
    requires d < 10
    ensures Decimal(d) == ["0123456789"[d]]
    ensures n > 0 ==> Decimal(10 * n + d) == Decimal(n) + ["0123456789"[d]]
  {
    assert n > 0 ==> (10 * n + d) / 10 == n && (10 * n + d) % 10 == d;
  }

  /** What is accepted as a number: digits, after a plus sign or not; leading zeros do not count. */
  lemma {:induction false} NumeralsAccepted(s: string, max: nat)
    ensures ParseUnsigned(s, max).Some? ==>
              s != [] && s != "+" && forall i :: 0 <= i < |s| ==> '0' <= s[i] <= '9' || (i == 0 && s[i] == '+')
    ensures ParseUnsigned(s, max).Some? ==> ParseUnsigned(s, max).value <= max
    ensures s != [] && AllDigits(s) ==> ParseUnsigned("+" + s, max) == ParseUnsigned(s, max) == ParseUnsigned("0" + s, max)
  {
    if s != [] && s[0] == '+' { assert forall i :: 1 <= i < |s| ==> s[i] == s[1..][i - 1]; }
    if s != [] && AllDigits(s) {
      assert ("+" + s)[1..] == s;
      LeadingZero(s);
    }
  }

  lemma {:induction false} LeadingZero(s: string)
    requires AllDigits(s)
    ensures AllDigits("0" + s) && ValueOf("0" + s) == ValueOf(s)
  {
    if s == [] {
      assert ("0" + s)[..0] == [];
    } else {
      assert ("0" + s)[..|s|] == "0" + s[..|s| - 1];
      LeadingZero(s[..|s| - 1]);
    }
  }

  /** A number beyond the maximum is refused. */
  lemma {:induction false} OverflowRefused(n: nat, max: nat)
    requires n > max
    ensures ParseUnsigned(Decimal(n), max).None?
  {
    DecimalDenotes(n);
    assert IsDigit(Decimal(n)[0]);
  }

  lemma {:induction false} DecimalDenotes(n: nat)
    ensures Decimal(n) != [] && AllDigits(Decimal(n)) && ValueOf(Decimal(n)) == n
  {
    if n >= 10 {
      DecimalDenotes(n / 10);
      assert Decimal(n)[..|Decimal(n)| - 1] == Decimal(n / 10);
    } else {
      assert Decimal(n)[..0] == [];
    }
  }

  /** Printing a number and parsing it back. */
  lemma {:induction false} ParseDecimal(n: nat, max: nat)
    requires n <= max
    ensures ParseUnsigned(Decimal(n), max) == Some(n)
  {
    DecimalDenotes(n);
    assert IsDigit(Decimal(n)[0]);
  }

  lemma {:induction false} DigitsAreSolid(s: string)
    requires AllDigits(s)
    ensures NoWhitespace(s)
  { }

  lemma {:induction false} SolidTrims(s: string)
    requires NoWhitespace(s)
    ensures Trim(s) == s
  { }

  // ---- split_whitespace ----

  /** The length of the word a string starts with. */
  function WordEnd(s: string): (k: nat)
    ensures k <= |s| && NoWhitespace(s[..k]) && (k < |s| ==> IsWhitespace(s[k]))
  {
    if s == [] || IsWhitespace(s[0]) then 0 else
    assert s == [s[0]] + s[1..];
    1 + WordEnd(s[1..])
  }

  function Words(s: string): seq<string> {
    if s == [] then []
    else if IsWhitespace(s[0]) then Words(s[1..])
    else [s[..WordEnd(s)]] + Words(s[WordEnd(s)..])
  }

  lemma {:induction false} WordEndOf(w: string, rest: string)
    requires NoWhitespace(w) && (rest != [] ==> IsWhitespace(rest[0]))
    ensures WordEnd(w + rest) == |w|
  {
    if w != [] {
      assert (w + rest)[1..] == w[1..] + rest;
      WordEndOf(w[1..], rest);
    } else {
      assert w + rest == rest;
    }
  }

  /** Words are what whitespace of any kind separates. */
  lemma {:induction false} WordsSeparate(w: string, c: char, rest: string)
    requires NoWhitespace(w) && IsWhitespace(c)
    ensures Words(w + [c] + rest) == (if w == [] then [] else [w]) + Words(rest)
  {
    var s := w + [c] + rest;
    assert s == w + ([c] + rest) && ([c] + rest)[1..] == rest;
    if w == [] {
      assert s == [c] + rest;
    } else {
      WordEndOf(w, [c] + rest);
      assert s[..|w|] == w && s[|w|..] == [c] + rest;
    }
  }

  /** A word followed by a space and more text. */
  lemma {:induction false} FirstWord(w: string, rest: string)
    requires w != [] && NoWhitespace(w)
    ensures Words(w + " " + rest) == [w] + Words(rest)
  {
    var s := w + " " + rest;
    assert s == w + (" " + rest);
    WordEndOf(w, " " + rest);
    assert s[..|w|] == w && s[|w|..] == " " + rest;
    assert (" " + rest)[1..] == rest;
  }

  lemma {:induction false} OnlyWord(w: string)
    requires w != [] && NoWhitespace(w)
    ensures Words(w) == [w]
  {
    assert w + "" == w;
    WordEndOf(w, "");
    assert w[..|w|] == w && w[|w|..] == "";
  }
}

/**
  The few .NET string and number routines the services depend on: Char.IsWhiteSpace,
  string.IsNullOrEmpty / IsNullOrWhiteSpace, invariant upper/lower casing, long.ToString()
  and long.TryParse.
 */
module Text {
  import opened Common

  const LongMin := -0x8000_0000_0000_0000
  const LongMax := 0x7FFF_FFFF_FFFF_FFFF

  /** Char.IsWhiteSpace: the Unicode space, line and paragraph separators and the control characters U+0009-U+000D and U+0085. */
  predicate IsWhiteSpace(c: char) {
    || c == ' ' || ('\t' <= c <= '\r') || c == '\U{0085}' || c == '\U{00A0}' || c == '\U{1680}'
    || ('\U{2000}' <= c <= '\U{200A}') || c == '\U{2028}' || c == '\U{2029}' || c == '\U{202F}'
    || c == '\U{205F}' || c == '\U{3000}'
  }

  /** string.IsNullOrEmpty; None stands for null. */
  predicate IsNullOrEmpty(s: Option<string>) {
    s.None? || s.value == ""
  }

  /** string.IsNullOrWhiteSpace; None stands for null. */
  predicate IsNullOrWhiteSpace(s: Option<string>) {
    s.None? || forall i :: 0 <= i < |s.value| ==> IsWhiteSpace(s.value[i])
  }

  function UpperChar(c: char): char {
    if 'a' <= c <= 'z' then (c as int - 32) as char else c
  }

  function LowerChar(c: char): char {
    if 'A' <= c <= 'Z' then (c as int + 32) as char else c
  }

  /** ToUpperInvariant on ASCII letters; every other character is kept. */
  function ToUpperInvariant(s: string): (r: string)
    ensures |r| == |s| && forall i :: 0 <= i < |s| ==> r[i] == UpperChar(s[i])
  {
    if s == [] then [] else [UpperChar(s[0])] + ToUpperInvariant(s[1..])
  }

  /** ToLowerInvariant on ASCII letters; every other character is kept. */
  function ToLowerInvariant(s: string): (r: string)
    ensures |r| == |s| && forall i :: 0 <= i < |s| ==> r[i] == LowerChar(s[i])
  {
    if s == [] then [] else [LowerChar(s[0])] + ToLowerInvariant(s[1..])
  }

  predicate IsDigit(c: char) {
    '0' <= c <= '9'
  }

  predicate AllDigits(s: string) {
    forall i :: 0 <= i < |s| ==> IsDigit(s[i])
  }

  function DigitChar(d: int): (c: char)
    requires 0 <= d < 10
    ensures IsDigit(c)
  {
    ('0' as int + d) as char
  }

  /** The value of a string of decimal digits, most significant digit first. */
  function DigitsValue(s: string): nat
    requires AllDigits(s)
  {
    if s == [] then 0 else DigitsValue(s[..|s| - 1]) * 10 + (s[|s| - 1] as int - '0' as int)
  }

  /** The decimal digits of n, most significant first, without leading zeros. */
  function Digits(n: nat): (s: string)
    ensures |s| > 0 && AllDigits(s)
    ensures s[0] != '0' || n == 0
    decreases n
  {
    if n < 10 then [DigitChar(n)] else Digits(n / 10) + [DigitChar(n % 10)]
  }

  /** long.ToString() with the invariant culture. */
  function DecimalString(n: int): string {
    if n < 0 then "-" + Digits(-n) else Digits(n)
  }

  /** The white space NumberStyles.Integer lets long.TryParse skip at either end. */
  predicate IsNumberWhite(c: char) {
    c == ' ' || ('\t' <= c <= '\r')
  }

  function TrimStartNumberWhite(s: string): (r: string)
    ensures |r| <= |s|
  {
    if s != [] && IsNumberWhite(s[0]) then TrimStartNumberWhite(s[1..]) else s
  }

  function TrimEndNumberWhite(s: string): (r: string)
    ensures |r| <= |s|
  {
    if s != [] && IsNumberWhite(s[|s| - 1]) then TrimEndNumberWhite(s[..|s| - 1]) else s
  }

  /** An optional sign followed by one or more decimal digits whose value fits in a long. */
  function ParseSignedDigits(t: string): (r: Option<int>)
    ensures r.Some? ==> LongMin <= r.value <= LongMax
  {
    var signed := t != [] && (t[0] == '-' || t[0] == '+');
    var digits := if signed then t[1..] else t;
    if digits == [] || !AllDigits(digits) then None
    else
      var magnitude: int := DigitsValue(digits);
      var v := if signed && t[0] == '-' then -magnitude else magnitude;
      if LongMin <= v <= LongMax then Some(v) else None
  }

  /**
    long.TryParse(s, out v) with NumberStyles.Integer: optional white space at either end, an
    optional sign, one or more decimal digits, and a value in the range of a 64-bit long.
   */
  function TryParseLong(s: string): (r: Option<int>)
    ensures r.Some? ==> LongMin <= r.value <= LongMax
  {
    ParseSignedDigits(TrimEndNumberWhite(TrimStartNumberWhite(s)))
  }

  /** Reading the digits of n back gives n. */
  lemma {:induction false} DigitsRoundTrip(n: nat)
    ensures DigitsValue(Digits(n)) == n
    decreases n
  {
    if n >= 10 {
      DigitsRoundTrip(n / 10);
      var s := Digits(n);
      assert s[..|s| - 1] == Digits(n / 10);
    }
  }

  /** long.TryParse reads back every value long.ToString() writes. */
  lemma ParseDecimalString(n: int)
    requires LongMin <= n <= LongMax
    ensures TryParseLong(DecimalString(n)) == Some(n)
  {
    var m := if n < 0 then -n else n;
    DigitsRoundTrip(m);
    var d := Digits(m);
    var s := DecimalString(n);
    assert s[0] == '-' || IsDigit(s[0]);
    assert IsDigit(s[|s| - 1]);
    assert TrimStartNumberWhite(s) == s;
    assert TrimEndNumberWhite(s) == s;
    if n < 0 {
      assert s[1..] == d;
      ParseSigned(d);
    } else {
      ParseUnsigned(d);
    }
  }

  lemma ParseSigned(d: string)
    requires |d| > 0 && AllDigits(d) && DigitsValue(d) <= -LongMin
    ensures TryParseLong("-" + d) == Some(-(DigitsValue(d) as int))
  {
    var s := "-" + d;
    assert s[0] == '-' && s[1..] == d;
    assert s[|s| - 1] == d[|d| - 1];
    TrimStartStops(s);
    TrimEndStops(s);
    NegativeDigits(s);
  }

  lemma NegativeDigits(s: string)
    requires |s| > 1 && s[0] == '-' && AllDigits(s[1..]) && DigitsValue(s[1..]) <= -LongMin
    ensures ParseSignedDigits(s) == Some(-(DigitsValue(s[1..]) as int))
  {
  }

  lemma TrimStartStops(s: string)
    requires s != [] && !IsNumberWhite(s[0])
    ensures TrimStartNumberWhite(s) == s
  {
  }

  lemma TrimEndStops(s: string)
    requires s != [] && !IsNumberWhite(s[|s| - 1])
    ensures TrimEndNumberWhite(s) == s
  {
  }

  lemma ParseUnsigned(d: string)
    requires |d| > 0 && AllDigits(d) && DigitsValue(d) <= LongMax
    ensures TryParseLong(d) == Some(DigitsValue(d) as int)
  {
    assert IsDigit(d[0]) && IsDigit(d[|d| - 1]);
    TrimStartStops(d);
    TrimEndStops(d);
  }

  /** The "none" default used when a claim is missing is never a number. */
  lemma NoneIsNotALong()
    ensures TryParseLong("none") == None
  {
    var t := TrimEndNumberWhite(TrimStartNumberWhite("none"));
    assert t == "none";
    assert !IsDigit(t[0]);
  }
}

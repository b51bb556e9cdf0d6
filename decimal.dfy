/**
 * The text operations the program applies to preset temperatures:
 * Python's `str(n)` and `int(s)` on integers, `str.strip()`, and
 * `s.replace('°C', '')`, together with the `"N°C"` format of legacy presets.
 */
module Decimal {
  import opened Results

  /** The degree sign, U+00B0. */
  const DegreeSign: char := '\U{00B0}'

  /** The suffix of a legacy preset value, `"°C"`. */
  const Celsius: string := [DegreeSign, 'C']

  predicate IsDigit(c: char) {
    '0' <= c <= '9'
  }

  predicate AllDigits(s: string) {
    forall i :: 0 <= i < |s| ==> IsDigit(s[i])
  }

  /**
   * The characters Python's `str.strip()` and `int()` treat as whitespace
   * (`str.isspace()`).
   */
  predicate IsSpace(c: char) {
    || c == ' ' || c == '\t' || c == '\n' || c == '\r'
    || c == '\U{000B}' || c == '\U{000C}'
    || c == '\U{001C}' || c == '\U{001D}' || c == '\U{001E}' || c == '\U{001F}'
    || c == '\U{0085}' || c == '\U{00A0}' || c == '\U{1680}'
    || ('\U{2000}' <= c <= '\U{200A}')
    || c == '\U{2028}' || c == '\U{2029}' || c == '\U{202F}' || c == '\U{205F}' || c == '\U{3000}'
  }

  function DigitValue(c: char): (d: nat)
    requires IsDigit(c)
    ensures d < 10
  {
    (c as int) - ('0' as int)
  }

  function DigitChar(d: nat): (c: char)
    requires d < 10
    ensures IsDigit(c) && DigitValue(c) == d
  {
    (('0' as int) + d) as char
  }

  /** Python's `str.lstrip()`. */
  function TrimStart(s: string): (r: string)
    ensures |r| <= |s| && r == s[|s| - |r|..]
    ensures |r| > 0 ==> !IsSpace(r[0])
    ensures forall i :: 0 <= i < |s| - |r| ==> IsSpace(s[i])
  {
    if |s| > 0 && IsSpace(s[0]) then
      var rest := s[1..];
      var r := TrimStart(rest);
      assert r == s[|s| - |r|..] by {
        assert rest[|rest| - |r|..] == s[|s| - |r|..];
      }
      assert forall i :: 1 <= i < |s| - |r| ==> s[i] == rest[i - 1];
      r
    else
      s
  }

  /** Python's `str.rstrip()`. */
  function TrimEnd(s: string): (r: string)
    ensures |r| <= |s| && r == s[..|r|]
    ensures |r| > 0 ==> !IsSpace(r[|r| - 1])
    ensures forall i :: |r| <= i < |s| ==> IsSpace(s[i])
  {
    if |s| > 0 && IsSpace(s[|s| - 1]) then
      var rest := s[..|s| - 1];
      var r := TrimEnd(rest);
      assert r == s[..|r|] by {
        assert rest[..|r|] == s[..|r|];
      }
      assert forall i :: |r| <= i < |s| - 1 ==> s[i] == rest[i];
      r
    else
      s
  }

  /** Python's `str.strip()`: leading and trailing whitespace removed. */
  function Trim(s: string): (r: string)
    ensures |r| > 0 ==> !IsSpace(r[0]) && !IsSpace(r[|r| - 1])
  {
    TrimEnd(TrimStart(s))
  }

  /** `str(n)` for a natural number: its decimal digits, most significant first. */
  function NatToString(n: nat): (s: string)
    ensures |s| > 0 && AllDigits(s)
  {
    if n < 10 then [DigitChar(n)] else NatToString(n / 10) + [DigitChar(n % 10)]
  }

  /** `str(v)` for an integer: a minus sign before the digits of a negative value. */
  function IntToString(v: int): (s: string)
    ensures |s| > 0 && (AllDigits(s) || (s[0] == '-' && |s| > 1 && AllDigits(s[1..])))
  {
    if v < 0 then "-" + NatToString(-v) else NatToString(v)
  }

  /** The value of a string of decimal digits, most significant first. */
  function DigitsValue(s: string): nat
    requires AllDigits(s)
  {
    if s == [] then 0 else DigitsValue(s[..|s| - 1]) * 10 + DigitValue(s[|s| - 1])
  }

  /**
   * Python's `int(s)` on a string: surrounding whitespace is ignored, then an
   * optional sign and at least one decimal digit must make up the rest.
   * `None` stands for the `ValueError` it raises otherwise.
   */
  function ParseInt(s: string): (r: Option<int>)
    ensures r.Some? ==> |Trim(s)| > 0
  {
    var t := Trim(s);
    if |t| > 1 && (t[0] == '-' || t[0] == '+') && AllDigits(t[1..]) then
      var magnitude: int := DigitsValue(t[1..]);
      Some(if t[0] == '-' then -magnitude else magnitude)
    else if |t| > 0 && AllDigits(t) then
      Some(DigitsValue(t))
    else
      None
  }

  /** Python's `s.replace('°C', '')`: every occurrence, scanned left to right. */
  function RemoveCelsius(s: string): (r: string)
    ensures |r| <= |s|
  {
    if |s| >= 2 && s[0] == DegreeSign && s[1] == 'C' then RemoveCelsius(s[2..])
    else if |s| > 0 then [s[0]] + RemoveCelsius(s[1..])
    else s
  }

  /** A legacy preset value: `f'{v}°C'`. */
  function FormatCelsius(v: int): (s: string)
    ensures |s| > |Celsius| && s[|s| - |Celsius|..] == Celsius
  {
    IntToString(v) + Celsius
  }

  /** Reading a legacy value back: `int(value.replace('°C', ''))`. */
  function ParseCelsius(s: string): Option<int> {
    ParseInt(RemoveCelsius(s))
  }

  /** Reading the digits of `str(n)` gives back `n`. */
  lemma {:induction false} DigitsRoundTrip(n: nat)
    ensures DigitsValue(NatToString(n)) == n
  {
    if n >= 10 {
      var s := NatToString(n);
      var prefix := NatToString(n / 10);
      assert s[..|s| - 1] == prefix;
      DigitsRoundTrip(n / 10);
    }
  }

  /** Text that starts and ends with a non-space character is left alone by `strip()`. */
  lemma TrimKeeps(s: string)
    requires |s| > 0 && !IsSpace(s[0]) && !IsSpace(s[|s| - 1])
    ensures Trim(s) == s
  {
  }

  /** `int(str(n)) == n` for a natural number. */
  lemma NatRoundTrip(n: nat)
    ensures ParseInt(NatToString(n)) == Some(n)
  {
    var s := NatToString(n);
    assert IsDigit(s[0]) && IsDigit(s[|s| - 1]);
    TrimKeeps(s);
    DigitsRoundTrip(n);
  }

  /** `int(str(v)) == v` for every integer. */
  lemma IntRoundTrip(v: int)
    ensures ParseInt(IntToString(v)) == Some(v)
  {
    if v >= 0 {
      NatRoundTrip(v);
    } else {
      var digits := NatToString(-v);
      var s := IntToString(v);
      assert s == "-" + digits && s[1..] == digits;
      assert IsDigit(s[|s| - 1]);
      TrimKeeps(s);
      DigitsRoundTrip(-v);
    }
  }

  /** `str(v)` holds no degree sign. */
  lemma NoDegreeSign(v: int)
    ensures forall i :: 0 <= i < |IntToString(v)| ==> IntToString(v)[i] != DegreeSign
  {
    var s := IntToString(v);
    if !AllDigits(s) {
      assert forall i :: 1 <= i < |s| ==> s[1..][i - 1] == s[i];
    }
  }

  /** Text without a degree sign has no `°C` to remove. */
  lemma {:induction false} RemoveCelsiusNone(d: string)
    requires forall i :: 0 <= i < |d| ==> d[i] != DegreeSign
    ensures RemoveCelsius(d) == d
  {
    if |d| > 0 {
      RemoveCelsiusNone(d[1..]);
    }
  }

  /** Removing `°C` from text that has no other degree sign leaves the text before the suffix. */
  lemma {:induction false} RemoveCelsiusSuffix(d: string)
    requires forall i :: 0 <= i < |d| ==> d[i] != DegreeSign
    ensures RemoveCelsius(d + Celsius) == d
  {
    if |d| > 0 {
      assert (d + Celsius)[1..] == d[1..] + Celsius;
      RemoveCelsiusSuffix(d[1..]);
    }
  }

  /** Reading `str(v)` as a legacy value, as the migration of a bare JSON integer does, gives `v`. */
  lemma PlainIntegerAsCelsius(v: int)
    ensures ParseCelsius(IntToString(v)) == Some(v)
  {
    NoDegreeSign(v);
    RemoveCelsiusNone(IntToString(v));
    IntRoundTrip(v);
  }

  /** A legacy value formatted as `f'{v}°C'` parses back to `v`. */
  lemma CelsiusRoundTrip(v: int)
    ensures ParseCelsius(FormatCelsius(v)) == Some(v)
  {
    NoDegreeSign(v);
    RemoveCelsiusSuffix(IntToString(v));
    IntRoundTrip(v);
  }
}

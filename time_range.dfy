/**
 * `KeplerClient._parse_time_range`: a duration token such as "30m", "2h" or "3d"
 * becomes a `timedelta`.  The model gives the duration in minutes, or `Fail` where
 * Python raises (`int()` rejects the prefix, or `timedelta` overflows).
 */
module TimeRange {
  import opened Wrappers

  datatype Duration = Ok(minutes: int) | Fail

  // ---------------------------------------------------------------------------
  // Python's int(str) in base 10, for ASCII text
  // ---------------------------------------------------------------------------

  /** The characters CPython skips around an integer literal (space, \t, \n, \v, \f, \r). */
  predicate IsSpace(c: char) {
    c == ' ' || ('\t' <= c <= '\r')
  }

  predicate IsDigit(c: char) {
    '0' <= c <= '9'
  }

  function StripLeft(s: string): (r: string)
    ensures |r| <= |s| && r == s[|s| - |r|..]
    ensures |r| > 0 ==> !IsSpace(r[0])
  {
    if |s| > 0 && IsSpace(s[0]) then StripLeft(s[1..]) else s
  }

  function StripRight(s: string): (r: string)
    ensures |r| <= |s| && r == s[..|r|]
    ensures |r| > 0 ==> !IsSpace(r[|r| - 1])
  {
    if |s| > 0 && IsSpace(s[|s| - 1]) then StripRight(s[..|s| - 1]) else s
  }

  /** StripLeft removes whitespace only. */
  lemma {:induction false} StripLeftSpaces(s: string)
    ensures forall i :: 0 <= i < |s| - |StripLeft(s)| ==> IsSpace(s[i])
  {
    if |s| > 0 && IsSpace(s[0]) {
      StripLeftSpaces(s[1..]);
      forall i | 1 <= i < |s| - |StripLeft(s)|
        ensures IsSpace(s[i])
      {
        assert s[i] == s[1..][i - 1];
      }
    }
  }

  /** StripRight removes whitespace only. */
  lemma {:induction false} StripRightSpaces(s: string)
    ensures forall i :: |StripRight(s)| <= i < |s| ==> IsSpace(s[i])
  {
    if |s| > 0 && IsSpace(s[|s| - 1]) {
      StripRightSpaces(s[..|s| - 1]);
      forall i | |StripRight(s)| <= i < |s| - 1
        ensures IsSpace(s[i])
      {
        assert s[i] == s[..|s| - 1][i];
      }
    }
  }

  /** Digits with single underscores between them: `digit ('_'? digit)*`. */
  predicate WellFormedDigits(s: string) {
    && |s| > 0
    && IsDigit(s[0])
    && IsDigit(s[|s| - 1])
    && (forall i :: 0 <= i < |s| ==> IsDigit(s[i]) || s[i] == '_')
    && (forall i :: 0 < i < |s| && s[i] == '_' ==> s[i - 1] != '_')
  }

  /** The decimal value of the digits of `s`, underscores ignored. */
  function DigitsValue(s: string): nat {
    if s == [] then 0
    else if IsDigit(s[|s| - 1]) then DigitsValue(s[..|s| - 1]) * 10 + (s[|s| - 1] as int - '0' as int)
    else DigitsValue(s[..|s| - 1])
  }

  /** An optionally signed digit string, already stripped of surrounding whitespace. */
  function SignedValue(t: string): Option<int> {
    if |t| > 0 && (t[0] == '+' || t[0] == '-') then
      if WellFormedDigits(t[1..]) then
        var v: int := DigitsValue(t[1..]);
        Some(if t[0] == '-' then -v else v)
      else None
    else if WellFormedDigits(t) then Some(DigitsValue(t))
    else None
  }

  /** `int(s)`: None where Python raises ValueError. */
  function PyInt(s: string): Option<int> {
    SignedValue(StripRight(StripLeft(s)))
  }

  /** A character `int()` can accept somewhere in its argument. */
  predicate IsIntChar(c: char) {
    IsSpace(c) || IsDigit(c) || c == '_' || c == '+' || c == '-'
  }

  // ---------------------------------------------------------------------------
  // Decimal rendering, the partner of PyInt
  // ---------------------------------------------------------------------------

  function DigitChar(d: nat): char
    requires d < 10
  {
    ('0' as int + d) as char
  }

  function NatDigits(n: nat): (s: string)
    ensures |s| > 0
    decreases n
  {
    if n < 10 then [DigitChar(n)] else NatDigits(n / 10) + [DigitChar(n % 10)]
  }

  /** How Python's `str(n)` writes an integer. */
  function Decimal(n: int): string {
    if n < 0 then "-" + NatDigits(-n) else NatDigits(n)
  }

  lemma {:induction false} NatDigitsWellFormed(n: nat)
    ensures WellFormedDigits(NatDigits(n))
    ensures DigitsValue(NatDigits(n)) == n
    decreases n
  {
    var s := NatDigits(n);
    if n >= 10 {
      NatDigitsWellFormed(n / 10);
      var p := NatDigits(n / 10);
      assert s == p + [DigitChar(n % 10)];
      assert s[..|s| - 1] == p;
      forall i | 0 <= i < |s|
        ensures IsDigit(s[i]) || s[i] == '_'
      {
        if i < |p| { assert s[i] == p[i]; }
      }
      forall i | 0 < i < |s| && s[i] == '_'
        ensures s[i - 1] != '_'
      {
        assert i < |p|;
        assert s[i] == p[i] && s[i - 1] == p[i - 1];
      }
    }
  }

  /** Text that neither starts nor ends with whitespace survives stripping unchanged. */
  lemma StripUnpadded(d: string)
    requires |d| > 0 && !IsSpace(d[0]) && !IsSpace(d[|d| - 1])
    ensures StripRight(StripLeft(d)) == d
  {
    assert StripLeft(d) == d;
  }

  lemma SignedValueOfDecimal(n: int)
    ensures SignedValue(Decimal(n)) == Some(n)
  {
    var m := if n < 0 then -n else n;
    NatDigitsWellFormed(m);
    var p := NatDigits(m);
    if n < 0 {
      var d := "-" + p;
      assert d[1..] == p;
    } else {
      assert IsDigit(p[0]);
    }
  }

  /** `int(str(n)) == n`. */
  lemma PyIntOfDecimal(n: int)
    ensures PyInt(Decimal(n)) == Some(n)
  {
    var m := if n < 0 then -n else n;
    NatDigitsWellFormed(m);
    var p := NatDigits(m);
    var d := Decimal(n);
    assert IsDigit(p[0]) && IsDigit(p[|p| - 1]);
    if n < 0 {
      assert d[|d| - 1] == p[|p| - 1];
    }
    StripUnpadded(d);
    SignedValueOfDecimal(n);
  }

  lemma SignedValueAccepts(t: string)
    requires SignedValue(t).Some?
    ensures forall i :: 0 <= i < |t| ==> IsIntChar(t[i])
    ensures |t| > 0 && (IsDigit(t[0]) || IsDigit(t[|t| - 1]))
  {
    if |t| > 0 && (t[0] == '+' || t[0] == '-') {
      var body := t[1..];
      assert WellFormedDigits(body);
      forall i | 0 <= i < |t|
        ensures IsIntChar(t[i])
      {
        if i > 0 { assert t[i] == body[i - 1]; }
      }
      assert t[|t| - 1] == body[|body| - 1];
    }
  }

  /** Whitespace stripped from the left leaves every other character as it was. */
  lemma LeftPadded(s: string)
    requires forall i :: 0 <= i < |StripLeft(s)| ==> IsIntChar(StripLeft(s)[i])
    ensures forall i :: 0 <= i < |s| ==> IsIntChar(s[i])
  {
    StripLeftSpaces(s);
    var l := StripLeft(s);
    forall i | |s| - |l| <= i < |s|
      ensures IsIntChar(s[i])
    {
      assert s[i] == l[i - (|s| - |l|)];
    }
  }

  /** Whitespace stripped from the right leaves every other character as it was. */
  lemma RightPadded(s: string)
    requires forall i :: 0 <= i < |StripRight(s)| ==> IsIntChar(StripRight(s)[i])
    ensures forall i :: 0 <= i < |s| ==> IsIntChar(s[i])
  {
    StripRightSpaces(s);
    var r := StripRight(s);
    forall i | 0 <= i < |r|
      ensures IsIntChar(s[i])
    {
      assert s[i] == r[i];
    }
  }

  /**
   * What `int()` accepts is made of whitespace, signs, digits and underscores only,
   * and holds at least one digit.
   */
  lemma PyIntAccepts(s: string)
    requires PyInt(s).Some?
    ensures forall i :: 0 <= i < |s| ==> IsIntChar(s[i])
    ensures exists i :: 0 <= i < |s| && IsDigit(s[i])
  {
    var l := StripLeft(s);
    var t := StripRight(l);
    SignedValueAccepts(t);
    RightPadded(l);
    LeftPadded(s);
    var lo := |s| - |l|;
    if IsDigit(t[0]) {
      assert s[lo] == l[0] == t[0];
    } else {
      assert s[lo + |t| - 1] == l[|t| - 1] == t[|t| - 1];
    }
  }

  // ---------------------------------------------------------------------------
  // The parser
  // ---------------------------------------------------------------------------

  /** The largest day count a `timedelta` holds, either way (`timedelta.max.days`). */
  const MaxDays: int := 999999999

  /** The minute range of `MaxDays` whole days either side of zero, as floor division sees it. */
  const MinMinutes: int := -MaxDays * 1440
  const MaxMinutes: int := (MaxDays + 1) * 1440 - 1

  /**
   * `timedelta(minutes=m)`: Fail where it raises OverflowError, which is where the
   * normalised day count `m // 1440` leaves the range of `MaxDays`.
   */
  function Timedelta(minutes: int): (d: Duration)
    ensures d.Ok? <==> -MaxDays <= minutes / 1440 <= MaxDays
    ensures d.Ok? ==> d.minutes == minutes
  {
    if MinMinutes <= minutes <= MaxMinutes then Ok(minutes) else Fail
  }

  /** Minutes per unit of a recognised suffix. */
  function UnitMinutes(c: char): nat {
    if c == 'm' then 1 else if c == 'h' then 60 else if c == 'd' then 1440 else 0
  }

  predicate HasUnit(token: string) {
    |token| > 0 && token[|token| - 1] in {'m', 'h', 'd'}
  }

  /** The five-minute fallback for a token without a recognised suffix. */
  const DefaultMinutes: int := 5

  function ParseTimeRange(token: string): Duration {
    if HasUnit(token) then
      match PyInt(token[..|token| - 1])
      case None => Fail
      case Some(n) => Timedelta(n * UnitMinutes(token[|token| - 1]))
    else Ok(DefaultMinutes)
  }

  lemma PrefixOfSuffixed(text: string, c: char)
    ensures (text + [c])[..|text + [c]| - 1] == text
    ensures (text + [c])[|text + [c]| - 1] == c
  {
  }

  /** "Nm" is N minutes (when timedelta can hold it). */
  lemma ParseMinutes(n: int)
    ensures ParseTimeRange(Decimal(n) + "m") == Timedelta(n)
    ensures MinMinutes <= n <= MaxMinutes ==> ParseTimeRange(Decimal(n) + "m") == Ok(n)
  {
    PrefixOfSuffixed(Decimal(n), 'm');
    PyIntOfDecimal(n);
  }

  /** "Nh" is N·60 minutes. */
  lemma ParseHours(n: int)
    ensures ParseTimeRange(Decimal(n) + "h") == Timedelta(n * 60)
  {
    PrefixOfSuffixed(Decimal(n), 'h');
    PyIntOfDecimal(n);
  }

  /** "Nd" is N·1440 minutes. */
  lemma ParseDays(n: int)
    ensures ParseTimeRange(Decimal(n) + "d") == Timedelta(n * 1440)
  {
    PrefixOfSuffixed(Decimal(n), 'd');
    PyIntOfDecimal(n);
  }

  /** A token whose last character is not m, h or d is five minutes, whatever precedes it. */
  lemma ParseDefault(token: string)
    requires |token| == 0 || token[|token| - 1] !in {'m', 'h', 'd'}
    ensures ParseTimeRange(token) == Ok(5)
  {
  }

  /** The client's default collection interval "30s" falls back to five minutes. */
  lemma ParseSeconds()
    ensures ParseTimeRange("30s") == Ok(5)
  {
  }

  /**
   * A recognised suffix after a prefix `int()` cannot read fails rather than
   * defaulting: a prefix with no digit, or with any character other than
   * whitespace, a sign, a digit or an underscore.
   */
  lemma ParseMalformedFails(prefix: string, c: char)
    requires c in {'m', 'h', 'd'}
    requires (forall i :: 0 <= i < |prefix| ==> !IsDigit(prefix[i]))
          || (exists i :: 0 <= i < |prefix| && !IsIntChar(prefix[i]))
    ensures ParseTimeRange(prefix + [c]) == Fail
  {
    PrefixOfSuffixed(prefix, c);
    if PyInt(prefix).Some? {
      PyIntAccepts(prefix);
    }
  }

  /** Only a token with a recognised suffix can fail. */
  lemma ParseFailsOnlyWithUnit(token: string)
    requires ParseTimeRange(token) == Fail
    ensures HasUnit(token)
    ensures PyInt(token[..|token| - 1]).None?
         || !(MinMinutes <= PyInt(token[..|token| - 1]).value * UnitMinutes(token[|token| - 1]) <= MaxMinutes)
  {
  }
}

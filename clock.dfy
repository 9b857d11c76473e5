/** The `MM:SS` rendering of a countdown (`formatTime`, script.js:50-54). */
module Clock {
  import opened JsNumber

  /** The character for a decimal digit. */
  function DigitChar(d: int): char
    requires 0 <= d < 10
  {
    ('0' as int + d) as char
  }

  predicate IsDigit(c: char) {
    '0' <= c <= '9'
  }

  predicate AllDigits(s: string) {
    forall i :: 0 <= i < |s| ==> IsDigit(s[i])
  }

  /** `n.toString()` for a non-negative integer: its decimal digits, no leading zero. */
  function NatToString(n: nat): (s: string)
    ensures 1 <= |s| && AllDigits(s)
    ensures |s| == 1 <==> n < 10
    ensures n < 100 ==> |s| <= 2
    ensures n > 0 ==> s[0] != '0'
  {
    if n < 10 then [DigitChar(n)] else NatToString(n / 10) + [DigitChar(n % 10)]
  }

  /** `n.toString()` for any integer: a minus sign in front of a negative one. */
  function IntToString(n: int): (s: string)
    ensures |s| >= 1
    ensures s[0] == '-' <==> n < 0
    ensures n < 0 ==> |s| >= 2 && AllDigits(s[1..])
    ensures n >= 0 ==> AllDigits(s)
  {
    if n < 0 then "-" + NatToString(-n) else NatToString(n)
  }

  /** `s.padStart(width, c)`: `c` repeated in front of `s` up to `width` characters. */
  function PadStart(s: string, width: nat, c: char): (r: string)
    ensures |r| == if |s| < width then width else |s|
    ensures r[|r| - |s|..] == s
    ensures forall i :: 0 <= i < |r| - |s| ==> r[i] == c
  {
    if |s| < width then seq(width - |s|, _ => c) + s else s
  }

  /** `n.toString().padStart(2, '0')`: at least two characters, exactly two for
      0..99, and a leading '-' exactly for a negative number. */
  function Padded(n: int): (r: string)
    ensures |r| >= 2
    ensures 0 <= n < 100 ==> |r| == 2
    ensures r[0] == '-' <==> n < 0
  {
    PadStart(IntToString(n), 2, '0')
  }

  /** `formatTime(seconds)`: whole minutes (`Math.floor(seconds / 60)`, which is
      Dafny's `/` for a positive divisor) and remaining seconds, each padded to two
      characters with '0' and joined by ':'. The text has at least five characters,
      a ':' three from the end for a non-negative count, and starts with '-'
      exactly when the count is negative. */
  function FormatTime(seconds: int): (r: string)
    ensures |r| >= 5
    ensures seconds >= 0 ==> r[|r| - 3] == ':'
    ensures r[0] == '-' <==> seconds < 0
  {
    Padded(seconds / 60) + ":" + Padded(JsRem(seconds, 60))
  }

  /** The number a string of decimal digits denotes. */
  function DigitsValue(s: string): (v: int)
    requires AllDigits(s)
    ensures v >= 0
  {
    if s == [] then 0 else DigitsValue(s[..|s| - 1]) * 10 + (s[|s| - 1] as int - '0' as int)
  }

  /** Reading back the digits of `n` gives `n`. */
  lemma {:induction false} NatToStringValue(n: nat)
    ensures DigitsValue(NatToString(n)) == n
  {
    if n >= 10 {
      var s := NatToString(n);
      assert s[..|s| - 1] == NatToString(n / 10);
      NatToStringValue(n / 10);
    }
  }

  /** Leading zeros do not change the value of a digit string. */
  lemma {:induction false} LeadingZerosValue(z: string, s: string)
    requires AllDigits(s)
    requires forall i :: 0 <= i < |z| ==> z[i] == '0'
    ensures AllDigits(z + s) && DigitsValue(z + s) == DigitsValue(s)
  {
    if s == [] {
      assert z + s == z;
      AllZerosValue(z);
    } else {
      var t := s[..|s| - 1];
      assert (z + s)[..|z + s| - 1] == z + t;
      LeadingZerosValue(z, t);
    }
  }

  lemma {:induction false} AllZerosValue(z: string)
    requires forall i :: 0 <= i < |z| ==> z[i] == '0'
    ensures AllDigits(z) && DigitsValue(z) == 0
  {
    if z != [] {
      AllZerosValue(z[..|z| - 1]);
    }
  }

  /** A two-character padding of the digits of `n`: still digits, still `n`. */
  lemma PaddedValue(n: nat)
    ensures AllDigits(Padded(n)) && |Padded(n)| >= 2 && DigitsValue(Padded(n)) == n
    ensures n < 100 ==> |Padded(n)| == 2
  {
    var s := NatToString(n);
    var p := PadStart(s, 2, '0');
    assert p == p[..|p| - |s|] + s;
    LeadingZerosValue(p[..|p| - |s|], s);
    NatToStringValue(n);
  }

  /** `r` reads as `mm:ss` with at least two minute digits and exactly two
      second digits below 60, and denotes `mm * 60 + ss` seconds. */
  predicate ReadsAsClock(r: string, seconds: int) {
    && |r| >= 5 && r[|r| - 3] == ':'
    && AllDigits(r[..|r| - 3]) && AllDigits(r[|r| - 2..])
    && DigitsValue(r[|r| - 2..]) < 60
    && DigitsValue(r[..|r| - 3]) * 60 + DigitsValue(r[|r| - 2..]) == seconds
  }

  /** For a non-negative count `formatTime` yields `mm:ss` denoting that count. */
  lemma FormatTimeDenotes(seconds: nat)
    ensures ReadsAsClock(FormatTime(seconds), seconds)
  {
    var m, s := seconds / 60, seconds % 60;
    assert FormatTime(seconds) == Padded(m) + ":" + Padded(s) by {
      assert JsRem(seconds, 60) == s;
    }
    assert m * 60 + s == seconds;
    ClockOfParts(m, s);
  }

  /** Minutes and seconds below 60, padded and joined, read back as themselves. */
  lemma ClockOfParts(m: nat, s: nat)
    requires s < 60
    ensures ReadsAsClock(Padded(m) + ":" + Padded(s), m * 60 + s)
  {
    PaddedValue(m);
    PaddedValue(s);
    JoinedReads(Padded(m), Padded(s));
  }

  /** Two digit strings joined by ':' read as the clock they spell, when the
      second has two digits below 60. */
  lemma JoinedReads(a: string, b: string)
    requires |a| >= 2 && |b| == 2 && AllDigits(a) && AllDigits(b) && DigitsValue(b) < 60
    ensures ReadsAsClock(a + ":" + b, DigitsValue(a) * 60 + DigitsValue(b))
  {
    JoinedParts(a, b);
  }

  /** The parts of `a:b` when `b` has two characters. */
  lemma JoinedParts(a: string, b: string)
    requires |b| == 2
    ensures var r := a + ":" + b;
      |r| - 3 == |a| && r[|a|] == ':' && r[..|a|] == a && r[|r| - 2..] == b
  {
  }

  /** Below 100 minutes the text is exactly five characters with ':' in the middle. */
  lemma FormatTimeFiveChars(seconds: nat)
    requires seconds < 6000
    ensures |FormatTime(seconds)| == 5 && FormatTime(seconds)[2] == ':'
  {
    var m, s := seconds / 60, seconds % 60;
    assert JsRem(seconds, 60) == s;
    assert m < 100;
    PaddedValue(m);
    PaddedValue(s);
  }
}

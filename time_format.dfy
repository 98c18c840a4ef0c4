/**
 * The `MM:SS` clock text of the timer display: minutes and seconds each
 * rendered as JavaScript renders a number and left-padded with '0' to at
 * least two characters.
 */
module TimeFormat {
  import opened Wrappers

  predicate IsDigit(c: char) {
    '0' <= c <= '9'
  }

  predicate AllDigits(s: string) {
    forall i :: 0 <= i < |s| ==> IsDigit(s[i])
  }

  function DigitChar(d: int): (c: char)
    requires 0 <= d < 10
    ensures IsDigit(c)
  {
    "0123456789"[d]
  }

  function DigitValue(c: char): int
    requires IsDigit(c)
  {
    c as int - '0' as int
  }

  /** The decimal digits of `n`, most significant first, without leading zeros. */
  function Decimal(n: nat): (s: string)
    ensures 1 <= |s| && AllDigits(s)
    ensures n < 10 <==> |s| == 1
    ensures 10 <= n < 100 ==> |s| == 2
  {
    if n < 10 then [DigitChar(n)] else Decimal(n / 10) + [DigitChar(n % 10)]
  }

  /** `Number.prototype.toString()` on an integer: a '-' sign then the digits. */
  function NumberToString(n: int): string {
    if n < 0 then "-" + Decimal(-n) else Decimal(n)
  }

  /** `String.prototype.padStart(width, fill)` with a one-character fill. */
  function PadStart(s: string, width: nat, fill: char): (r: string)
    ensures |r| == if |s| < width then width else |s|
    ensures r[|r| - |s|..] == s
    ensures forall i :: 0 <= i < |r| - |s| ==> r[i] == fill
  {
    if |s| >= width then s else seq(width - |s|, _ => fill) + s
  }

  /** A non-zero multiple of a positive `b` is at least `b` away from zero. */
  lemma {:induction false} MultipleBound(m: int, b: int)
    requires b > 0
    ensures m >= 1 ==> m * b >= b
    ensures m <= -1 ==> m * b <= -b
    decreases if m < 0 then -m else m
  {
    if m > 1 {
      MultipleBound(m - 1, b);
    } else if m < -1 {
      MultipleBound(m + 1, b);
    }
  }

  /** Euclidean `%` by a positive divisor is fixed by any quotient and remainder. */
  lemma ModUnique(x: int, b: int, k: int, t: int)
    requires b > 0 && 0 <= t < b && x == k * b + t
    ensures x % b == t
  {
    MultipleBound(k - x / b, b);
    assert (k - x / b) * b == x % b - t;
  }

  /**
   * JavaScript's `%`: the remainder takes the sign of the dividend and
   * differs from it by a multiple of the divisor.
   */
  function JsRemainder(a: int, b: int): (r: int)
    requires b > 0
    ensures a >= 0 ==> r == a % b
    ensures a < 0 ==> -b < r <= 0
    ensures (a - r) % b == 0
  {
    if a >= 0 then
      ModUnique(a - a % b, b, a / b, 0);
      a % b
    else
      ModUnique(a + (-a) % b, b, -((-a) / b), 0);
      -((-a) % b)
  }

  /**
   * `formatTime(seconds)`: `Math.floor(seconds / 60)` (Dafny's `/` by a
   * positive divisor is floor division) and `seconds % 60` with JavaScript's
   * truncating remainder, each padded to two characters.
   */
  function FormatTime(seconds: int): string {
    PadStart(NumberToString(seconds / 60), 2, '0') + ":"
      + PadStart(NumberToString(JsRemainder(seconds, 60)), 2, '0')
  }

  /** Reads a string of decimal digits (leading zeros allowed). */
  function ValueOf(s: string): (n: nat)
    requires AllDigits(s)
  {
    if s == [] then 0 else ValueOf(s[..|s| - 1]) * 10 + DigitValue(s[|s| - 1])
  }

  /**
   * Reads a clock text back: at least two minute digits, ':', exactly two
   * second digits below 60.
   */
  function ParseClock(t: string): (r: Option<nat>)
    ensures r.Some? ==> |t| >= 5 && t[|t| - 3] == ':'
  {
    if |t| >= 5 && t[|t| - 3] == ':' && AllDigits(t[..|t| - 3]) && AllDigits(t[|t| - 2..])
       && ValueOf(t[|t| - 2..]) < 60
    then Some(ValueOf(t[..|t| - 3]) * 60 + ValueOf(t[|t| - 2..]))
    else None
  }

  lemma {:induction false} ValueOfDecimal(n: nat)
    ensures ValueOf(Decimal(n)) == n
  {
    if n >= 10 {
      var s := Decimal(n);
      assert s[..|s| - 1] == Decimal(n / 10);
      ValueOfDecimal(n / 10);
    }
  }

  lemma {:induction false} ValueOfLeadingZero(s: string)
    requires AllDigits(s)
    ensures AllDigits("0" + s) && ValueOf("0" + s) == ValueOf(s)
  {
    if s != [] {
      var z := "0" + s;
      assert z[..|z| - 1] == "0" + s[..|s| - 1];
      ValueOfLeadingZero(s[..|s| - 1]);
    }
  }

  /** Zero-padding a digit string keeps it a digit string of the same value. */
  lemma {:induction false} ValueOfPadded(s: string, width: nat)
    requires AllDigits(s)
    ensures AllDigits(PadStart(s, width, '0'))
    ensures ValueOf(PadStart(s, width, '0')) == ValueOf(s)
    decreases width - |s|
  {
    if |s| < width {
      ValueOfLeadingZero(s);
      ValueOfPadded("0" + s, width);
      assert PadStart(s, width, '0') == PadStart("0" + s, width, '0');
    }
  }

  /** A minutes field, ':' and a two-digit seconds field read back as their sum. */
  lemma ParseJoined(m: string, sc: string, mins: nat, secs: nat)
    requires AllDigits(m) && |m| >= 2 && AllDigits(sc) && |sc| == 2
    requires ValueOf(m) == mins && ValueOf(sc) == secs < 60
    ensures ParseClock(m + ":" + sc) == Some(mins * 60 + secs)
  {
    var t := m + ":" + sc;
    assert t[..|t| - 3] == m;
    assert t[|t| - 2..] == sc;
  }

  /**
   * For a non-negative number of seconds the text has the `MM:SS` shape: a
   * seconds field of exactly two digits below 60 and a minutes field of at
   * least two digits, and reading it back gives the seconds we started from.
   */
  lemma FormatTimeRoundTrip(seconds: int)
    requires seconds >= 0
    ensures |FormatTime(seconds)| >= 5
    ensures ParseClock(FormatTime(seconds)) == Some(seconds)
  {
    var mins, secs := seconds / 60, seconds % 60;
    assert mins * 60 + secs == seconds;
    assert FormatTime(seconds) == Clock(mins, secs);
    ClockRoundTrip(mins, secs);
  }

  function Clock(mins: nat, secs: nat): string {
    PadStart(Decimal(mins), 2, '0') + ":" + PadStart(Decimal(secs), 2, '0')
  }

  lemma ClockRoundTrip(mins: nat, secs: nat)
    requires secs < 60
    ensures |Clock(mins, secs)| >= 5
    ensures ParseClock(Clock(mins, secs)) == Some(mins * 60 + secs)
  {
    var m := PadStart(Decimal(mins), 2, '0');
    var sc := PadStart(Decimal(secs), 2, '0');
    PaddedField(mins);
    PaddedField(secs);
    ParseJoined(m, sc, mins, secs);
    assert Clock(mins, secs) == m + ":" + sc;
  }

  /** One padded field: at least two digits (exactly two below 100) reading back as `n`. */
  lemma PaddedField(n: nat)
    ensures var f := PadStart(Decimal(n), 2, '0');
            AllDigits(f) && |f| >= 2 && (n < 100 ==> |f| == 2) && ValueOf(f) == n
  {
    ValueOfDecimal(n);
    ValueOfPadded(Decimal(n), 2);
  }

  /** The finish screen's "00:00" is the rendering of zero seconds. */
  lemma FormatZero()
    ensures FormatTime(0) == "00:00"
  {
  }
}

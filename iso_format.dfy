/**
 * Python's `date.isoformat()` and `time.isoformat()` for the naive values the
 * Date and Time columns hold: "YYYY-MM-DD" and "HH:MM:SS", with ".ffffff"
 * added only when the microsecond is non-zero.
 */
module IsoFormat {

  function Pow10(n: nat): (p: nat)
    ensures p >= 1
  {
    if n == 0 then 1 else 10 * Pow10(n - 1)
  }

  predicate IsDigit(c: char) {
    '0' <= c <= '9'
  }

  predicate AllDigits(s: string) {
    forall i | 0 <= i < |s| :: IsDigit(s[i])
  }

  function DigitChar(d: nat): (c: char)
    requires d < 10
    ensures IsDigit(c) && c as int - '0' as int == d
  {
    ('0' as int + d) as char
  }

  /** The last `width` decimal digits of `n`, zero-padded on the left (`%0<width>d`). */
  function Pad(n: nat, width: nat): (s: string)
    ensures |s| == width && AllDigits(s)
  {
    if width == 0 then "" else Pad(n / 10, width - 1) + [DigitChar(n % 10)]
  }

  /** The number a string of decimal digits denotes. */
  function DigitsValue(s: string): nat
    requires AllDigits(s)
  {
    if s == [] then 0 else 10 * DigitsValue(s[..|s| - 1]) + (s[|s| - 1] as int - '0' as int)
  }

  /** Padding loses nothing while `n` has at most `width` digits. */
  lemma {:induction false} PadRoundTrip(n: nat, width: nat)
    requires n < Pow10(width)
    ensures DigitsValue(Pad(n, width)) == n
  {
    if width > 0 {
      var s := Pad(n, width);
      assert s[..|s| - 1] == Pad(n / 10, width - 1);
      assert n / 10 < Pow10(width - 1);
      PadRoundTrip(n / 10, width - 1);
    }
  }

  lemma PadInjective(a: nat, b: nat, width: nat)
    requires a < Pow10(width) && b < Pow10(width)
    requires Pad(a, width) == Pad(b, width)
    ensures a == b
  {
    PadRoundTrip(a, width);
    PadRoundTrip(b, width);
  }

  function DaysInMonth(year: int, month: int): int {
    if month == 2 then
      (if (year % 4 == 0 && year % 100 != 0) || year % 400 == 0 then 29 else 28)
    else if month == 4 || month == 6 || month == 9 || month == 11 then 30
    else 31
  }

  datatype DateParts = DateParts(year: int, month: int, day: int) {
    /** What a Python `datetime.date` can hold. */
    predicate Valid() {
      1 <= year <= 9999 && 1 <= month <= 12 && 1 <= day <= DaysInMonth(year, month)
    }
  }

  type Date = d: DateParts | d.Valid() witness DateParts(1, 1, 1)

  datatype TimeParts = TimeParts(hour: int, minute: int, second: int, microsecond: int) {
    /** What a naive Python `datetime.time` can hold. */
    predicate Valid() {
      0 <= hour < 24 && 0 <= minute < 60 && 0 <= second < 60 && 0 <= microsecond < 1000000
    }
  }

  type Time = t: TimeParts | t.Valid() witness TimeParts(0, 0, 0, 0)

  /** A `datetime.datetime`, as stored in the date_created and date_updated columns. */
  datatype DateTime = DateTime(date: Date, time: Time)

  function DateIso(d: Date): (s: string)
    ensures |s| == 10 && s[4] == '-' && s[7] == '-'
  {
    Pad(d.year, 4) + "-" + Pad(d.month, 2) + "-" + Pad(d.day, 2)
  }

  function TimeIso(t: Time): (s: string)
    ensures |s| == (if t.microsecond == 0 then 8 else 15)
    ensures s[2] == ':' && s[5] == ':'
  {
    Pad(t.hour, 2) + ":" + Pad(t.minute, 2) + ":" + Pad(t.second, 2)
      + (if t.microsecond == 0 then "" else "." + Pad(t.microsecond, 6))
  }

  /** Distinct dates render distinctly. */
  lemma DateIsoInjective(a: Date, b: Date)
    requires DateIso(a) == DateIso(b)
    ensures a == b
  {
    var s, u := DateIso(a), DateIso(b);
    assert s[..4] == Pad(a.year, 4) && u[..4] == Pad(b.year, 4);
    assert s[5..7] == Pad(a.month, 2) && u[5..7] == Pad(b.month, 2);
    assert s[8..] == Pad(a.day, 2) && u[8..] == Pad(b.day, 2);
    PadInjective(a.year, b.year, 4);
    PadInjective(a.month, b.month, 2);
    PadInjective(a.day, b.day, 2);
  }

  /** Where each field of a time sits in its rendering. */
  lemma TimeIsoFields(t: Time)
    ensures TimeIso(t)[..2] == Pad(t.hour, 2)
    ensures TimeIso(t)[3..5] == Pad(t.minute, 2)
    ensures TimeIso(t)[6..8] == Pad(t.second, 2)
    ensures t.microsecond != 0 ==> TimeIso(t)[9..] == Pad(t.microsecond, 6)
  {
    var clock := Pad(t.hour, 2) + ":" + Pad(t.minute, 2) + ":" + Pad(t.second, 2);
    assert clock[..2] == Pad(t.hour, 2) && clock[3..5] == Pad(t.minute, 2) && clock[6..8] == Pad(t.second, 2);
  }

  /** Distinct times render distinctly; the microseconds appear exactly when non-zero. */
  lemma TimeIsoInjective(a: Time, b: Time)
    requires TimeIso(a) == TimeIso(b)
    ensures a == b
  {
    TimeIsoFields(a);
    TimeIsoFields(b);
    PadInjective(a.hour, b.hour, 2);
    PadInjective(a.minute, b.minute, 2);
    PadInjective(a.second, b.second, 2);
    if a.microsecond != 0 {
      PadInjective(a.microsecond, b.microsecond, 6);
    }
  }
}

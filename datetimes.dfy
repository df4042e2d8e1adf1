/** The UTC timestamps the article store writes into file names and metadata:
    `strftime("%Y%m%d")`, `strftime("%Y/%m")`, `isoformat()` and the
    `fromisoformat` that reads the latter back. */
module DateTimes {
  import opened Common

  /** An aware UTC `datetime`. */
  datatype DateTime = DateTime(year: nat, month: nat, day: nat,
                               hour: nat, minute: nat, second: nat, microsecond: nat)

  predicate IsLeapYear(y: nat) {
    (y % 4 == 0 && y % 100 != 0) || y % 400 == 0
  }

  function DaysInMonth(y: nat, m: nat): nat {
    if m == 2 then (if IsLeapYear(y) then 29 else 28)
    else if m == 4 || m == 6 || m == 9 || m == 11 then 30
    else 31
  }

  /** The values Python's `datetime` constructor accepts. */
  predicate Valid(dt: DateTime) {
    && 1 <= dt.year <= 9999
    && 1 <= dt.month <= 12
    && 1 <= dt.day <= DaysInMonth(dt.year, dt.month)
    && dt.hour < 24 && dt.minute < 60 && dt.second < 60
    && dt.microsecond < 1000000
  }

  function Pow10(w: nat): (r: nat)
    ensures r >= 1
  {
    if w == 0 then 1 else 10 * Pow10(w - 1)
  }

  /** `n` written with exactly `w` decimal digits, zero-padded on the left. */
  function Pad(n: nat, w: nat): (r: string)
    ensures |r| == w
    ensures forall i :: 0 <= i < |r| ==> IsAsciiDigit(r[i])
  {
    if w == 0 then [] else Pad(n / 10, w - 1) + [DigitChar(n % 10)]
  }

  /** Reading a padded field back gives the number, when it fits in the width. */
  lemma {:induction false} PadRoundTrip(n: nat, w: nat)
    requires n < Pow10(w)
    ensures DigitsValue(Pad(n, w)) == n
  {
    if w > 0 {
      var s := Pad(n, w);
      assert s[..|s| - 1] == Pad(n / 10, w - 1);
      PadRoundTrip(n / 10, w - 1);
    }
  }

  /** `strftime("%Y%m%d")`. */
  function DateStamp(dt: DateTime): (r: string)
    ensures |r| == 8
  {
    Pad(dt.year, 4) + Pad(dt.month, 2) + Pad(dt.day, 2)
  }

  /** `strftime("%Y/%m")`. */
  function YearMonthPath(dt: DateTime): (r: string)
    ensures |r| == 7 && r[4] == '/'
  {
    Pad(dt.year, 4) + "/" + Pad(dt.month, 2)
  }

  /** The 19-character `YYYY-MM-DDTHH:MM:SS` part of `isoformat()`. */
  function DateTimePart(dt: DateTime): (r: string)
    ensures |r| == 19
  {
    Pad(dt.year, 4) + "-" + Pad(dt.month, 2) + "-" + Pad(dt.day, 2) + "T"
    + Pad(dt.hour, 2) + ":" + Pad(dt.minute, 2) + ":" + Pad(dt.second, 2)
  }

  /** The fractional part of `isoformat()`: present only when microseconds are non-zero. */
  function FractionPart(dt: DateTime): (r: string)
    ensures |r| == if dt.microsecond != 0 then 7 else 0
  {
    if dt.microsecond != 0 then "." + Pad(dt.microsecond, 6) else ""
  }

  /** `isoformat()` of an aware UTC datetime. */
  function IsoFormat(dt: DateTime): string {
    DateTimePart(dt) + FractionPart(dt) + "+00:00"
  }

  predicate AllDigits(s: string) {
    forall i :: 0 <= i < |s| ==> IsAsciiDigit(s[i])
  }

  /** The shape `YYYY-MM-DDTHH:MM:SS`. */
  predicate DateTimeShaped(p: string)
  {
    && |p| == 19
    && AllDigits(p[0..4]) && p[4] == '-' && AllDigits(p[5..7]) && p[7] == '-'
    && AllDigits(p[8..10]) && p[10] == 'T' && AllDigits(p[11..13]) && p[13] == ':'
    && AllDigits(p[14..16]) && p[16] == ':' && AllDigits(p[17..19])
  }

  function ReadDateTimePart(p: string, micro: nat): DateTime
    requires DateTimeShaped(p)
  {
    DateTime(DigitsValue(p[0..4]), DigitsValue(p[5..7]), DigitsValue(p[8..10]),
             DigitsValue(p[11..13]), DigitsValue(p[14..16]), DigitsValue(p[17..19]), micro)
  }

  /** `datetime.fromisoformat` for the two forms `IsoFormat` writes. */
  function ParseIso(s: string): (r: Option<DateTime>)
    ensures r.Some? ==> Valid(r.value)
  {
    if |s| != 25 && |s| != 32 then None
    else if !DateTimeShaped(s[..19]) || s[|s| - 6..] != "+00:00" then None
    else if |s| == 32 && !(s[19] == '.' && AllDigits(s[20..26])) then None
    else
      var micro := if |s| == 32 then DigitsValue(s[20..26]) else 0;
      var dt := ReadDateTimePart(s[..19], micro);
      if Valid(dt) then Some(dt) else None
  }

  /** Where each field sits in `DateTimePart`. */
  lemma DateTimePartFields(dt: DateTime)
    ensures var p := DateTimePart(dt);
      && p[0..4] == Pad(dt.year, 4) && p[5..7] == Pad(dt.month, 2) && p[8..10] == Pad(dt.day, 2)
      && p[11..13] == Pad(dt.hour, 2) && p[14..16] == Pad(dt.minute, 2) && p[17..19] == Pad(dt.second, 2)
      && p[4] == '-' && p[7] == '-' && p[10] == 'T' && p[13] == ':' && p[16] == ':'
  {
    var p := DateTimePart(dt);
    assert p[0..4] == Pad(dt.year, 4);
    assert p[5..7] == Pad(dt.month, 2);
    assert p[8..10] == Pad(dt.day, 2);
    assert p[11..13] == Pad(dt.hour, 2);
    assert p[14..16] == Pad(dt.minute, 2);
    assert p[17..19] == Pad(dt.second, 2);
  }

  lemma DateTimePartRoundTrip(dt: DateTime, micro: nat)
    requires Valid(dt) && micro == dt.microsecond
    ensures DateTimeShaped(DateTimePart(dt))
    ensures ReadDateTimePart(DateTimePart(dt), micro) == dt
  {
    DateTimePartFields(dt);
    assert Pow10(2) == 100 && Pow10(4) == 10000;
    PadRoundTrip(dt.year, 4);
    PadRoundTrip(dt.month, 2);
    PadRoundTrip(dt.day, 2);
    PadRoundTrip(dt.hour, 2);
    PadRoundTrip(dt.minute, 2);
    PadRoundTrip(dt.second, 2);
  }

  /** Reading back what `IsoFormat` wrote gives the same instant. */
  lemma IsoRoundTrip(dt: DateTime)
    requires Valid(dt)
    ensures ParseIso(IsoFormat(dt)) == Some(dt)
  {
    var s := IsoFormat(dt);
    DateTimePartRoundTrip(dt, dt.microsecond);
    assert s[..19] == DateTimePart(dt);
    if dt.microsecond != 0 {
      assert s[20..26] == Pad(dt.microsecond, 6);
      assert Pow10(6) == 1000000;
      PadRoundTrip(dt.microsecond, 6);
    }
  }

  /** `strftime("%Y-%m-%d")`. */
  function IsoDate(dt: DateTime): (r: string)
    ensures |r| == 10 && r[4] == '-' && r[7] == '-'
  {
    Pad(dt.year, 4) + "-" + Pad(dt.month, 2) + "-" + Pad(dt.day, 2)
  }

  /** The calendar date is the first ten characters of `isoformat()`. */
  lemma IsoDateIsIsoPrefix(dt: DateTime)
    ensures IsoFormat(dt)[..10] == IsoDate(dt)
  {
    DateTimePartFields(dt);
    assert IsoFormat(dt)[..10] == DateTimePart(dt)[..10];
  }

  /** `a < b` on two UTC datetimes: field by field, most significant first. */
  predicate Earlier(a: DateTime, b: DateTime) {
    if a.year != b.year then a.year < b.year
    else if a.month != b.month then a.month < b.month
    else if a.day != b.day then a.day < b.day
    else if a.hour != b.hour then a.hour < b.hour
    else if a.minute != b.minute then a.minute < b.minute
    else if a.second != b.second then a.second < b.second
    else a.microsecond < b.microsecond
  }

  /** `Earlier` is a strict total order. */
  lemma EarlierIsStrictTotalOrder(a: DateTime, b: DateTime, c: DateTime)
    ensures !Earlier(a, a)
    ensures Earlier(a, b) && Earlier(b, c) ==> Earlier(a, c)
    ensures a != b ==> Earlier(a, b) != Earlier(b, a)
  {
  }
}

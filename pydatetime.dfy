/** The part of Python's `datetime` module the time handling relies on: which
    field combinations a `datetime` may hold, the proleptic Gregorian day
    numbering, the comparison of two datetimes, `astimezone(timezone.utc)`,
    `strftime("%Y-%m-%d %H:%M:%S")` and `isoformat()`. Offsets are whole
    minutes, the only ones the time grammars can express. */
module PyDateTime {
  import opened Wrappers
  import opened Digits

  const MinYear: int := 1
  const MaxYear: int := 9999
  /** Minutes in a day; a `timezone` offset must lie strictly within one day. */
  const DayMinutes: int := 1440
  /** Microseconds in a day. */
  const DayMicros: int := 86400000000

  /** `tzinfo is None`, or a fixed offset east of UTC in minutes. */
  datatype Zone = Naive | Aware(offsetMinutes: int)

  datatype DateTime = DateTime(year: int, month: int, day: int,
                               hour: int, minute: int, second: int, microsecond: int,
                               zone: Zone)

  /** A calendar date on its own (the `date()` of a datetime). */
  datatype Ymd = Ymd(year: int, month: int, day: int)

  /** Python's runtime errors of the datetime operations modelled here. */
  datatype PyError =
    | OverflowError   // a result whose year leaves 1..9999
    | TypeError       // comparing a naive with an aware datetime

  // ---------------------------------------------------------------- calendar

  predicate IsLeap(y: int) {
    y % 4 == 0 && (y % 100 != 0 || y % 400 == 0)
  }

  function DaysInYear(y: int): int {
    if IsLeap(y) then 366 else 365
  }

  function DaysInMonth(y: int, m: int): (n: int)
    requires 1 <= m <= 12
    ensures 28 <= n <= 31
    ensures m == 2 <==> n < 30
  {
    if m == 2 then (if IsLeap(y) then 29 else 28)
    else if m == 4 || m == 6 || m == 9 || m == 11 then 30
    else 31
  }

  predicate ValidYmd(date: Ymd) {
    MinYear <= date.year <= MaxYear
    && 1 <= date.month <= 12
    && 1 <= date.day <= DaysInMonth(date.year, date.month)
  }

  predicate ValidZone(z: Zone) {
    z.Aware? ==> -DayMinutes < z.offsetMinutes < DayMinutes
  }

  function DateOf(dt: DateTime): Ymd {
    Ymd(dt.year, dt.month, dt.day)
  }

  /** The field ranges the `datetime` constructor enforces. */
  predicate Valid(dt: DateTime) {
    ValidYmd(DateOf(dt))
    && 0 <= dt.hour < 24 && 0 <= dt.minute < 60 && 0 <= dt.second < 60
    && 0 <= dt.microsecond < 1000000
    && ValidZone(dt.zone)
  }

  /** `datetime(year, month, ..., tzinfo)` with the fields of `dt`: the value,
      or None for the ValueError the constructor raises on a field out of
      range. */
  function Checked(dt: DateTime): (r: Option<DateTime>)
    ensures r.Some? <==> Valid(dt)
    ensures r.Some? ==> r.value == dt
  {
    if Valid(dt) then Some(dt) else None
  }

  /** Days in the years before `y` (so year 1 starts at day 1 of `Ordinal`). */
  function DaysBeforeYear(y: int): int {
    var p := y - 1;
    365 * p + p / 4 - p / 100 + p / 400
  }

  function DaysBeforeMonth(y: int, m: int): (n: int)
    requires 1 <= m <= 12
    ensures 0 <= n
  {
    if m == 1 then 0 else DaysBeforeMonth(y, m - 1) + DaysInMonth(y, m - 1)
  }

  /** `date.toordinal()`: 1 for 0001-01-01, one more per day. */
  function Ordinal(date: Ymd): int
    requires 1 <= date.month <= 12
  {
    DaysBeforeYear(date.year) + DaysBeforeMonth(date.year, date.month) + date.day
  }

  /** A year is as long as the leap rule says. */
  lemma YearLength(y: int)
    ensures DaysBeforeYear(y + 1) == DaysBeforeYear(y) + DaysInYear(y)
  {
    StepOver4(y);
    StepOver100(y);
    StepOver400(y);
  }

  /** Stepping into year `y` counts one more multiple of 4, 100 or 400
      exactly when `y` is one. */
  lemma StepOver4(y: int)
    ensures y / 4 - (y - 1) / 4 == (if y % 4 == 0 then 1 else 0)
  {
  }

  lemma StepOver100(y: int)
    ensures y / 100 - (y - 1) / 100 == (if y % 100 == 0 then 1 else 0)
  {
  }

  lemma StepOver400(y: int)
    ensures y / 400 - (y - 1) / 400 == (if y % 400 == 0 then 1 else 0)
  {
  }

  /** The twelve months make up the year. */
  lemma MonthsFillYear(y: int)
    ensures DaysBeforeMonth(y, 12) + DaysInMonth(y, 12) == DaysInYear(y)
  {
    var leap := if IsLeap(y) then 1 else 0;
    assert DaysBeforeMonth(y, 2) == 31;
    assert DaysBeforeMonth(y, 3) == 59 + leap;
    assert DaysBeforeMonth(y, 4) == 90 + leap;
    assert DaysBeforeMonth(y, 5) == 120 + leap;
    assert DaysBeforeMonth(y, 6) == 151 + leap;
    assert DaysBeforeMonth(y, 7) == 181 + leap;
    assert DaysBeforeMonth(y, 8) == 212 + leap;
    assert DaysBeforeMonth(y, 9) == 243 + leap;
    assert DaysBeforeMonth(y, 10) == 273 + leap;
    assert DaysBeforeMonth(y, 11) == 304 + leap;
    assert DaysBeforeMonth(y, 12) == 334 + leap;
  }

  /** An earlier month ends no later than a later month begins. */
  lemma {:induction false} MonthOrder(y: int, m: int, n: int)
    requires 1 <= m < n <= 12
    ensures DaysBeforeMonth(y, m) + DaysInMonth(y, m) <= DaysBeforeMonth(y, n)
    decreases n
  {
    if m < n - 1 {
      MonthOrder(y, m, n - 1);
    }
  }

  /** Every valid date lies within its own year's span of day numbers. */
  lemma OrdinalWithinYear(date: Ymd)
    requires ValidYmd(date)
    ensures DaysBeforeYear(date.year) < Ordinal(date) <= DaysBeforeYear(date.year + 1)
  {
    YearLength(date.year);
    MonthsFillYear(date.year);
    if date.month < 12 {
      MonthOrder(date.year, date.month, 12);
    }
  }

  lemma {:induction false} DaysBeforeYearMonotone(y: int, z: int)
    requires y <= z
    ensures DaysBeforeYear(y) <= DaysBeforeYear(z)
    decreases z - y
  {
    if y < z {
      YearLength(y);
      DaysBeforeYearMonotone(y + 1, z);
    }
  }

  /** Calendar order: year, then month, then day. */
  predicate DateBefore(a: Ymd, b: Ymd) {
    a.year < b.year
    || (a.year == b.year && (a.month < b.month || (a.month == b.month && a.day < b.day)))
  }

  /** Day numbers follow the calendar order, in both directions. */
  lemma OrdinalOrder(a: Ymd, b: Ymd)
    requires ValidYmd(a) && ValidYmd(b)
    ensures DateBefore(a, b) <==> Ordinal(a) < Ordinal(b)
    ensures a == b <==> Ordinal(a) == Ordinal(b)
  {
    if DateBefore(a, b) {
      OrdinalBefore(a, b);
    }
    if DateBefore(b, a) {
      OrdinalBefore(b, a);
    }
  }

  lemma OrdinalBefore(a: Ymd, b: Ymd)
    requires ValidYmd(a) && ValidYmd(b) && DateBefore(a, b)
    ensures Ordinal(a) < Ordinal(b)
  {
    if a.year < b.year {
      OrdinalWithinYear(a);
      OrdinalWithinYear(b);
      DaysBeforeYearMonotone(a.year + 1, b.year);
    } else if a.month < b.month {
      MonthOrder(a.year, a.month, b.month);
    }
  }

  const FirstDate: Ymd := Ymd(MinYear, 1, 1)
  const LastDate: Ymd := Ymd(MaxYear, 12, 31)

  /** Every valid date numbers between the first and the last day. */
  lemma OrdinalRange(date: Ymd)
    requires ValidYmd(date)
    ensures 1 <= Ordinal(date) <= Ordinal(LastDate)
    ensures Ordinal(date) == 1 <==> date == FirstDate
    ensures Ordinal(date) == Ordinal(LastDate) <==> date == LastDate
  {
    MonthsFillYear(MaxYear);
    assert DaysBeforeYear(MaxYear) == 3651694;
    OrdinalOrder(FirstDate, date);
    OrdinalOrder(date, LastDate);
  }

  /** The day after a valid date. */
  function NextDay(date: Ymd): (r: Ymd)
    requires ValidYmd(date) && date != LastDate
    ensures ValidYmd(r) && Ordinal(r) == Ordinal(date) + 1
  {
    if date.day < DaysInMonth(date.year, date.month) then
      Ymd(date.year, date.month, date.day + 1)
    else if date.month < 12 then
      Ymd(date.year, date.month + 1, 1)
    else
      YearLength(date.year);
      MonthsFillYear(date.year);
      Ymd(date.year + 1, 1, 1)
  }

  /** The day before a valid date. */
  function PrevDay(date: Ymd): (r: Ymd)
    requires ValidYmd(date) && date != FirstDate
    ensures ValidYmd(r) && Ordinal(r) == Ordinal(date) - 1
  {
    if date.day > 1 then
      Ymd(date.year, date.month, date.day - 1)
    else if date.month > 1 then
      var r := Ymd(date.year, date.month - 1, DaysInMonth(date.year, date.month - 1));
      assert DaysBeforeMonth(date.year, date.month)
             == DaysBeforeMonth(date.year, date.month - 1) + DaysInMonth(date.year, date.month - 1);
      r
    else
      assert date.year > MinYear;
      YearLength(date.year - 1);
      MonthsFillYear(date.year - 1);
      Ymd(date.year - 1, 12, 31)
  }

  // ---------------------------------------------------------------- instants

  function TimeOfDayMicros(dt: DateTime): int {
    ((dt.hour * 60 + dt.minute) * 60 + dt.second) * 1000000 + dt.microsecond
  }

  /** The wall-clock reading as one number: microseconds since 0001-01-01 00:00
      of the local calendar, ignoring the zone. */
  function WallMicros(dt: DateTime): int
    requires 1 <= dt.month <= 12
  {
    Ordinal(DateOf(dt)) * DayMicros + TimeOfDayMicros(dt)
  }

  /** The instant an aware datetime denotes: its wall clock minus its offset. */
  function UtcMicros(dt: DateTime): int
    requires 1 <= dt.month <= 12 && dt.zone.Aware?
  {
    WallMicros(dt) - dt.zone.offsetMinutes * 60000000
  }

  /** Python's `<` on two naive datetimes, which is also the comparison of two
      aware datetimes once both are in UTC: the fields, most significant first. */
  predicate Before(a: DateTime, b: DateTime) {
    DateBefore(DateOf(a), DateOf(b))
    || (DateOf(a) == DateOf(b)
        && (a.hour < b.hour
            || (a.hour == b.hour
                && (a.minute < b.minute
                    || (a.minute == b.minute
                        && (a.second < b.second
                            || (a.second == b.second && a.microsecond < b.microsecond)))))))
  }

  /** The same wall-clock reading, whatever the zones. */
  predicate SameWall(a: DateTime, b: DateTime) {
    DateOf(a) == DateOf(b) && a.hour == b.hour && a.minute == b.minute
    && a.second == b.second && a.microsecond == b.microsecond
  }

  /** Field order is the order of wall-clock instants, and equal readings are
      exactly equal instants. */
  lemma BeforeIsEarlier(a: DateTime, b: DateTime)
    requires Valid(a) && Valid(b)
    ensures Before(a, b) <==> WallMicros(a) < WallMicros(b)
    ensures SameWall(a, b) <==> WallMicros(a) == WallMicros(b)
  {
    OrdinalOrder(DateOf(a), DateOf(b));
    if Before(a, b) {
      BeforeEarlier(a, b);
    }
    if Before(b, a) {
      BeforeEarlier(b, a);
    }
  }

  lemma BeforeEarlier(a: DateTime, b: DateTime)
    requires Valid(a) && Valid(b) && Before(a, b)
    ensures WallMicros(a) < WallMicros(b)
  {
    OrdinalOrder(DateOf(a), DateOf(b));
  }

  /** The instants a datetime can hold: from 0001-01-01 00:00 up to, not
      including, the day after 9999-12-31. */
  predicate InRange(micros: int) {
    DayMicros <= micros < (Ordinal(LastDate) + 1) * DayMicros
  }

  lemma WallInRange(dt: DateTime)
    requires Valid(dt)
    ensures InRange(WallMicros(dt))
  {
    OrdinalRange(DateOf(dt));
  }

  /** Moving the wall clock by `delta` days and the offset's minutes keeps the
      instant. */
  lemma ShiftKeepsInstant(dt: DateTime, u: DateTime, delta: int)
    requires 1 <= dt.month <= 12 && 1 <= u.month <= 12 && dt.zone.Aware?
    requires Ordinal(DateOf(u)) == Ordinal(DateOf(dt)) + delta
    requires u.hour * 60 + u.minute + delta * DayMinutes
             == dt.hour * 60 + dt.minute - dt.zone.offsetMinutes
    requires u.second == dt.second && u.microsecond == dt.microsecond
    ensures WallMicros(u) == UtcMicros(dt)
  {
  }

  /** Before the first day or after the last one, nothing can be represented. */
  lemma OutsideRange(dt: DateTime)
    requires Valid(dt) && dt.zone.Aware?
    requires UtcOverflows(dt)
    ensures !InRange(UtcMicros(dt))
  {
  }

  /** Minutes of a day as hour and minute. */
  lemma SplitMinutes(m: int)
    requires 0 <= m < DayMinutes
    ensures 0 <= m / 60 < 24 && 0 <= m % 60 < 60 && (m / 60) * 60 + m % 60 == m
  {
  }

  /** Whether the UTC reading of `dt` falls on a day before the first or after
      the last representable one. */
  predicate UtcOverflows(dt: DateTime)
    requires dt.zone.Aware?
  {
    var total := dt.hour * 60 + dt.minute - dt.zone.offsetMinutes;
    (total < 0 && DateOf(dt) == FirstDate) || (total >= DayMinutes && DateOf(dt) == LastDate)
  }

  /** The UTC wall clock of an aware datetime whose UTC day exists. */
  function UtcReading(dt: DateTime): (u: DateTime)
    requires Valid(dt) && dt.zone.Aware? && !UtcOverflows(dt)
    ensures Valid(u) && u.zone == Aware(0) && WallMicros(u) == UtcMicros(dt)
  {
    var total := dt.hour * 60 + dt.minute - dt.zone.offsetMinutes;
    var date := DateOf(dt);
    var delta := if total < 0 then -1 else if total >= DayMinutes then 1 else 0;
    var shifted := if delta < 0 then PrevDay(date) else if delta > 0 then NextDay(date) else date;
    var mins := total - delta * DayMinutes;
    SplitMinutes(mins);
    var u := DateTime(shifted.year, shifted.month, shifted.day, mins / 60, mins % 60,
                      dt.second, dt.microsecond, Aware(0));
    ShiftKeepsInstant(dt, u, delta);
    u
  }

  /** `dt.astimezone(timezone.utc)` for an aware `dt`: the same instant on the
      UTC wall clock, or None for the OverflowError raised exactly when that
      instant lies outside the range a datetime can hold. */
  function AsUtc(dt: DateTime): (r: Option<DateTime>)
    requires Valid(dt) && dt.zone.Aware?
    ensures r.Some? ==> Valid(r.value) && r.value.zone == Aware(0)
                        && WallMicros(r.value) == UtcMicros(dt)
    ensures r.None? <==> !InRange(UtcMicros(dt))
    ensures r.None? ==> DateOf(dt) == FirstDate || DateOf(dt) == LastDate
  {
    if UtcOverflows(dt) then
      OutsideRange(dt);
      None
    else
      var u := UtcReading(dt);
      WallInRange(u);
      Some(u)
  }

  // ---------------------------------------------------------------- text

  /** Date and time of day as `YYYY-MM-DD`, `sep`, `HH:MM:SS`, every field
      zero-padded (the year to four digits). */
  function Clock(dt: DateTime, sep: char): (s: string)
    requires Valid(dt)
    ensures |s| == 19
  {
    Pad(dt.year, 4) + "-" + Pad(dt.month, 2) + "-" + Pad(dt.day, 2) + [sep]
    + Pad(dt.hour, 2) + ":" + Pad(dt.minute, 2) + ":" + Pad(dt.second, 2)
  }

  /** Where each field sits in the clock text. */
  lemma ClockLayout(dt: DateTime, sep: char)
    requires Valid(dt)
    ensures var t := Clock(dt, sep);
            t[0..4] == Pad(dt.year, 4) && t[4] == '-' && t[5..7] == Pad(dt.month, 2) && t[7] == '-'
            && t[8..10] == Pad(dt.day, 2) && t[10] == sep && t[11..13] == Pad(dt.hour, 2)
            && t[13] == ':' && t[14..16] == Pad(dt.minute, 2) && t[16] == ':'
            && t[17..19] == Pad(dt.second, 2)
  {
  }

  /** `dt.strftime("%Y-%m-%d %H:%M:%S")`, with the year zero-padded to four
      digits. */
  function Strftime(dt: DateTime): (s: string)
    requires Valid(dt)
    ensures |s| == 19
  {
    Clock(dt, ' ')
  }

  lemma StrftimeFromParts(dt: DateTime, y: string, mo: string, d: string, h: string, mi: string, sec: string)
    requires Valid(dt)
    requires Pad(dt.year, 4) == y && Pad(dt.month, 2) == mo && Pad(dt.day, 2) == d
    requires Pad(dt.hour, 2) == h && Pad(dt.minute, 2) == mi && Pad(dt.second, 2) == sec
    ensures Strftime(dt) == y + "-" + mo + "-" + d + " " + h + ":" + mi + ":" + sec
  {
  }

  /** `utcoffset()` as `isoformat()` writes it: `+HH:MM` or `-HH:MM`. */
  function OffsetText(offset: int): (s: string)
    requires -DayMinutes < offset < DayMinutes
    ensures |s| == 6
  {
    var magnitude := if offset < 0 then -offset else offset;
    (if offset < 0 then "-" else "+") + Pad(magnitude / 60, 2) + ":" + Pad(magnitude % 60, 2)
  }

  /** `dt.isoformat(sep)`: the date, `sep`, the time, `.ffffff` only when
      there are microseconds, and the offset only when `dt` is aware. */
  function IsoFormat(dt: DateTime, sep: char): (s: string)
    requires Valid(dt)
    ensures |s| == 19 + (if dt.microsecond != 0 then 7 else 0) + (if dt.zone.Aware? then 6 else 0)
  {
    Clock(dt, sep)
    + (if dt.microsecond != 0 then "." + Pad(dt.microsecond, 6) else "")
    + (match dt.zone case Naive => "" case Aware(o) => OffsetText(o))
  }

  /** An offset text reads back as its offset: a sign, two digits, `:` and
      two digits. */
  lemma OffsetTextReadsBack(offset: int)
    requires -DayMinutes < offset < DayMinutes
    ensures var t := OffsetText(offset);
            && (t[0] == '+' || t[0] == '-') && AllDigits(t[1..3]) && t[3] == ':' && AllDigits(t[4..6])
            && (if t[0] == '-' then -1 else 1) * (DigitsValue(t[1..3]) * 60 + DigitsValue(t[4..6])) == offset
  {
    var magnitude := if offset < 0 then -offset else offset;
    assert Pow10(2) == 100;
    PadValue(magnitude / 60, 2);
    PadValue(magnitude % 60, 2);
    var t := OffsetText(offset);
    assert t[1..3] == Pad(magnitude / 60, 2);
    assert t[4..6] == Pad(magnitude % 60, 2);
  }

  /** Reading `isoformat(sep)` back: the clock text comes first; a value with
      microseconds continues with `.` and six digits worth them; an aware value
      ends in a sign, two digits, `:` and two digits worth its offset in
      minutes; and a naive value without microseconds is the clock text alone. */
  lemma IsoFormatReadsBack(dt: DateTime, sep: char)
    requires Valid(dt)
    ensures var s := IsoFormat(dt, sep);
            && s[..19] == Clock(dt, sep)
            && (dt.microsecond != 0 ==>
                  s[19] == '.' && AllDigits(s[20..26]) && DigitsValue(s[20..26]) == dt.microsecond)
            && (dt.zone.Aware? ==>
                  var t := s[|s| - 6..];
                  && (t[0] == '+' || t[0] == '-') && AllDigits(t[1..3]) && t[3] == ':' && AllDigits(t[4..6])
                  && (if t[0] == '-' then -1 else 1) * (DigitsValue(t[1..3]) * 60 + DigitsValue(t[4..6]))
                     == dt.zone.offsetMinutes)
            && (dt.microsecond == 0 && dt.zone.Naive? ==> s == Clock(dt, sep))
  {
    var s := IsoFormat(dt, sep);
    var c := Clock(dt, sep);
    var f := if dt.microsecond != 0 then "." + Pad(dt.microsecond, 6) else "";
    var z := match dt.zone case Naive => "" case Aware(o) => OffsetText(o);
    assert s == c + f + z;
    assert s[..19] == c;
    if dt.microsecond != 0 {
      assert Pow10(6) == 1000000;
      PadValue(dt.microsecond, 6);
      assert s[19..26] == f;
      assert s[20..26] == f[1..];
    }
    if dt.zone.Aware? {
      OffsetTextReadsBack(dt.zone.offsetMinutes);
      assert s[|s| - 6..] == z;
    }
  }
}

/**
 Session timestamps: from the fields of `YYYY-MM-DDThh:mm:ss[.f]Z` to milliseconds since the epoch,
 checked against counting days along the Gregorian calendar.
 */
module CivilTime {
  import opened Wrappers

  datatype Date = Date(year: int, month: int, day: int)
  datatype Clock = Clock(hour: int, minute: int, second: int, fraction: Option<seq<nat>>)

  predicate Leap(year: int) { year % 4 == 0 && (year % 100 != 0 || year % 400 == 0) }

  function DaysInMonth(year: int, month: int): int {
    if month == 2 then (if Leap(year) then 29 else 28)
    else if month in {4, 6, 9, 11} then 30 else 31
  }

  /** A calendar date of our era; the parser additionally stops at year 9999. */
  predicate IsDate(d: Date) {
    1 <= d.year && 1 <= d.month <= 12 && 1 <= d.day <= DaysInMonth(d.year, d.month)
  }

  /** The era-based formula: March-based years, 400-year eras. */
  function DaysSinceEpoch(d: Date): int {
    var y := if d.month <= 2 then d.year - 1 else d.year;
    var era := y / 400;
    var yoe := y - era * 400;
    var mp := (d.month + 9) % 12;
    var doy := (153 * mp + 2) / 5 + d.day - 1;
    var doe := yoe * 365 + yoe / 4 - yoe / 100 + doy;
    era * 146097 + doe - 719468
  }

  // ---------------------------------------------------------------------------
  // Counting days.

  function YearLength(year: int): int { if Leap(year) then 366 else 365 }

  /** The lengths of the years 1 to `n`. */
  function YearLengths(n: nat): (lengths: seq<int>)
    ensures |lengths| == n && forall i | 0 <= i < n :: lengths[i] == YearLength(i + 1)
  {
    seq(n, (i: nat) => YearLength(i + 1))
  }

  function Sum(xs: seq<int>): int { if xs == [] then 0 else Sum(xs[..|xs| - 1]) + xs[|xs| - 1] }

  /** The days of the years 1 to `year` - 1, one year at a time. */
  function DaysBeforeYear(year: int): int
    requires year >= 1
  {
    Sum(YearLengths(year - 1))
  }

  function DaysBeforeMonth(year: int, month: int): int
    requires 1 <= month
    decreases month
  {
    if month == 1 then 0 else DaysBeforeMonth(year, month - 1) + DaysInMonth(year, month - 1)
  }

  /** How many days lie between 0001-01-01 and the date. */
  function DayCount(d: Date): int
    requires IsDate(d)
  {
    DaysBeforeYear(d.year) + DaysBeforeMonth(d.year, d.month) + d.day - 1
  }

  const EPOCH := Date(1970, 1, 1)

  function NextDay(d: Date): Date {
    if d.day < DaysInMonth(d.year, d.month) then d.(day := d.day + 1)
    else if d.month < 12 then Date(d.year, d.month + 1, 1)
    else Date(d.year + 1, 1, 1)
  }

  lemma {:induction false} Quotients(n: int)
    ensures n / 4 == (n - 1) / 4 + if n % 4 == 0 then 1 else 0
    ensures n / 100 == (n - 1) / 100 + if n % 100 == 0 then 1 else 0
    ensures n / 400 == (n - 1) / 400 + if n % 400 == 0 then 1 else 0
  {
  }

  lemma {:induction false} Multiples(n: int)
    ensures n % 100 == 0 ==> n % 4 == 0
    ensures n % 400 == 0 ==> n % 100 == 0
  {
    assert n % 100 == 0 ==> n == 4 * (25 * (n / 100));
    assert n % 400 == 0 ==> n == 100 * (4 * (n / 400));
  }

  /** Leap days up to and including a year. */
  lemma {:induction false} LeapStep(year: int)
    ensures year / 4 - year / 100 + year / 400
            == (year - 1) / 4 - (year - 1) / 100 + (year - 1) / 400 + if Leap(year) then 1 else 0
  {
    Quotients(year);
    Multiples(year);
  }

  lemma {:induction false} OneMoreYear(year: int)
    requires year >= 1
    ensures DaysBeforeYear(year + 1) == DaysBeforeYear(year) + YearLength(year)
  {
    assert YearLengths(year)[..year - 1] == YearLengths(year - 1);
  }

  lemma {:induction false} NoYears(year: int)
    requires year == 1
    ensures DaysBeforeYear(year) == 0
  {
    assert YearLengths(year - 1) == [];
  }

  lemma {:induction false} LeapDaysBeforeYear(year: int)
    requires year >= 1
    ensures var n := year - 1; DaysBeforeYear(year) == 365 * n + n / 4 - n / 100 + n / 400
    decreases year
  {
    if year > 1 {
      LeapDaysBeforeYear(year - 1);
      LeapStep(year - 1);
      OneMoreYear(year - 1);
    } else {
      NoYears(year);
    }
  }

  /** The months of the formula, which starts its years in March. */
  lemma {:induction false} MonthTable(year: int, month: int)
    requires 1 <= month <= 12
    ensures DaysBeforeMonth(year, month)
            == (153 * ((month + 9) % 12) + 2) / 5
               + if month <= 2 then -306 else if Leap(year) then 60 else 59
  {
    assert DaysBeforeMonth(year, 2) == 31;
    assert DaysBeforeMonth(year, 3) == 31 + DaysInMonth(year, 2);
    assert DaysBeforeMonth(year, 4) == DaysBeforeMonth(year, 3) + 31;
    assert DaysBeforeMonth(year, 5) == DaysBeforeMonth(year, 3) + 61;
    assert DaysBeforeMonth(year, 6) == DaysBeforeMonth(year, 3) + 92;
    assert DaysBeforeMonth(year, 7) == DaysBeforeMonth(year, 3) + 122;
    assert DaysBeforeMonth(year, 8) == DaysBeforeMonth(year, 3) + 153;
    assert DaysBeforeMonth(year, 9) == DaysBeforeMonth(year, 3) + 184;
    assert DaysBeforeMonth(year, 10) == DaysBeforeMonth(year, 3) + 214;
    assert DaysBeforeMonth(year, 11) == DaysBeforeMonth(year, 3) + 245;
    assert DaysBeforeMonth(year, 12) == DaysBeforeMonth(year, 3) + 275;
  }

  lemma {:induction false} EraSplit(y: int)
    requires y >= 0
    ensures var era := y / 400; var yoe := y - era * 400;
            era * 146097 + yoe * 365 + yoe / 4 - yoe / 100 == 365 * y + y / 4 - y / 100 + y / 400
  {
    var era := y / 400;
    var yoe := y - era * 400;
    assert 0 <= yoe < 400;
    assert y / 4 == era * 100 + yoe / 4;
    assert y / 100 == era * 4 + yoe / 100;
  }

  /** The formula and the count, both without their months. */
  lemma {:induction false} EraCount(y: int)
    requires y >= 0
    ensures var era := y / 400; var yoe := y - era * 400;
            era * 146097 + yoe * 365 + yoe / 4 - yoe / 100 == DaysBeforeYear(y + 1)
  {
    EraSplit(y);
    LeapDaysBeforeYear(y + 1);
  }

  /** For every date of our era, the formula is the number of days counted from the epoch. */
  lemma {:induction false} FormulaCountsDays(d: Date)
    requires IsDate(d)
    ensures DaysSinceEpoch(d) == DayCount(d) - DayCount(EPOCH)
  {
    EpochCount();
    MonthTable(d.year, d.month);
    if d.month <= 2 {
      EraCount(d.year - 1);
    } else {
      EraCount(d.year);
      OneMoreYear(d.year);
    }
  }

  lemma {:induction false} CountNextDay(d: Date)
    requires IsDate(d)
    ensures IsDate(NextDay(d)) && DayCount(NextDay(d)) == DayCount(d) + 1
  {
    if d.month == 12 {
      MonthTable(d.year, 12);
      assert DaysBeforeMonth(d.year, 12) + 31 == YearLength(d.year);
      OneMoreYear(d.year);
    }
  }

  /** The calendar's next day is one day later. */
  lemma {:induction false} NextDayIsOneMore(d: Date)
    requires IsDate(d)
    ensures IsDate(NextDay(d)) && DaysSinceEpoch(NextDay(d)) == DaysSinceEpoch(d) + 1
  {
    CountNextDay(d);
    FormulaCountsDays(d);
    FormulaCountsDays(NextDay(d));
  }

  // ---------------------------------------------------------------------------
  // Order.

  predicate DateBefore(a: Date, b: Date) {
    a.year < b.year || (a.year == b.year && (a.month < b.month || (a.month == b.month && a.day < b.day)))
  }

  lemma {:induction false} YearsGrow(a: int, b: int)
    requires 1 <= a < b
    ensures DaysBeforeYear(a) + YearLength(a) <= DaysBeforeYear(b)
    decreases b
  {
    OneMoreYear(b - 1);
    if a < b - 1 {
      YearsGrow(a, b - 1);
    }
  }

  lemma {:induction false} MonthsGrow(year: int, a: int, b: int)
    requires 1 <= a < b
    ensures DaysBeforeMonth(year, a) + DaysInMonth(year, a) <= DaysBeforeMonth(year, b)
    decreases b
  {
    if a < b - 1 {
      MonthsGrow(year, a, b - 1);
    }
  }

  lemma {:induction false} DayInYear(d: Date)
    requires IsDate(d)
    ensures 0 <= DaysBeforeMonth(d.year, d.month) + d.day - 1 < YearLength(d.year)
  {
    MonthTable(d.year, 12);
    if d.month < 12 {
      MonthsGrow(d.year, d.month, 12);
    }
    if d.month > 1 {
      MonthsGrow(d.year, 1, d.month);
    }
  }

  lemma {:induction false} EarlierDatesCountLess(a: Date, b: Date)
    requires IsDate(a) && IsDate(b) && DateBefore(a, b)
    ensures DayCount(a) < DayCount(b)
  {
    DayInYear(a);
    DayInYear(b);
    if a.year < b.year {
      YearsGrow(a.year, b.year);
    } else if a.month < b.month {
      MonthsGrow(a.year, a.month, b.month);
    }
  }

  // ---------------------------------------------------------------------------
  // Milliseconds.

  predicate ValidFraction(f: seq<nat>) {
    1 <= |f| <= 3 && forall i | 0 <= i < |f| :: f[i] <= 9
  }

  function Number(digits: seq<nat>): nat {
    if digits == [] then 0 else Number(digits[..|digits| - 1]) * 10 + digits[|digits| - 1]
  }

  /** One or two digits are tenths or hundredths of a second. */
  function Millis(fraction: Option<seq<nat>>): nat {
    if fraction.None? then 0
    else
      var raw := Number(fraction.value);
      if |fraction.value| == 1 then raw * 100 else if |fraction.value| == 2 then raw * 10 else raw
  }

  predicate IsClock(c: Clock) {
    && 0 <= c.hour <= 23 && 0 <= c.minute <= 59 && 0 <= c.second <= 59
    && (c.fraction.Some? ==> ValidFraction(c.fraction.value))
  }

  /** `parse_iso8601_ms` from the parsed fields on. */
  function Timestamp(d: Date, c: Clock): (r: Option<int>)
    ensures r.Some? <==> d.year <= 9999 && IsDate(d) && IsClock(c)
  {
    if !(1 <= d.year <= 9999) || !(1 <= d.month <= 12) then None
    else if !(1 <= d.day <= DaysInMonth(d.year, d.month)) then None
    else if c.fraction.Some? && !ValidFraction(c.fraction.value) then None
    else if !(0 <= c.hour <= 23) || !(0 <= c.minute <= 59) || !(0 <= c.second <= 59) then None
    else
      var totalSeconds := DaysSinceEpoch(d) * 86400 + c.hour * 3600 + c.minute * 60 + c.second;
      Some(totalSeconds * 1000 + Millis(c.fraction))
  }

  /** The fraction reads as the three-digit number it abbreviates. */
  lemma {:induction false} MillisPad(f: seq<nat>)
    requires ValidFraction(f)
    ensures Millis(Some(f)) == Number((f + [0, 0])[..3]) < 1000
  {
    var padded := (f + [0, 0])[..3];
    NumberOfThree(padded[0], padded[1], padded[2]);
    assert padded == [padded[0], padded[1], padded[2]];
    if |f| == 1 {
      NumberOfOne(f);
    } else if |f| == 2 {
      NumberOfOne(f[..1]);
    } else {
      assert padded == f;
    }
  }

  lemma {:induction false} NumberOfOne(f: seq<nat>)
    requires |f| == 1
    ensures Number(f) == f[0]
  {
    assert f[..0] == [];
  }

  lemma {:induction false} NumberOfThree(a: nat, b: nat, c: nat)
    ensures Number([a, b, c]) == 100 * a + 10 * b + c
  {
    assert [a, b, c][..2] == [a, b] && [a, b][..1] == [a] && [a][..0] == [];
    assert Number([a]) == Number([]) * 10 + a;
    assert Number([a, b]) == Number([a]) * 10 + b;
  }

  /** Later in the day, down to the millisecond. */
  predicate ClockBefore(a: Clock, b: Clock) {
    a.hour < b.hour || (a.hour == b.hour &&
    (a.minute < b.minute || (a.minute == b.minute &&
    (a.second < b.second || (a.second == b.second && Millis(a.fraction) < Millis(b.fraction))))))
  }

  function MillisOfDay(c: Clock): int {
    ((c.hour * 60 + c.minute) * 60 + c.second) * 1000 + Millis(c.fraction)
  }

  lemma {:induction false} MillisOfDayOrder(a: Clock, b: Clock)
    requires IsClock(a) && IsClock(b)
    ensures 0 <= MillisOfDay(a) < 86400000
    ensures ClockBefore(a, b) <==> MillisOfDay(a) < MillisOfDay(b)
  {
    if a.fraction.Some? { MillisPad(a.fraction.value); }
    if b.fraction.Some? { MillisPad(b.fraction.value); }
  }

  lemma {:induction false} TimestampParts(d: Date, c: Clock)
    requires Timestamp(d, c).Some?
    ensures Timestamp(d, c).value == DaysSinceEpoch(d) * 86400000 + MillisOfDay(c)
  {
  }

  /** Timestamps are ordered exactly as (year, month, day, time of day) is. */
  lemma {:induction false} TimestampsFollowTheCalendar(a: Date, ca: Clock, b: Date, cb: Clock)
    requires Timestamp(a, ca).Some? && Timestamp(b, cb).Some?
    ensures Timestamp(a, ca).value < Timestamp(b, cb).value
            <==> DateBefore(a, b) || (a == b && ClockBefore(ca, cb))
  {
    FormulaCountsDays(a);
    FormulaCountsDays(b);
    MillisOfDayOrder(ca, cb);
    MillisOfDayOrder(cb, ca);
    TimestampParts(a, ca);
    TimestampParts(b, cb);
    if DateBefore(a, b) {
      EarlierDatesCountLess(a, b);
    } else if DateBefore(b, a) {
      EarlierDatesCountLess(b, a);
    }
  }

  lemma {:induction false} DayRange(d: Date)
    requires IsDate(d) && d.year <= 9999
    ensures 0 <= DayCount(d) < 3652059
  {
    LeapDaysBeforeYear(9999);
    DayInYear(d);
    NoYears(1);
    if d.year < 9999 { YearsGrow(d.year, 9999); }
    if 1 < d.year { YearsGrow(1, d.year); }
  }

  lemma {:induction false} EpochIsZero()
    ensures Timestamp(EPOCH, Clock(0, 0, 0, None)) == Some(0)
  {
    FormulaCountsDays(EPOCH);
    TimestampParts(EPOCH, Clock(0, 0, 0, None));
  }

  /** The epoch is zero, and every timestamp is far inside an `i64`. */
  lemma {:induction false} TimestampRange(d: Date, c: Clock)
    requires Timestamp(d, c).Some?
    ensures Timestamp(EPOCH, Clock(0, 0, 0, None)) == Some(0)
    ensures -62135596800000 <= Timestamp(d, c).value < 253402300800000
  {
    EpochIsZero();
    FormulaCountsDays(d);
    EpochCount();
    DayRange(d);
    MillisOfDayOrder(c, c);
    TimestampParts(d, c);
  }

  lemma {:induction false} EpochCount()
    ensures DayCount(EPOCH) == 719162
  {
    LeapDaysBeforeYear(1970);
  }
}

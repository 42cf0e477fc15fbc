/**
  The console clock's date: seconds since 1970 from a date and time, and back.

  Dates are proleptic Gregorian (section 3.2.1 of ISO 8601:2004), in any year.
 */
module Dates {
  import opened Words

  datatype Date = Date(year: int, month: int, day: int)
  datatype Time = Time(hour: int, minute: int, second: int)

  const DAY: int := 86_400
  const MS_1900_TO_1970: int := 2_208_988_800_000
  const WRAP: int := 0x1_0000_0000_0000_0000

  // ---- The calendar ----------------------------------------------------------------------------

  predicate Leap(year: int) { year % 4 == 0 && (year % 100 != 0 || year % 400 == 0) }

  function DaysIn(year: int, month: int): int
  {
    if month == 2 then (if Leap(year) then 29 else 28)
    else if month == 4 || month == 6 || month == 9 || month == 11 then 30 else 31
  }

  predicate IsDate(d: Date) { 1 <= d.month <= 12 && 1 <= d.day <= DaysIn(d.year, d.month) }
  predicate IsTime(t: Time) { 0 <= t.hour < 24 && 0 <= t.minute < 60 && 0 <= t.second < 60 }

  function NextDay(d: Date): Date
    requires IsDate(d)
  {
    if d.day < DaysIn(d.year, d.month) then d.(day := d.day + 1)
    else if d.month < 12 then Date(d.year, d.month + 1, 1)
    else Date(d.year + 1, 1, 1)
  }

  predicate Before(a: Date, b: Date)
  {
    a.year < b.year || (a.year == b.year && (a.month < b.month || (a.month == b.month && a.day < b.day)))
  }

  predicate Earlier(a: Time, b: Time)
  {
    a.hour < b.hour || (a.hour == b.hour && (a.minute < b.minute || (a.minute == b.minute && a.second < b.second)))
  }

  // ---- The two computations --------------------------------------------------------------------

  /** Days from 1970-01-01. */
  function DaysFromCivil(d: Date): int
  {
    var y := d.year - (if d.month <= 2 then 1 else 0);
    var era := y / 400;
    var yoe := y - era * 400;
    var doy := (153 * (if d.month > 2 then d.month - 3 else d.month + 9) + 2) / 5 + d.day - 1;
    var doe := yoe * 365 + yoe / 4 - yoe / 100 + doy;
    era * 146_097 + doe - 719_468
  }

  function CivilFromDays(days: int): Date
  {
    var z := days + 719_468;
    var era := z / 146_097;
    var doe := z - era * 146_097;
    var yoe := YearOfEra(doe);
    var doy := doe - (365 * yoe + yoe / 4 - yoe / 100);
    var mp := (5 * doy + 2) / 153;
    var m := if mp < 10 then mp + 3 else mp - 9;
    Date(yoe + era * 400 + (if m <= 2 then 1 else 0), m, doy - (153 * mp + 2) / 5 + 1)
  }

  function YearOfEra(doe: int): int { (doe - doe / 1460 + doe / 36_524 - doe / 146_096) / 365 }

  function SecondsFor(d: Date, t: Time): int { DaysFromCivil(d) * DAY + t.hour * 3600 + t.minute * 60 + t.second }

  /** The setting, a 64-bit unsigned number: a date before 1970 wraps round. */
  function InitTimeFor(year: u16, month: byte, day: byte, hour: byte, minute: byte, second: byte): u64
  {
    SecondsFor(Date(year, month, day), Time(hour, minute, second)) % WRAP
  }

  /** What a clock record, in milliseconds since 1900, is shown as; one before 1970 is shown as 1970. */
  function Describe(ms: u64): (Date, Time)
  {
    var unix := (if ms < MS_1900_TO_1970 then 0 else ms - MS_1900_TO_1970) / 1000;
    var secs := unix % DAY;
    (CivilFromDays(unix / DAY), Time(secs / 3600, secs / 60 % 60, secs % 60))
  }

  // ---- Years that begin in March ---------------------------------------------------------------

  /** Days of an era before its year `yoe`, counting years from March. */
  function YearStart(yoe: int): int { 365 * yoe + yoe / 4 - yoe / 100 }

  /** Days of such a year before its month `mp`, March being 0. */
  function MonthStart(mp: int): int { (153 * mp + 2) / 5 }

  function MarchYear(d: Date): int { d.year - (if d.month <= 2 then 1 else 0) }
  function MarchMonth(d: Date): int { if d.month > 2 then d.month - 3 else d.month + 9 }
  function DayOfYear(d: Date): int { MonthStart(MarchMonth(d)) + d.day - 1 }

  /** The year that begins in March of `y` ends with February of `y + 1`. */
  function YearLength(y: int): int { if Leap(y + 1) then 366 else 365 }

  /** A date within its March year: months are whole, and the year is as long as it is. */
  lemma MonthsAreWhole(d: Date)
    requires 1 <= d.month <= 12
    ensures var mp := MarchMonth(d);
            && 0 <= mp <= 11
            && (d.month != 2 ==> MonthStart(mp) + DaysIn(d.year, d.month) == MonthStart(mp + 1))
            && (d.month == 2 ==> MonthStart(mp) + DaysIn(d.year, d.month) == YearLength(MarchYear(d)))
    ensures IsDate(d) ==> 0 <= DayOfYear(d) < YearLength(MarchYear(d))
  {
  }

  /** The month and day of a day of the year, and only those. */
  lemma MonthOfDay(doy: int, mp: int)
    requires 0 <= mp <= 11 && MonthStart(mp) <= doy < (if mp == 11 then 366 else MonthStart(mp + 1))
    ensures (5 * doy + 2) / 153 == mp
  {
  }

  lemma EveryDayHasAMonth(doy: int)
    requires 0 <= doy <= 365
    ensures var mp := (5 * doy + 2) / 153;
            0 <= mp <= 11 && MonthStart(mp) <= doy && (mp < 11 ==> doy < MonthStart(mp + 1))
  {
  }

  /** A year of the era by century, leap cycle and year of the cycle. */
  lemma YearParts(c: int, b: int, a: int)
    requires 0 <= c <= 3 && 0 <= b <= 24 && 0 <= a <= 3
    ensures YearStart(100 * c + 4 * b + a) == 36_524 * c + 1461 * b + 365 * a
    ensures Leap(100 * c + 4 * b + a + 1) <==> a == 3 && (b != 24 || c == 3)
  {
    var yoe := 100 * c + 4 * b + a;
    assert yoe / 4 == 25 * c + b;
    assert yoe / 100 == c;
    assert (yoe + 1) % 4 == 0 <==> a == 3;
    assert (yoe + 1) % 100 == 0 <==> a == 3 && b == 24;
    assert (yoe + 1) % 400 == 0 <==> a == 3 && b == 24 && c == 3;
  }

  /** The year of a day of the era: the corrections for leap days are exact. */
  lemma YearOfDay(c: int, b: int, a: int, doy: int)
    requires 0 <= c <= 3 && 0 <= b <= 24 && 0 <= a <= 3
    requires 0 <= doy < YearLength(100 * c + 4 * b + a)
    ensures var doe := YearStart(100 * c + 4 * b + a) + doy;
            0 <= doe < 146_097 && YearOfEra(doe) == 100 * c + 4 * b + a
  {
    YearParts(c, b, a);
    var doe := 36_524 * c + 1461 * b + 365 * a + doy;
    var rest := 24 * c + b + 365 * a + doy;
    var extra := if rest >= 1460 then 1 else 0;
    assert doe == 1460 * (25 * c + b) + rest;
    assert doe / 1460 == 25 * c + b + extra;
    assert doe / 36_524 - doe / 146_096 == c by {
      if doe < 146_096 {
        assert doe == 36_524 * c + (1461 * b + 365 * a + doy) && 1461 * b + 365 * a + doy < 36_524;
      }
    }
    assert doe - doe / 1460 + doe / 36_524 - doe / 146_096 == 365 * (100 * c + 4 * b + a) + (doy - extra);
  }

  /** Every day of an era is in one of its years. */
  lemma EveryDayHasAYear(doe: int) returns (c: int, b: int, a: int, doy: int)
    requires 0 <= doe < 146_097
    ensures 0 <= c <= 3 && 0 <= b <= 24 && 0 <= a <= 3 && 0 <= doy < YearLength(100 * c + 4 * b + a)
    ensures doe == YearStart(100 * c + 4 * b + a) + doy
  {
    c := if doe / 36_524 > 3 then 3 else doe / 36_524;
    var r := doe - 36_524 * c;
    b := r / 1461;
    var q := r - 1461 * b;
    a := if q / 365 > 3 then 3 else q / 365;
    doy := q - 365 * a;
    YearParts(c, b, a);
  }

  lemma SplitYear(yoe: int) returns (c: int, b: int, a: int)
    requires 0 <= yoe < 400
    ensures 0 <= c <= 3 && 0 <= b <= 24 && 0 <= a <= 3 && yoe == 100 * c + 4 * b + a
  {
    c := yoe / 100;
    b := yoe % 100 / 4;
    a := yoe % 4;
  }

  lemma LeapRepeats(era: int, yoe: int)
    ensures Leap(400 * era + yoe) == Leap(yoe)
  {
    RemainderOf4(400 * era + yoe, 100 * era + yoe / 4, yoe % 4);
    RemainderOf100(400 * era + yoe, 4 * era + yoe / 100, yoe % 100);
    RemainderOf400(400 * era + yoe, era + yoe / 400, yoe % 400);
  }

  lemma RemainderOf4(n: int, q: int, r: int)
    requires n == 4 * q + r && 0 <= r < 4
    ensures n % 4 == r
  {
  }

  lemma RemainderOf100(n: int, q: int, r: int)
    requires n == 100 * q + r && 0 <= r < 100
    ensures n % 100 == r
  {
  }

  lemma RemainderOf400(n: int, q: int, r: int)
    requires n == 400 * q + r && 0 <= r < 400
    ensures n % 400 == r
  {
  }

  // ---- Round trips -----------------------------------------------------------------------------

  /** The two computations in terms of an era, a year of it and a day of that. */
  lemma CivilIs(days: int, era: int, yoe: int, doy: int)
    requires days + 719_468 == era * 146_097 + YearStart(yoe) + doy
    requires 0 <= YearStart(yoe) + doy < 146_097 && YearOfEra(YearStart(yoe) + doy) == yoe
    ensures var mp := (5 * doy + 2) / 153;
            var m := if mp < 10 then mp + 3 else mp - 9;
            CivilFromDays(days) == Date(yoe + era * 400 + (if m <= 2 then 1 else 0), m, doy - MonthStart(mp) + 1)
  {
    hide YearOfEra;
    EraOf(era, YearStart(yoe) + doy);
  }

  lemma EraOf(era: int, doe: int)
    requires 0 <= doe < 146_097
    ensures (era * 146_097 + doe) / 146_097 == era
  {
  }

  lemma DaysAre(d: Date, era: int, yoe: int)
    requires MarchYear(d) == 400 * era + yoe && 0 <= yoe < 400
    ensures DaysFromCivil(d) + 719_468 == era * 146_097 + YearStart(yoe) + DayOfYear(d)
  {
    assert (400 * era + yoe) / 400 == era;
  }

  /** Every date, in any year, comes back. */
  lemma DateComesBack(d: Date)
    requires IsDate(d)
    ensures CivilFromDays(DaysFromCivil(d)) == d
  {
    hide YearOfEra, Leap, YearStart, CivilFromDays, DaysFromCivil;
    var y, doy := MarchYear(d), DayOfYear(d);
    var era := y / 400;
    var yoe := y - era * 400;
    MonthsAreWhole(d);
    LeapRepeats(era, yoe + 1);
    var c, b, a := SplitYear(yoe);
    YearOfDay(c, b, a, doy);
    DaysAre(d, era, yoe);
    CivilIs(DaysFromCivil(d), era, yoe, doy);
    MonthOfDay(doy, MarchMonth(d));
  }

  /** Every number of days is a date's, the one it is shown as. */
  lemma DaysComeBack(days: int)
    ensures IsDate(CivilFromDays(days)) && DaysFromCivil(CivilFromDays(days)) == days
  {
    hide YearOfEra, Leap, YearStart, CivilFromDays, DaysFromCivil;
    var z := days + 719_468;
    var era := z / 146_097;
    var c, b, a, doy := EveryDayHasAYear(z - era * 146_097);
    var yoe := 100 * c + 4 * b + a;
    YearOfDay(c, b, a, doy);
    CivilIs(days, era, yoe, doy);
    EveryDayHasAMonth(doy);
    var d := CivilFromDays(days);
    LeapRepeats(era, yoe + 1);
    MonthsAreWhole(d);
    DaysAre(d, era, yoe);
  }

  // ---- Order -----------------------------------------------------------------------------------

  /** Days before the year that begins in March of `y`, from the one of year 0. */
  function DaysBefore(y: int): int { 365 * y + y / 4 - y / 100 + y / 400 }

  lemma DaysByYear(d: Date)
    ensures DaysFromCivil(d) == DaysBefore(MarchYear(d)) + DayOfYear(d) - 719_468
  {
    var y := MarchYear(d);
    var era := y / 400;
    var yoe := y - era * 400;
    assert y / 4 == 100 * era + yoe / 4;
    assert y / 100 == 4 * era + yoe / 100;
  }

  lemma YearStep(y: int)
    ensures DaysBefore(y + 1) == DaysBefore(y) + YearLength(y)
  {
    assert (y + 1) / 4 == y / 4 + (if (y + 1) % 4 == 0 then 1 else 0);
    assert (y + 1) / 100 == y / 100 + (if (y + 1) % 100 == 0 then 1 else 0);
    assert (y + 1) / 400 == y / 400 + (if (y + 1) % 400 == 0 then 1 else 0);
    assert (y + 1) % 400 == 0 ==> (y + 1) % 100 == 0;
    assert (y + 1) % 100 == 0 ==> (y + 1) % 4 == 0;
  }

  lemma {:induction false} YearsAccumulate(a: int, b: int)
    requires a < b
    ensures DaysBefore(a) + YearLength(a) <= DaysBefore(b)
    decreases b - a
  {
    hide DaysBefore, YearLength;
    YearStep(a);
    if a + 1 < b {
      YearsAccumulate(a + 1, b);
      YearLengthPositive(a + 1);
    }
  }

  lemma YearLengthPositive(y: int)
    ensures YearLength(y) > 0
  {
  }

  /** Consecutive days are a day apart. */
  lemma NextDayIsNext(d: Date)
    requires IsDate(d)
    ensures IsDate(NextDay(d)) && DaysFromCivil(NextDay(d)) == DaysFromCivil(d) + 1
    ensures forall t :: SecondsFor(NextDay(d), t) == SecondsFor(d, t) + DAY
  {
    hide DaysBefore, DaysFromCivil, Leap;
    DaysByYear(d);
    DaysByYear(NextDay(d));
    MonthsAreWhole(d);
    YearStep(MarchYear(d));
  }

  lemma DaysAreOrdered(a: Date, b: Date)
    requires IsDate(a) && IsDate(b) && Before(a, b)
    ensures DaysFromCivil(a) < DaysFromCivil(b)
  {
    hide DaysBefore, DaysFromCivil, Leap;
    DaysByYear(a);
    DaysByYear(b);
    MonthsAreWhole(a);
    MonthsAreWhole(b);
    if MarchYear(a) < MarchYear(b) {
      YearsAccumulate(MarchYear(a), MarchYear(b));
    }
  }

  /** Seconds grow with the date and time, and with nothing else. */
  lemma SecondsAreOrdered(a: Date, t: Time, b: Date, u: Time)
    requires IsDate(a) && IsDate(b) && IsTime(t) && IsTime(u)
    ensures SecondsFor(a, t) < SecondsFor(b, u) <==> Before(a, b) || (a == b && Earlier(t, u))
  {
    hide DaysFromCivil, IsDate;
    if Before(a, b) {
      DaysAreOrdered(a, b);
    } else if Before(b, a) {
      DaysAreOrdered(b, a);
    } else {
      assert a == b;
    }
  }

  // ---- The setting and what the clock shows ----------------------------------------------------

  const EPOCH := Date(1970, 1, 1)
  const MIDNIGHT := Time(0, 0, 0)

  lemma EpochIsZero()
    ensures SecondsFor(EPOCH, MIDNIGHT) == 0
  {
  }

  lemma SinceEpoch(d: Date, t: Time)
    requires IsDate(d) && IsTime(t)
    ensures SecondsFor(d, t) >= 0 <==> d.year >= 1970
  {
    hide DaysFromCivil, SecondsFor, IsDate;
    EpochIsZero();
    assert IsDate(EPOCH) by { assert DaysIn(1970, 1) == 31; EpochIsDate(); }
    SecondsAreOrdered(d, t, EPOCH, MIDNIGHT);
    NotBeforeEpoch(d);
  }

  lemma EpochIsDate()
    ensures IsDate(EPOCH)
  {
  }

  lemma NotBeforeEpoch(d: Date)
    requires IsDate(d)
    ensures Before(d, EPOCH) <==> d.year < 1970
  {
  }

  /** No 16-bit year is so far off that its seconds do not fit. */
  lemma SecondsFit(d: Date, t: Time)
    requires IsDate(d) && IsTime(t) && 0 <= d.year < 0x1_0000
    ensures -WRAP < SecondsFor(d, t) < WRAP
  {
    hide Leap;
    MonthsAreWhole(d);
    DaysByYear(d);
  }

  /** The setting is the date's seconds exactly for dates of 1970 or later; an earlier one is as many
      short of 2^64. */
  lemma SettingIsExact(year: u16, month: byte, day: byte, hour: byte, minute: byte, second: byte)
    requires IsDate(Date(year, month, day)) && IsTime(Time(hour, minute, second))
    ensures var seconds := SecondsFor(Date(year, month, day), Time(hour, minute, second));
            var setting := InitTimeFor(year, month, day, hour, minute, second);
            && (setting == seconds <==> year >= 1970)
            && (year < 1970 ==> setting == seconds + WRAP)
  {
    hide SecondsFor, IsDate, IsTime;
    var d, t := Date(year, month, day), Time(hour, minute, second);
    SinceEpoch(d, t);
    SecondsFit(d, t);
    WrapIs(SecondsFor(d, t));
  }

  lemma WrapIs(n: int)
    requires -WRAP < n < WRAP
    ensures n % WRAP == if n < 0 then n + WRAP else n
  {
  }

  /** Setting the clock and reading it shows the date and time set, exactly for 1970 or later: a record
      of an earlier moment since 1900 is shown as 1970-01-01 00:00:00. */
  lemma ClockShowsTheSetting(d: Date, t: Time)
    requires IsDate(d) && IsTime(t)
    requires 0 <= SecondsFor(d, t) * 1000 + MS_1900_TO_1970 < WRAP
    ensures var shown := Describe(SecondsFor(d, t) * 1000 + MS_1900_TO_1970);
            && (shown == (d, t) <==> d.year >= 1970)
            && (d.year < 1970 ==> shown == (EPOCH, MIDNIGHT))
  {
    hide DaysFromCivil, CivilFromDays, IsDate;
    SinceEpoch(d, t);
    var seconds := SecondsFor(d, t);
    if d.year >= 1970 {
      DateComesBack(d);
      TimeComesBack(DaysFromCivil(d), t);
    } else {
      ShownAsEpoch();
    }
  }

  lemma ShownAsEpoch()
    ensures CivilFromDays(0) == EPOCH
  {
    hide CivilFromDays;
    EpochIsZero();
    DateComesBack(EPOCH);
  }

  lemma TimeComesBack(days: int, t: Time)
    requires IsTime(t)
    ensures var n := days * DAY + t.hour * 3600 + t.minute * 60 + t.second;
            && n / DAY == days
            && n % DAY / 3600 == t.hour && n % DAY / 60 % 60 == t.minute && n % DAY % 60 == t.second
  {
    var within := t.hour * 3600 + t.minute * 60 + t.second;
    assert (days * DAY + within) / DAY == days && (days * DAY + within) % DAY == within;
    assert within / 60 == t.hour * 60 + t.minute;
  }

  /** The other way: whatever record is shown, setting what is shown gives the record's second. */
  lemma ShownIsSet(ms: u64)
    requires ms >= MS_1900_TO_1970
    ensures var (d, t) := Describe(ms);
            && IsDate(d) && IsTime(t)
            && SecondsFor(d, t) * 1000 + MS_1900_TO_1970 == ms - (ms - MS_1900_TO_1970) % 1000
  {
    hide DaysFromCivil, CivilFromDays, IsDate;
    var unix := (ms - MS_1900_TO_1970) / 1000;
    DaysComeBack(unix / DAY);
    var secs := unix % DAY;
    assert secs == secs / 3600 * 3600 + secs / 60 % 60 * 60 + secs % 60;
  }
}

/** The proleptic Gregorian calendar in UTC: the date and time of a millisecond count, and back. */
module Calendar {
  datatype DateTime = DateTime(
    year: int, month: int, day: int, hour: int, minute: int, second: int, millisecond: int)

  const EPOCH_YEAR: int := 1970
  const MILLIS_PER_DAY: int := 86_400_000

  predicate IsLeap(year: int) {
    year % 4 == 0 && (year % 100 != 0 || year % 400 == 0)
  }

  /** Leap years from 1 up to `year`, not counting it. */
  function LeapsBefore(year: int): int {
    (year - 1) / 4 - (year - 1) / 100 + (year - 1) / 400
  }

  /** Days from the epoch to the first day of a year. */
  function DaysBeforeYear(year: int): int {
    365 * (year - EPOCH_YEAR) + LeapsBefore(year) - LeapsBefore(EPOCH_YEAR)
  }

  /** Days from the first of January to the first of a month; the 13th month is the next year. */
  function DaysBeforeMonth(leap: bool, month: int): int
    requires 1 <= month <= 13
  {
    var extra := if leap && month > 2 then 1 else 0;
    extra + [0, 31, 59, 90, 120, 151, 181, 212, 243, 273, 304, 334, 365][month - 1]
  }

  lemma StepFour(year: int)
    ensures year / 4 - (year - 1) / 4 == if year % 4 == 0 then 1 else 0
  {
  }

  lemma StepHundred(year: int)
    ensures year / 100 - (year - 1) / 100 == if year % 100 == 0 then 1 else 0
  {
    var q, r := (year - 1) / 100, (year - 1) % 100;
    assert year == 100 * q + r + 1;
  }

  lemma StepFourHundred(year: int)
    ensures year / 400 - (year - 1) / 400 == if year % 400 == 0 then 1 else 0
  {
    var q, r := (year - 1) / 400, (year - 1) % 400;
    assert year == 400 * q + r + 1;
  }

  lemma Multiples(year: int)
    ensures year % 100 == 0 ==> year % 4 == 0
    ensures year % 400 == 0 ==> year % 100 == 0
  {
    assert year % 100 == 0 ==> year == 4 * (25 * (year / 100));
    assert year % 400 == 0 ==> year == 100 * (4 * (year / 400));
  }

  lemma YearLength(year: int)
    ensures DaysBeforeYear(year + 1) - DaysBeforeYear(year) == DaysBeforeMonth(IsLeap(year), 13)
  {
    StepFour(year);
    StepHundred(year);
    StepFourHundred(year);
    Multiples(year);
    LeapStep(year, year / 4, (year - 1) / 4, year / 100, (year - 1) / 100, year / 400, (year - 1) / 400);
  }

  lemma LeapStep(year: int, a: int, a': int, b: int, b': int, d: int, d': int)
    requires LeapsBefore(year) == a' - b' + d' && LeapsBefore(year + 1) == a - b + d
    requires a - a' == (if year % 4 == 0 then 1 else 0) && b - b' == (if year % 100 == 0 then 1 else 0)
    requires d - d' == (if year % 400 == 0 then 1 else 0)
    requires (year % 100 == 0 ==> year % 4 == 0) && (year % 400 == 0 ==> year % 100 == 0)
    ensures LeapsBefore(year + 1) - LeapsBefore(year) == if IsLeap(year) then 1 else 0
  {
  }

  lemma {:induction false} YearsGrow(a: int, b: int)
    requires a <= b
    ensures DaysBeforeYear(a) + 365 * (b - a) <= DaysBeforeYear(b)
    decreases b - a
  {
    if a < b {
      YearsGrow(a, b - 1);
      YearLength(b - 1);
    }
  }

  /** The year a day since the epoch lies in. */
  function YearOf(days: nat): int {
    YearFrom(EPOCH_YEAR, days)
  }

  function YearFrom(year: int, days: int): (r: int)
    requires DaysBeforeYear(year) <= days
    ensures year <= r && DaysBeforeYear(r) <= days < DaysBeforeYear(r + 1)
    decreases days - DaysBeforeYear(year)
  {
    YearLength(year);
    if days < DaysBeforeYear(year + 1) then year else YearFrom(year + 1, days)
  }

  function MonthFrom(leap: bool, month: int, day: int): (r: int)
    requires 1 <= month <= 12 && DaysBeforeMonth(leap, month) <= day < DaysBeforeMonth(leap, 13)
    ensures month <= r <= 12 && DaysBeforeMonth(leap, r) <= day < DaysBeforeMonth(leap, r + 1)
    decreases 12 - month
  {
    if day < DaysBeforeMonth(leap, month + 1) then month else MonthFrom(leap, month + 1, day)
  }

  /** A date of the calendar. */
  predicate IsDate(t: DateTime) {
    && 1 <= t.month <= 12
    && 1 <= t.day <= DaysBeforeMonth(IsLeap(t.year), t.month + 1) - DaysBeforeMonth(IsLeap(t.year), t.month)
    && 0 <= t.hour < 24 && 0 <= t.minute < 60 && 0 <= t.second < 60 && 0 <= t.millisecond < 1000
  }

  function DateOf(millis: nat): (t: DateTime)
    ensures IsDate(t) && t.year >= EPOCH_YEAR
  {
    var year := YearOf(millis / MILLIS_PER_DAY);
    YearLength(year);
    var day := millis / MILLIS_PER_DAY - DaysBeforeYear(year);
    var month := MonthFrom(IsLeap(year), 1, day);
    var seconds := millis % MILLIS_PER_DAY / 1000;
    var minutes := seconds / 60;
    DateTime(year, month, day - DaysBeforeMonth(IsLeap(year), month) + 1,
             minutes / 60, minutes % 60, seconds % 60, millis % MILLIS_PER_DAY % 1000)
  }

  function MillisOf(t: DateTime): int
    requires IsDate(t)
  {
    (DaysBeforeYear(t.year) + DaysBeforeMonth(IsLeap(t.year), t.month) + t.day - 1) * MILLIS_PER_DAY
    + ((t.hour * 60 + t.minute) * 60 + t.second) * 1000 + t.millisecond
  }

  /** A date names its millisecond count: no two counts share a date. */
  lemma MillisInvertsDate(millis: nat)
    ensures MillisOf(DateOf(millis)) == millis
  {
    var day := millis / MILLIS_PER_DAY - DaysBeforeYear(DateOf(millis).year);
    assert DaysBeforeMonth(IsLeap(DateOf(millis).year), DateOf(millis).month) + DateOf(millis).day - 1 == day;
    ClockAdds(millis % MILLIS_PER_DAY);
  }

  lemma ClockAdds(rest: nat)
    ensures var seconds := rest / 1000;
            ((seconds / 60 / 60 * 60 + seconds / 60 % 60) * 60 + seconds % 60) * 1000 + rest % 1000 == rest
  {
  }

  /** A year is found by its first day and the next year's. */
  lemma YearIs(days: nat, year: int)
    requires DaysBeforeYear(year) <= days < DaysBeforeYear(year + 1)
    ensures YearOf(days) == year
  {
    var found := YearOf(days);
    if found < year { YearsGrow(found + 1, year); }
    if year < found { YearsGrow(year + 1, found); }
  }

  lemma WholeDays(days: nat)
    ensures days * MILLIS_PER_DAY / MILLIS_PER_DAY == days && days * MILLIS_PER_DAY % MILLIS_PER_DAY == 0
  {
  }

  /** Every year begins on its first of January. */
  lemma NewYear(year: int)
    requires year >= EPOCH_YEAR
    ensures DaysBeforeYear(year) >= 0
    ensures DateOf(DaysBeforeYear(year) * MILLIS_PER_DAY) == DateTime(year, 1, 1, 0, 0, 0, 0)
  {
    YearsGrow(EPOCH_YEAR, year);
    YearLength(year);
    YearIs(DaysBeforeYear(year), year);
    WholeDays(DaysBeforeYear(year));
  }

  /** The length of a month, said without the running table. */
  function DaysInMonth(year: int, month: int): int {
    if month == 2 then (if (year % 4 == 0 && year % 100 != 0) || year % 400 == 0 then 29 else 28)
    else if month in {4, 6, 9, 11} then 30
    else 31
  }

  lemma MonthLength(year: int, month: int)
    requires 1 <= month <= 12
    ensures DaysBeforeMonth(IsLeap(year), month + 1) - DaysBeforeMonth(IsLeap(year), month) == DaysInMonth(year, month)
    ensures DaysBeforeMonth(IsLeap(year), 1) == 0
  {
  }

  /** The next day at the same time, by the lengths of the months. */
  function Tomorrow(t: DateTime): DateTime {
    if t.day < DaysInMonth(t.year, t.month) then t.(day := t.day + 1)
    else if t.month < 12 then t.(month := t.month + 1, day := 1)
    else t.(year := t.year + 1, month := 1, day := 1)
  }

  lemma {:induction false} MonthsGrow(leap: bool, a: int, b: int)
    requires 1 <= a <= b <= 13
    ensures DaysBeforeMonth(leap, a) <= DaysBeforeMonth(leap, b)
    decreases b - a
  {
    if a < b {
      MonthsGrow(leap, a, b - 1);
    }
  }

  /** A month is found by its first day and the next month's. */
  lemma MonthIs(leap: bool, day: int, month: int)
    requires 1 <= month <= 12 && DaysBeforeMonth(leap, month) <= day < DaysBeforeMonth(leap, month + 1)
    requires 0 <= day < DaysBeforeMonth(leap, 13)
    ensures MonthFrom(leap, 1, day) == month
  {
    var found := MonthFrom(leap, 1, day);
    if found < month { MonthsGrow(leap, found + 1, month); }
    if month < found { MonthsGrow(leap, month + 1, found); }
  }

  /** A date is found by any year and month its day lies in. */
  lemma DateIs(millis: nat, t: DateTime)
    requires IsDate(t) && t.year >= EPOCH_YEAR
    requires DaysBeforeYear(t.year) + DaysBeforeMonth(IsLeap(t.year), t.month) + t.day - 1 == millis / MILLIS_PER_DAY
    requires ((t.hour * 60 + t.minute) * 60 + t.second) * 1000 + t.millisecond == millis % MILLIS_PER_DAY
    ensures DateOf(millis) == t
  {
    var leap := IsLeap(t.year);
    var day := DaysBeforeMonth(leap, t.month) + t.day - 1;
    YearLength(t.year);
    MonthsGrow(leap, 1, t.month);
    MonthsGrow(leap, t.month + 1, 13);
    YearIs(millis / MILLIS_PER_DAY, t.year);
    MonthIs(leap, day, t.month);
    ClockIs(millis % MILLIS_PER_DAY, t.hour, t.minute, t.second, t.millisecond);
  }

  lemma ClockIs(rest: int, hour: int, minute: int, second: int, millisecond: int)
    requires 0 <= minute < 60 && 0 <= second < 60 && 0 <= millisecond < 1000 && 0 <= hour < 24
    requires ((hour * 60 + minute) * 60 + second) * 1000 + millisecond == rest
    ensures rest % 1000 == millisecond && rest / 1000 % 60 == second
    ensures rest / 1000 / 60 % 60 == minute && rest / 1000 / 60 / 60 == hour
  {
    assert rest / 1000 == (hour * 60 + minute) * 60 + second;
    assert rest / 1000 / 60 == hour * 60 + minute;
  }

  lemma TomorrowIsDate(t: DateTime)
    requires IsDate(t)
    ensures var u := Tomorrow(t);
            && IsDate(u)
            && DaysBeforeYear(u.year) + DaysBeforeMonth(IsLeap(u.year), u.month) + u.day
               == DaysBeforeYear(t.year) + DaysBeforeMonth(IsLeap(t.year), t.month) + t.day + 1
  {
    MonthLength(t.year, t.month);
    var u := Tomorrow(t);
    MonthLength(u.year, u.month);
    YearLength(t.year);
  }

  /** One day later is the calendar's next day, at the same time of day. */
  lemma DayAfter(millis: nat)
    ensures DateOf(millis + 86_400_000) == Tomorrow(DateOf(millis))
  {
    var t := DateOf(millis);
    MillisInvertsDate(millis);
    NextDay(millis);
    TomorrowIsDate(t);
    DateParts(millis);
    DateIs(millis + MILLIS_PER_DAY, Tomorrow(t));
  }

  lemma NextDay(millis: nat)
    ensures (millis + MILLIS_PER_DAY) / MILLIS_PER_DAY == millis / MILLIS_PER_DAY + 1
    ensures (millis + MILLIS_PER_DAY) % MILLIS_PER_DAY == millis % MILLIS_PER_DAY
  {
  }

  /** The day and the time of day of a date. */
  lemma DateParts(millis: nat)
    ensures var t := DateOf(millis);
            && DaysBeforeYear(t.year) + DaysBeforeMonth(IsLeap(t.year), t.month) + t.day - 1 == millis / MILLIS_PER_DAY
            && ((t.hour * 60 + t.minute) * 60 + t.second) * 1000 + t.millisecond == millis % MILLIS_PER_DAY
  {
    ClockAdds(millis % MILLIS_PER_DAY);
  }

  /** The first day; with `DayAfter` this determines every date. */
  lemma FirstDay(millis: nat)
    requires millis < 86_400_000
    ensures DateOf(millis) == DateTime(1970, 1, 1, millis / 3_600_000, millis / 60_000 % 60, millis / 1000 % 60, millis % 1000)
  {
    DivisionsNest(millis);
    assert DaysBeforeYear(1970) == 0 && DaysBeforeYear(1971) == 365;
    YearIs(0, 1970);
    MonthIs(false, 0, 1);
  }

  lemma DivisionsNest(millis: nat)
    ensures millis / 1000 / 60 == millis / 60_000 && millis / 1000 / 60 / 60 == millis / 3_600_000
  {
  }

  /** 2000-01-01 and 2100-01-01. */
  const MILLENNIUM: nat := 946_684_800_000
  const CENTURY_END: nat := 4_102_444_800_000

  /** The years two digits can name are those counts. */
  lemma CenturyOf(millis: nat)
    ensures 2000 <= DateOf(millis).year <= 2099 <==> MILLENNIUM <= millis < CENTURY_END
  {
    var days := millis / MILLIS_PER_DAY;
    var year := YearOf(days);
    assert DaysBeforeYear(2000) == 10957 && DaysBeforeYear(2100) == 47482;
    if year < 2000 { YearsGrow(year + 1, 2000); } else { YearsGrow(2000, year); }
    if year < 2100 { YearsGrow(year + 1, 2100); } else { YearsGrow(2100, year); }
  }
}

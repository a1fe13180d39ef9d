/** The calendar behind every record's `created` and `updated` date (`record.rs`). */
module Calendar {

  datatype Date = Date(year: int, month: int, day: int)

  // ---- The calendar as RFC 3339 states it -----------------------------------

  /** The leap-year rule of Appendix C of RFC 3339. */
  predicate Leap(year: int) { year % 4 == 0 && (year % 100 != 0 || year % 400 == 0) }

  function DaysIn(year: int, month: int): int {
    if month == 2 then (if Leap(year) then 29 else 28)
    else if month == 4 || month == 6 || month == 9 || month == 11 then 30
    else 31
  }

  predicate ValidDate(date: Date) {
    1 <= date.month <= 12 && 1 <= date.day <= DaysIn(date.year, date.month)
  }

  /** Tomorrow. */
  function Next(date: Date): Date {
    if date.day < DaysIn(date.year, date.month) then date.(day := date.day + 1)
    else if date.month < 12 then Date(date.year, date.month + 1, 1)
    else Date(date.year + 1, 1, 1)
  }

  // ---- The arithmetic the store uses ----------------------------------------

  const DAYS_PER_ERA := 146_097

  function YearOfEra(doe: int): int {
    (doe - doe / 1460 + doe / 36_524 - doe / 146_096) / 365
  }

  /** Days from the start of the era to the first of March of a year in it. */
  function YearStart(yoe: int): int { 365 * yoe + yoe / 4 - yoe / 100 }

  /** The date of day `doy` of the March-based year that starts in `year`. */
  function DateInYear(year: int, doy: int): Date {
    var mp := (5 * doy + 2) / 153;
    var day := doy - (153 * mp + 2) / 5 + 1;
    var month := if mp < 10 then mp + 3 else mp - 9;
    Date(if month <= 2 then year + 1 else year, month, day)
  }

  function DateInEra(base: int, doe: int): Date {
    var yoe := YearOfEra(doe);
    DateInYear(yoe + base, doe - YearStart(yoe))
  }

  /** Days since 1970-01-01 to a proleptic Gregorian date. */
  function CivilFromDays(days: int): Date {
    var z := days + 719_468;
    DateInEra(z / DAYS_PER_ERA * 400, z % DAYS_PER_ERA)
  }

  /** The day count of a date, by counting whole years and then whole months:
      an independent definition, with no use of eras. */
  function DayNumber(date: Date): int {
    DaysBeforeYear(date.year) + DaysBeforeMonth(date.year, date.month) + date.day - 1 - 719_162
  }

  /** Days from 0001-01-01 to the first day of a year. */
  function DaysBeforeYear(year: int): int {
    365 * (year - 1) + (year - 1) / 4 - (year - 1) / 100 + (year - 1) / 400
  }

  function DaysBeforeMonth(year: int, month: int): int
    decreases month
  {
    if month <= 1 then 0 else DaysBeforeMonth(year, month - 1) + DaysIn(year, month - 1)
  }

  // ---- The year of the era --------------------------------------------------

  /** Days of the March-based year `yoe`: its last day is in February of the next. */
  function YearLength(yoe: int): int { if Leap(yoe + 1) then 366 else 365 }

  /** Day `d` of year `y` of cycle `q` of century `c`. */
  lemma YearOfEraIs(c: int, q: int, y: int, d: int)
    requires 0 <= c < 4 && 0 <= q < 25 && 0 <= y < 4 && 0 <= d
    requires d < 365 || (d == 365 && y == 3 && (q < 24 || c == 3))
    ensures var doe := 36_524 * c + 1461 * q + 365 * y + d;
            && YearOfEra(doe) == 100 * c + 4 * q + y
            && YearStart(100 * c + 4 * q + y) == doe - d
  {
    var doe := 36_524 * c + 1461 * q + 365 * y + d;
    var yoe := 100 * c + 4 * q + y;
    assert yoe / 4 == 25 * c + q && yoe / 100 == c;
    var e := if 24 * c + q + 365 * y + d < 1460 then 0 else 1;
    var last := if doe == 146_096 then 1 else 0;
    assert doe / 1460 == 25 * c + q + e;
    assert doe / 36_524 == c + last;
    assert doe / 146_096 == last;
    assert (365 * yoe + d - e) / 365 == yoe;
  }

  lemma YearLengthIs(c: int, q: int, y: int)
    requires 0 <= c < 4 && 0 <= q < 25 && 0 <= y < 4
    ensures YearLength(100 * c + 4 * q + y) == if y == 3 && (q < 24 || c == 3) then 366 else 365
  {
    var next := 100 * c + 4 * q + y + 1;
    assert next % 4 == (y + 1) % 4;
    assert next % 100 == (4 * q + y + 1) % 100;
  }

  /** Every day of an era lies inside the March-based year its formula names. */
  lemma YearOfEraIsExact(doe: int)
    requires 0 <= doe < DAYS_PER_ERA
    ensures 0 <= YearOfEra(doe) < 400
    ensures 0 <= doe - YearStart(YearOfEra(doe)) < YearLength(YearOfEra(doe))
  {
    hide YearOfEra, YearStart, Leap;
    var c := if doe / 36_524 < 4 then doe / 36_524 else 3;
    var inCentury := doe - 36_524 * c;
    var q := inCentury / 1461;
    var inCycle := inCentury % 1461;
    var y := if inCycle / 365 < 4 then inCycle / 365 else 3;
    YearOfEraIs(c, q, y, inCycle - 365 * y);
    YearLengthIs(c, q, y);
  }

  /** The formula finds the year of any day placed inside one. */
  lemma YearOfEraFinds(yoe: int, doy: int)
    requires 0 <= yoe < 400 && 0 <= doy < YearLength(yoe)
    ensures YearOfEra(YearStart(yoe) + doy) == yoe
    ensures 0 <= YearStart(yoe) + doy < DAYS_PER_ERA
  {
    var c, q, y := yoe / 100, yoe % 100 / 4, yoe % 4;
    assert yoe == 100 * c + 4 * q + y;
    YearLengthIs(c, q, y);
    YearOfEraIs(c, q, y, doy);
  }

  lemma YearStartsMeet(yoe: int)
    requires 0 <= yoe < 400
    ensures YearStart(yoe) + YearLength(yoe) == if yoe == 399 then DAYS_PER_ERA else YearStart(yoe + 1)
  {
    hide YearOfEra, Leap;
    var c, q, y := yoe / 100, yoe % 100 / 4, yoe % 4;
    assert yoe == 100 * c + 4 * q + y;
    YearLengthIs(c, q, y);
    YearOfEraIs(c, q, y, 0);
  }

  // ---- Days of the year -----------------------------------------------------

  /** The next day of a March-based year, or the first of March of the next one. */
  lemma DateInYearStep(year: int, doy: int)
    requires 0 <= doy < if Leap(year + 1) then 366 else 365
    ensures ValidDate(DateInYear(year, doy))
    ensures Next(DateInYear(year, doy)) ==
            if doy + 1 < (if Leap(year + 1) then 366 else 365) then DateInYear(year, doy + 1)
            else DateInYear(year + 1, 0)
  {
  }

  /** Years whose number differs by whole eras follow the same leap rule. */
  lemma LeapInEra(year: int, era: int)
    ensures Leap(year + 400 * era) == Leap(year)
  {
    var q := year / 400 + era;
    assert year + 400 * era == 400 * q + year % 400;
    LeapOfRemainder(q, year % 400);
    LeapOfRemainder(year / 400, year % 400);
  }

  lemma LeapOfRemainder(q: int, r: int)
    requires 0 <= r < 400
    ensures Leap(400 * q + r) == Leap(r)
  {
    assert (400 * q + r) % 400 == r;
    assert (400 * q + r) / 4 == 100 * q + r / 4;
    assert (400 * q + r) / 100 == 4 * q + r / 100;
  }

  // ---- Main results ---------------------------------------------------------

  /** A day, given as day `doy` of year `yoe` of an era, gets that day's date. */
  lemma CivilIs(days: int, era: int, yoe: int, doy: int)
    requires 0 <= yoe < 400 && 0 <= doy < YearLength(yoe)
    requires days + 719_468 == DAYS_PER_ERA * era + YearStart(yoe) + doy
    ensures CivilFromDays(days) == DateInYear(yoe + 400 * era, doy)
  {
    YearOfEraFinds(yoe, doy);
    assert (days + 719_468) / DAYS_PER_ERA == era;
  }

  lemma StepIs(year: int, doy: int, today: Date, tomorrow: Date)
    requires 0 <= doy < if Leap(year + 1) then 366 else 365
    requires today == DateInYear(year, doy)
    requires tomorrow == if doy + 1 < (if Leap(year + 1) then 366 else 365) then DateInYear(year, doy + 1)
                         else DateInYear(year + 1, 0)
    ensures ValidDate(today) && tomorrow == Next(today)
  {
    DateInYearStep(year, doy);
  }

  /** Every day is some day of some March-based year. */
  lemma Locate(days: int) returns (era: int, yoe: int, doy: int)
    ensures 0 <= yoe < 400 && 0 <= doy < YearLength(yoe)
    ensures days + 719_468 == DAYS_PER_ERA * era + YearStart(yoe) + doy
  {
    era := (days + 719_468) / DAYS_PER_ERA;
    var doe := (days + 719_468) % DAYS_PER_ERA;
    yoe := YearOfEra(doe);
    doy := doe - YearStart(yoe);
    YearOfEraIsExact(doe);
  }

  lemma TomorrowIs(days: int, era: int, yoe: int, doy: int)
    requires 0 <= yoe < 400 && 0 <= doy < YearLength(yoe)
    requires days + 719_468 == DAYS_PER_ERA * era + YearStart(yoe) + doy
    ensures CivilFromDays(days + 1) ==
            if doy + 1 < YearLength(yoe) then DateInYear(yoe + 400 * era, doy + 1)
            else DateInYear(yoe + 400 * era + 1, 0)
  {
    hide CivilFromDays, YearStart, YearLength, DateInYear;
    YearStartsMeet(yoe);
    if doy + 1 < YearLength(yoe) {
      CivilIs(days + 1, era, yoe, doy + 1);
    } else if yoe < 399 {
      LengthIsPositive(yoe + 1);
      CivilIs(days + 1, era, yoe + 1, 0);
      assert yoe + 400 * era + 1 == yoe + 1 + 400 * era;
    } else {
      LengthIsPositive(0);
      EraStarts();
      CivilIs(days + 1, era + 1, 0, 0);
      assert yoe + 400 * era + 1 == 0 + 400 * (era + 1);
    }
  }

  lemma LengthIsPositive(yoe: int)
    ensures 0 < YearLength(yoe)
  {
  }

  lemma EraStarts()
    ensures YearStart(0) == 0
  {
  }

  /** Successive days get successive dates, and every one of them is a date. */
  lemma SuccessiveDays(days: int)
    ensures ValidDate(CivilFromDays(days))
    ensures CivilFromDays(days + 1) == Next(CivilFromDays(days))
  {
    hide CivilFromDays, DateInYear, Next, ValidDate, YearStart, Leap;
    var era, yoe, doy := Locate(days);
    CivilIs(days, era, yoe, doy);
    TomorrowIs(days, era, yoe, doy);
    LeapInEra(yoe + 1, era);
    assert yoe + 400 * era + 1 == yoe + 1 + 400 * era;
    StepIs(yoe + 400 * era, doy, CivilFromDays(days), CivilFromDays(days + 1));
  }

  lemma EpochIsDayZero()
    ensures CivilFromDays(0) == Date(1970, 1, 1)
    ensures DayNumber(Date(1970, 1, 1)) == 0
  {
    YearOfEraFinds(369, 306);
  }

  /** Tomorrow's day number is one more, whatever the date. */
  lemma NextDayNumber(date: Date)
    requires ValidDate(date)
    ensures DayNumber(Next(date)) == DayNumber(date) + 1
    ensures ValidDate(Next(date))
  {
    if date.day == DaysIn(date.year, date.month) && date.month == 12 {
      YearHasItsMonths(date.year);
    }
  }

  lemma YearHasItsMonths(year: int)
    ensures DaysBeforeMonth(year, 12) + 31 == DaysBeforeYear(year + 1) - DaysBeforeYear(year)
  {
    YearLengths(year);
    var leap := if Leap(year) then 1 else 0;
    assert DaysBeforeMonth(year, 3) == 59 + leap;
    assert DaysBeforeMonth(year, 5) == 120 + leap;
    assert DaysBeforeMonth(year, 7) == 181 + leap;
    assert DaysBeforeMonth(year, 9) == 243 + leap;
    assert DaysBeforeMonth(year, 11) == 304 + leap;
  }

  lemma QuotientSteps(year: int)
    ensures year / 4 - (year - 1) / 4 == if year % 4 == 0 then 1 else 0
    ensures year / 100 - (year - 1) / 100 == if year % 100 == 0 then 1 else 0
    ensures year / 400 - (year - 1) / 400 == if year % 400 == 0 then 1 else 0
  {
  }

  lemma Multiples(year: int)
    ensures year % 400 == 0 ==> year % 100 == 0
    ensures year % 100 == 0 ==> year % 4 == 0
  {
  }

  lemma YearLengths(year: int)
    ensures DaysBeforeYear(year + 1) - DaysBeforeYear(year) == if Leap(year) then 366 else 365
  {
    QuotientSteps(year);
    Multiples(year);
  }

  /** `CivilFromDays` undoes the day count: the date it gives has that day number. */
  lemma {:induction false} DayNumberOfCivil(days: int)
    ensures DayNumber(CivilFromDays(days)) == days
    decreases if days < 0 then -days else days
  {
    hide *;
    if days == 0 {
      EpochIsDayZero();
    } else if days < 0 {
      DayNumberOfCivil(days + 1);
      SuccessiveDays(days);
      NextDayNumber(CivilFromDays(days));
    } else {
      DayNumberOfCivil(days - 1);
      SuccessiveDays(days - 1);
      NextDayNumber(CivilFromDays(days - 1));
    }
  }

  lemma DayNumberOrdersDates(a: Date, b: Date)
    requires ValidDate(a) && ValidDate(b) && DayNumber(a) == DayNumber(b)
    ensures a == b
  {
    DayInItsYear(a);
    DayInItsYear(b);
    YearsAreOrdered(a.year, b.year);
    YearsAreOrdered(b.year, a.year);
    MonthsAreOrdered(a.year, a.month, b.month);
    MonthsAreOrdered(a.year, b.month, a.month);
  }

  lemma DayInItsYear(date: Date)
    requires ValidDate(date)
    ensures DaysBeforeYear(date.year) <= DayNumber(date) + 719_162 < DaysBeforeYear(date.year + 1)
  {
    YearHasItsMonths(date.year);
    MonthsAreOrdered(date.year, 1, date.month);
    MonthsAreOrdered(date.year, date.month, 12);
  }

  lemma YearsAreOrdered(a: int, b: int)
    ensures a < b ==> DaysBeforeYear(a + 1) <= DaysBeforeYear(b)
  {
  }

  lemma {:induction false} MonthsAreOrdered(year: int, a: int, b: int)
    requires 1 <= a && 1 <= b
    ensures 0 <= DaysBeforeMonth(year, a)
    ensures a < b ==> DaysBeforeMonth(year, a) + DaysIn(year, a) <= DaysBeforeMonth(year, b)
    decreases a + b
  {
    if 1 < a { MonthsAreOrdered(year, a - 1, 1); }
    if a < b - 1 { MonthsAreOrdered(year, a, b - 1); }
  }

  /** And the day count undoes `CivilFromDays`: every valid date comes from its own day number. */
  lemma CivilOfDayNumber(date: Date)
    requires ValidDate(date)
    ensures CivilFromDays(DayNumber(date)) == date
  {
    var days := DayNumber(date);
    DayNumberOfCivil(days);
    SuccessiveDays(days);
    DayNumberOrdersDates(CivilFromDays(days), date);
  }
}

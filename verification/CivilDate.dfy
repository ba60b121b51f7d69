/** The civil date of a day number, and the day number of a civil date, over all integers. Every
    division here is the Euclidean one, as Dafny's is. */
module CivilDate {
  datatype Date = Date(year: int, month: int, day: int)

  function CivilFromDays(days: int): Date {
    var z := days + 719468;
    var era := z / 146097;
    var doe := z % 146097;
    var yoe := YearOfEra(doe);
    var y := yoe + era * 400;
    var doy := doe - (365 * yoe + yoe / 4 - yoe / 100);
    var mp := (5 * doy + 2) / 153;
    var day := doy - (153 * mp + 2) / 5 + 1;
    var month := if mp < 10 then mp + 3 else mp - 9;
    Date(if month <= 2 then y + 1 else y, month, day)
  }

  function YearOfEra(doe: int): int {
    (doe - doe / 1460 + doe / 36524 - doe / 146096) / 365
  }

  function DaysFromCivil(d: Date): int {
    var y := if d.month <= 2 then d.year - 1 else d.year;
    var era := y / 400;
    var yoe := y - era * 400;
    var mp := (d.month + 9) % 12;
    var doy := (153 * mp + 2) / 5 + d.day - 1;
    var doe := yoe * 365 + yoe / 4 - yoe / 100 + doy;
    era * 146097 + doe - 719468
  }

  // --- the calendar, on its own terms --------------------------------------------------

  predicate IsLeap(year: int) {
    year % 4 == 0 && (year % 100 != 0 || year % 400 == 0)
  }

  function DaysInMonth(year: int, month: int): int {
    if month == 2 then (if IsLeap(year) then 29 else 28)
    else if month == 4 || month == 6 || month == 9 || month == 11 then 30
    else 31
  }

  predicate ValidDate(d: Date) {
    1 <= d.month <= 12 && 1 <= d.day <= DaysInMonth(d.year, d.month)
  }

  /** The day after. */
  function Next(d: Date): Date {
    if d.day < DaysInMonth(d.year, d.month) then d.(day := d.day + 1)
    else if d.month < 12 then Date(d.year, d.month + 1, 1)
    else Date(d.year + 1, 1, 1)
  }

  // --- years of an era, counted from March --------------------------------------------------

  /** The day of the era on which March-based year y begins. */
  function YearStart(y: int): int {
    365 * y + y / 4 - y / 100 + y / 400
  }

  // Division by the constants of the calendar, from a quotient and a remainder at hand.

  lemma By4(x: int, q: int, r: int)
    requires x == 4 * q + r && 0 <= r < 4
    ensures x / 4 == q && x % 4 == r
  {
  }

  lemma By100(x: int, q: int, r: int)
    requires x == 100 * q + r && 0 <= r < 100
    ensures x / 100 == q && x % 100 == r
  {
  }

  lemma By400(x: int, q: int, r: int)
    requires x == 400 * q + r && 0 <= r < 400
    ensures x / 400 == q && x % 400 == r
  {
  }

  lemma By146097(x: int, q: int, r: int)
    requires x == 146097 * q + r && 0 <= r < 146097
    ensures x / 146097 == q && x % 146097 == r
  {
  }

  lemma Quarter(z: int)
    ensures z / 4 - (z - 1) / 4 == if z % 4 == 0 then 1 else 0
    ensures z / 100 - (z - 1) / 100 == if z % 100 == 0 then 1 else 0
    ensures z / 400 - (z - 1) / 400 == if z % 400 == 0 then 1 else 0
  {
  }

  lemma Nested(z: int)
    ensures z % 100 == 0 ==> z % 4 == 0
    ensures z % 400 == 0 ==> z % 100 == 0
  {
    if z % 100 == 0 {
      By4(z, 25 * (z / 100), 0);
    }
    if z % 400 == 0 {
      By100(z, 4 * (z / 400), 0);
    }
  }

  function YearLength(y: int): int {
    if IsLeap(y + 1) then 366 else 365
  }

  lemma YearStartStep(y: int)
    ensures YearStart(y + 1) - YearStart(y) == YearLength(y)
  {
    Quarter(y + 1);
    Nested(y + 1);
  }

  /** A day of the era by century, leap cycle, year and day of the year. */
  lemma YearOfEraFromParts(c: int, q: int, r: int, doy: int)
    requires 0 <= c <= 3 && 0 <= q <= 24 && 0 <= r <= 3
    requires 0 <= doy < 365 || (doy == 365 && r == 3 && (q < 24 || c == 3))
    ensures YearOfEra(36524 * c + 1461 * q + 365 * r + doy) == 100 * c + 4 * q + r
  {
    var doe := 36524 * c + 1461 * q + 365 * r + doy;
    var early := 24 * c + q + 365 * r + doy;
    assert doe == 1460 * (25 * c + q) + early;
    var e := if early < 1460 then 0 else 1;
    assert doe / 1460 == 25 * c + q + e;
    if doe == 146096 {
      assert YearOfEra(146096) == 399;
    } else {
      assert doe / 36524 == c;
      assert doe / 146096 == 0;
      var numerator := doe - doe / 1460 + doe / 36524 - doe / 146096;
      assert numerator == 365 * (100 * c + 4 * q + r) + (doy - e);
    }
  }

  lemma YearStartFromParts(c: int, q: int, r: int)
    requires 0 <= c <= 3 && 0 <= q <= 24 && 0 <= r <= 3
    ensures YearStart(100 * c + 4 * q + r) == 36524 * c + 1461 * q + 365 * r
  {
    var y := 100 * c + 4 * q + r;
    assert y / 100 == c;
    assert y / 4 == 25 * c + q;
    assert y / 400 == 0;
  }

  lemma LeapFromParts(c: int, q: int, r: int)
    requires 0 <= c <= 3 && 0 <= q <= 24 && 0 <= r <= 3
    ensures YearLength(100 * c + 4 * q + r) == 366 <==> r == 3 && (q < 24 || c == 3)
  {
    var z := 100 * c + 4 * q + r + 1;
    assert z % 4 == (r + 1) % 4;
    assert z % 100 == (4 * q + r + 1) % 100;
    Nested(z);
  }

  /** Day `doy` of year `yoe` is found again from the day of the era. */
  lemma YearOfEraFound(yoe: int, doy: int)
    requires 0 <= yoe <= 399 && 0 <= doy < YearLength(yoe)
    ensures YearOfEra(YearStart(yoe) + doy) == yoe
  {
    hide YearOfEra, YearStart, IsLeap;
    var c, m := yoe / 100, yoe % 100;
    var q, r := m / 4, m % 4;
    assert yoe == 100 * c + 4 * q + r;
    YearStartFromParts(c, q, r);
    LeapFromParts(c, q, r);
    YearOfEraFromParts(c, q, r, doy);
  }

  /** The year of a day of the era: the one that has begun and not yet ended. */
  lemma {:induction false} YearContains(doe: int, y: int) returns (yoe: int)
    requires 0 <= y <= 400 && 0 <= doe < YearStart(y)
    ensures 0 <= yoe < y && YearStart(yoe) <= doe < YearStart(yoe + 1)
    decreases y
  {
    if YearStart(y - 1) <= doe {
      yoe := y - 1;
    } else {
      yoe := YearContains(doe, y - 1);
    }
  }

  lemma YearOfEraIsRight(doe: int)
    requires 0 <= doe <= 146096
    ensures 0 <= YearOfEra(doe) <= 399
    ensures YearStart(YearOfEra(doe)) <= doe < YearStart(YearOfEra(doe)) + YearLength(YearOfEra(doe))
  {
    assert YearStart(400) == 146097;
    var yoe := YearContains(doe, 400);
    YearStartStep(yoe);
    YearOfEraFound(yoe, doe - YearStart(yoe));
    hide YearOfEra, YearStart, IsLeap;
  }

  // --- months, counted from March -------------------------------------------------------------

  function MonthStart(mp: int): int {
    (153 * mp + 2) / 5
  }

  function Month(mp: int): int {
    if mp < 10 then mp + 3 else mp - 9
  }

  /** The calendar year of month mp of March-based year y. */
  function CalendarYear(y: int, mp: int): int {
    if Month(mp) <= 2 then y + 1 else y
  }

  lemma MonthLength(y: int, mp: int)
    requires 0 <= mp <= 11
    ensures DaysInMonth(CalendarYear(y, mp), Month(mp))
         == if mp < 11 then MonthStart(mp + 1) - MonthStart(mp) else YearLength(y) - MonthStart(11)
  {
    hide IsLeap;
    if mp < 6 {
      assert mp == 0 || mp == 1 || mp == 2 || mp == 3 || mp == 4 || mp == 5;
    } else {
      assert mp == 6 || mp == 7 || mp == 8 || mp == 9 || mp == 10 || mp == 11;
    }
  }

  lemma MonthFound(doy: int)
    requires 0 <= doy <= 365
    ensures 0 <= (5 * doy + 2) / 153 <= 11
    ensures MonthStart((5 * doy + 2) / 153) <= doy < MonthStart((5 * doy + 2) / 153 + 1)
  {
  }

  lemma MonthFoundAgain(mp: int, offset: int)
    requires 0 <= mp <= 11 && 0 <= offset && MonthStart(mp) + offset < MonthStart(mp + 1)
    ensures (5 * (MonthStart(mp) + offset) + 2) / 153 == mp
  {
  }

  // --- a date as a day of a March-based year ------------------------------------------------------

  function MarchDate(y: int, doy: int): Date {
    var mp := (5 * doy + 2) / 153;
    Date(CalendarYear(y, mp), Month(mp), doy - MonthStart(mp) + 1)
  }

  /** Day `doy` of March-based year y, counted from 1970-01-01. */
  function DayNumber(y: int, doy: int): int {
    y / 400 * 146097 + YearStart(y % 400) + doy - 719468
  }

  lemma YearLengthRepeats(y: int)
    ensures YearLength(y) == YearLength(y % 400)
  {
    var z, k := y % 400 + 1, y / 400;
    By4(y + 1, z / 4 + 100 * k, z % 4);
    By100(y + 1, z / 100 + 4 * k, z % 100);
    By400(y + 1, z / 400 + k, z % 400);
  }

  lemma MarchDateIsValid(y: int, doy: int)
    requires 0 <= doy < YearLength(y)
    ensures ValidDate(MarchDate(y, doy))
  {
    hide IsLeap;
    MonthFound(doy);
    MonthLength(y, (5 * doy + 2) / 153);
    hide DaysInMonth;
  }

  /** The algorithm takes a day number apart into the year and the day of the year it names. */
  lemma CivilIsMarchDate(days: int) returns (y: int, doy: int)
    ensures 0 <= doy < YearLength(y)
    ensures days == DayNumber(y, doy) && CivilFromDays(days) == MarchDate(y, doy)
  {
    hide YearOfEra, YearStart, YearLength;
    var z := days + 719468;
    var yoe := YearOfEra(z % 146097);
    YearOfEraIsRight(z % 146097);
    y, doy := yoe + z / 146097 * 400, z % 146097 - YearStart(yoe);
    By400(y, z / 146097, yoe);
    YearLengthRepeats(y);
    SmallYearStart(yoe);
  }

  lemma CivilOfDayNumber(y: int, doy: int)
    requires 0 <= doy < YearLength(y)
    ensures CivilFromDays(DayNumber(y, doy)) == MarchDate(y, doy)
  {
    hide YearOfEra, YearStart, YearLength;
    var yoe := y % 400;
    YearLengthRepeats(y);
    YearOfEraFound(yoe, doy);
    EraHolds(yoe, doy);
    By146097(DayNumber(y, doy) + 719468, y / 400, YearStart(yoe) + doy);
    SmallYearStart(yoe);
  }

  lemma {:induction false} YearStartMonotone(y: int, z: int)
    requires y <= z
    ensures YearStart(y) <= YearStart(z)
    decreases z - y
  {
    hide YearStart, IsLeap;
    if y < z {
      YearStartStep(y);
      YearStartMonotone(y + 1, z);
    }
  }

  lemma EraHolds(yoe: int, doy: int)
    requires 0 <= yoe <= 399 && 0 <= doy < YearLength(yoe)
    ensures 0 <= YearStart(yoe) + doy < 146097
  {
    YearStartStep(yoe);
    YearStartMonotone(0, yoe);
    YearStartMonotone(yoe + 1, 400);
    assert YearStart(0) == 0 && YearStart(400) == 146097;
    hide YearStart, YearLength;
  }

  function MarchYear(d: Date): int {
    if d.month <= 2 then d.year - 1 else d.year
  }

  function MarchMonth(d: Date): int {
    (d.month + 9) % 12
  }

  function DayOfYear(d: Date): int {
    MonthStart(MarchMonth(d)) + d.day - 1
  }

  lemma MonthStartsInOrder(mp: int)
    requires 0 <= mp <= 11
    ensures 0 <= MonthStart(mp) && MonthStart(mp + 1) <= (if mp < 11 then 337 else 367)
  {
  }

  lemma MarchMonthIsMonth(d: Date)
    requires 1 <= d.month <= 12
    ensures 0 <= MarchMonth(d) <= 11
    ensures Month(MarchMonth(d)) == d.month && CalendarYear(MarchYear(d), MarchMonth(d)) == d.year
  {
  }

  lemma DayOfYearInRange(d: Date)
    requires ValidDate(d)
    ensures 0 <= DayOfYear(d) < YearLength(MarchYear(d))
    ensures DayOfYear(d) < MonthStart(MarchMonth(d) + 1)
  {
    var y, mp := MarchYear(d), MarchMonth(d);
    MarchMonthIsMonth(d);
    MonthLength(y, mp);
    MonthStartsInOrder(mp);
    assert MonthStart(11) == 337 && MonthStart(12) == 367;
    hide IsLeap, DaysInMonth, MonthStart, MarchYear, MarchMonth, Month, CalendarYear;
  }

  /** A valid date is a day of a March-based year. */
  lemma DateIsMarchDate(d: Date)
    requires ValidDate(d)
    ensures d == MarchDate(MarchYear(d), DayOfYear(d))
  {
    hide IsLeap, MonthStart, DaysInMonth, MarchYear, MarchMonth, Month, CalendarYear;
    DayOfYearInRange(d);
    MarchMonthIsMonth(d);
    MonthFoundAgain(MarchMonth(d), d.day - 1);
  }

  /** `days_from_civil` numbers it so. */
  lemma DaysIsDayNumber(d: Date)
    ensures DaysFromCivil(d) == DayNumber(MarchYear(d), DayOfYear(d))
  {
    var y := MarchYear(d);
    assert y - y / 400 * 400 == y % 400;
    SmallYearStart(y % 400);
    hide YearStart;
  }

  lemma SmallYearStart(yoe: int)
    requires 0 <= yoe <= 399
    ensures YearStart(yoe) == yoe * 365 + yoe / 4 - yoe / 100
  {
  }

  // --- what the algorithm promises ---------------------------------------------------------------

  /** Every day number has a valid date. */
  lemma CivilIsValid(days: int)
    ensures ValidDate(CivilFromDays(days))
  {
    hide CivilFromDays, ValidDate, MarchDate, YearLength;
    var y, doy := CivilIsMarchDate(days);
    MarchDateIsValid(y, doy);
  }

  lemma MarchDateInjective(y: int, doy: int)
    requires 0 <= doy < YearLength(y)
    ensures MarchYear(MarchDate(y, doy)) == y && DayOfYear(MarchDate(y, doy)) == doy
  {
    hide IsLeap, MonthStart;
    MonthFound(doy);
  }

  lemma DaysOfCivil(days: int)
    ensures DaysFromCivil(CivilFromDays(days)) == days
  {
    var y, doy := CivilIsMarchDate(days);
    hide CivilFromDays, DaysFromCivil, MarchDate, MarchYear, DayOfYear, DayNumber, YearLength;
    MarchDateInjective(y, doy);
    DaysIsDayNumber(MarchDate(y, doy));
  }

  lemma CivilOfDays(d: Date)
    requires ValidDate(d)
    ensures CivilFromDays(DaysFromCivil(d)) == d
  {
    hide CivilFromDays, DaysFromCivil, MarchDate, MarchYear, DayOfYear, DayNumber, YearLength, ValidDate;
    DateIsMarchDate(d);
    DaysIsDayNumber(d);
    DayOfYearInRange(d);
    CivilOfDayNumber(MarchYear(d), DayOfYear(d));
  }

  lemma DayNumberNextYear(y: int)
    ensures DayNumber(y + 1, 0) == DayNumber(y, YearLength(y) - 1) + 1
  {
    var yoe := y % 400;
    YearStartStep(yoe);
    YearLengthRepeats(y);
    hide YearLength;
    assert YearStart(400) == 146097 && YearStart(0) == 0;
    if yoe == 399 {
      assert (y + 1) % 400 == 0 && (y + 1) / 400 == y / 400 + 1;
    } else {
      assert (y + 1) % 400 == yoe + 1 && (y + 1) / 400 == y / 400;
    }
  }

  lemma NextIsValid(d: Date)
    requires ValidDate(d)
    ensures ValidDate(Next(d))
  {
    hide IsLeap;
  }

  lemma NextMarch(d: Date)
    requires ValidDate(d)
    ensures
      || (MarchYear(Next(d)) == MarchYear(d) && DayOfYear(Next(d)) == DayOfYear(d) + 1)
      || (MarchYear(Next(d)) == MarchYear(d) + 1 && DayOfYear(Next(d)) == 0
          && DayOfYear(d) == YearLength(MarchYear(d)) - 1)
  {
    hide IsLeap, YearLength;
    MonthLength(MarchYear(d), MarchMonth(d));
    MarchMonthIsMonth(d);
    hide DaysInMonth;
    assert MonthStart(0) == 0;
  }

  lemma NextIsOneDayLater(d: Date)
    requires ValidDate(d)
    ensures DaysFromCivil(Next(d)) == DaysFromCivil(d) + 1
  {
    hide DaysFromCivil, MarchYear, DayOfYear, YearLength, Next, ValidDate, YearStart;
    DaysIsDayNumber(d);
    DaysIsDayNumber(Next(d));
    NextMarch(d);
    DayNumberNextYear(MarchYear(d));
  }

  /** The date of the next day number is the calendar's next date. */
  lemma CivilFollowsCalendar(days: int)
    ensures CivilFromDays(days + 1) == Next(CivilFromDays(days))
  {
    hide CivilFromDays, DaysFromCivil, Next, ValidDate;
    var d := CivilFromDays(days);
    CivilIsValid(days);
    DaysOfCivil(days);
    NextIsValid(d);
    NextIsOneDayLater(d);
    CivilOfDays(Next(d));
  }

  lemma Epoch()
    ensures CivilFromDays(0) == Date(1970, 1, 1)
  {
    assert YearOfEra(135080) == 369;
    By146097(719468, 4, 135080);
    hide YearOfEra;
  }
}

/** The civil calendar behind time windows: days since 1970-01-01 to dates and back. */
module Calendar {
  import opened Common

  datatype Date = Date(year: int, month: int, day: int)

  // ---------------------------------------------------------------- the calendar itself

  /** Leap years as in Appendix C of RFC 3339. */
  predicate IsLeap(y: int) {
    y % 4 == 0 && (y % 100 != 0 || y % 400 == 0)
  }

  /** Month lengths as in section 5.7 of RFC 3339. */
  function DaysInMonth(y: int, m: int): int {
    if m == 2 then if IsLeap(y) then 29 else 28
    else if m in {4, 6, 9, 11} then 30
    else 31
  }

  predicate ValidDate(d: Date) {
    1 <= d.month <= 12 && 1 <= d.day <= DaysInMonth(d.year, d.month)
  }

  function Tomorrow(d: Date): Date {
    if d.day < DaysInMonth(d.year, d.month) then d.(day := d.day + 1)
    else if d.month < 12 then Date(d.year, d.month + 1, 1)
    else Date(d.year + 1, 1, 1)
  }

  predicate Before(a: Date, b: Date) {
    a.year < b.year || (a.year == b.year && (a.month < b.month || (a.month == b.month && a.day < b.day)))
  }

  // ---------------------------------------------------------------- what the code computes

  /** The day of the 400-year era, counted from 1 March of its first year, to the year of the era. */
  function YearOfEra(doe: int): int {
    (doe - doe / 1460 + doe / 36524 - doe / 146096) / 365
  }

  /** The days of the era before year `yoe` of it. */
  function EraDays(yoe: int): int {
    365 * yoe + yoe / 4 - yoe / 100
  }

  function CivilFromDays(days: int): Date {
    CivilOfEra((days + 719468) / 146097, (days + 719468) % 146097)
  }

  function CivilOfEra(era: int, doe: int): Date {
    DateOf(YearOfEra(doe) + era * 400, doe - EraDays(YearOfEra(doe)))
  }

  /** Day `doy` of the year that starts on 1 March of year `y`. */
  function DateOf(y: int, doy: int): Date {
    var mp := (5 * doy + 2) / 153;
    var d := doy - (153 * mp + 2) / 5 + 1;
    var m := if mp < 10 then mp + 3 else mp - 9;
    Date(if m <= 2 then y + 1 else y, m, d)
  }

  function DaysFromCivil(d: Date): int {
    var y := if d.month <= 2 then d.year - 1 else d.year;
    var era := y / 400;
    var yoe := y - era * 400;
    var doy := MonthDays((d.month + 9) % 12) + d.day - 1;
    era * 146097 + (EraDays(yoe) + doy) - 719468
  }

  /** The days before month `mp`, counted from March. */
  function MonthDays(mp: int): int {
    (153 * mp + 2) / 5
  }

  // ---------------------------------------------------------------- the year of the era

  /** The last year of an era is the only one whose leap day the two corrections do not see. */
  function EraYearLength(yoe: int): int {
    if yoe == 399 || (yoe % 4 == 3 && yoe % 100 != 99) then 366 else 365
  }

  lemma EraYearSteps(yoe: int)
    requires 0 <= yoe < 399
    ensures EraDays(yoe + 1) == EraDays(yoe) + EraYearLength(yoe)
  {
    Quotient(yoe + 1, 4, if yoe % 4 == 3 then yoe / 4 + 1 else yoe / 4);
    Quotient(yoe + 1, 100, if yoe % 100 == 99 then yoe / 100 + 1 else yoe / 100);
  }

  /** Centuries, four-year groups and days within the group. */
  lemma EraParts(doe: int) returns (c: int, q: int, dq: int)
    requires 0 <= doe < 146097
    ensures 0 <= c <= 3 && 0 <= q <= 24 && 0 <= dq <= 1460 && (q == 24 && dq == 1460 ==> c == 3)
    ensures doe == 36524 * c + 1461 * q + dq
  {
    c := if doe == 146096 then 3 else doe / 36524;
    var dc := doe - 36524 * c;
    q := if dc == 36524 then 24 else dc / 1461;
    dq := dc - 1461 * q;
  }

  lemma YearFromParts(doe: int, c: int, q: int, dq: int, a: int)
    requires 0 <= c <= 3 && 0 <= q <= 24 && 0 <= dq <= 1460 && (q == 24 && dq == 1460 ==> c == 3)
    requires doe == 36524 * c + 1461 * q + dq
    requires a == if dq == 1460 then 3 else dq / 365
    ensures YearOfEra(doe) == 100 * c + 4 * q + a
  {
    var top := if doe == 146096 then 1 else 0;
    var e := if 24 * c + q + dq < 1460 then 0 else 1;
    Quotient(doe, 146096, top);
    Quotient(doe, 36524, c + top);
    Quotient(doe, 1460, 25 * c + q + e);
    Quotient(365 * (100 * c + 4 * q) + dq - e, 365, 100 * c + 4 * q + a);
  }

  lemma EraDaysFromParts(c: int, q: int, a: int)
    requires 0 <= c <= 3 && 0 <= q <= 24 && 0 <= a <= 3
    ensures EraDays(100 * c + 4 * q + a) == 36524 * c + 1461 * q + 365 * a
  {
    Quotient(100 * c + 4 * q + a, 4, 25 * c + q);
    Quotient(100 * c + 4 * q + a, 100, c);
  }

  lemma YearOfEraSpec(doe: int)
    requires 0 <= doe < 146097
    ensures 0 <= YearOfEra(doe) < 400
    ensures 0 <= doe - EraDays(YearOfEra(doe)) < EraYearLength(YearOfEra(doe))
  {
    var c, q, dq := EraParts(doe);
    var a := if dq == 1460 then 3 else dq / 365;
    YearFromParts(doe, c, q, dq, a);
    EraDaysFromParts(c, q, a);
  }

  lemma {:induction false} EraDaysMonotone(a: int, b: int)
    requires 0 <= a < b <= 399
    ensures EraDays(a) + EraYearLength(a) <= EraDays(b)
    decreases b - a
  {
    EraYearSteps(a);
    if a + 1 < b { EraDaysMonotone(a + 1, b); }
  }

  /** A day of the era lies in one year only. */
  lemma YearOfEraUnique(doe: int, yoe: int)
    requires 0 <= doe < 146097 && 0 <= yoe < 400 && 0 <= doe - EraDays(yoe) < EraYearLength(yoe)
    ensures YearOfEra(doe) == yoe
  {
    YearOfEraSpec(doe);
    if YearOfEra(doe) < yoe { EraDaysMonotone(YearOfEra(doe), yoe); }
    if YearOfEra(doe) > yoe { EraDaysMonotone(yoe, YearOfEra(doe)); }
  }

  // ---------------------------------------------------------------- days to dates and back

  /** Years start in March here, so the month lengths follow one pattern and a leap day comes last. */
  lemma MonthOfYear(doy: int)
    requires 0 <= doy <= 365
    ensures var mp := (5 * doy + 2) / 153;
            var d := doy - (153 * mp + 2) / 5 + 1;
            && 0 <= mp <= 11 && 1 <= d
            && d <= (if mp == 11 then (if doy == 365 then 29 else 28) else if mp in {1, 3, 6, 8} then 30 else 31)
  {
  }

  lemma MarchBased(m: int)
    requires 1 <= m <= 12
    ensures (m + 9) % 12 == if m <= 2 then m + 9 else m - 3
  {
  }

  lemma LeapOfEra(era: int, yoe: int)
    requires 0 <= yoe < 400
    ensures EraYearLength(yoe) == 366 <==> IsLeap(era * 400 + yoe + 1)
  {
    var x := yoe + 1;
    Remainder(era * 400 + x, 4, 100 * era + x / 4, x % 4);
    Remainder(era * 400 + x, 100, 4 * era + x / 100, x % 100);
    Remainder(era * 400 + x, 400, era + x / 400, x % 400);
    LeapWithinEra(yoe);
  }

  lemma LeapWithinEra(yoe: int)
    requires 0 <= yoe < 400
    ensures EraYearLength(yoe) == 366 <==> IsLeap(yoe + 1)
  {
  }

  lemma DateIsValid(y: int, doy: int)
    requires 0 <= doy < (if IsLeap(y + 1) then 366 else 365)
    ensures ValidDate(DateOf(y, doy))
  {
    MonthOfYear(doy);
  }

  lemma DaysOfDate(era: int, yoe: int, doy: int)
    requires 0 <= yoe < 400 && 0 <= doy <= 365
    ensures DaysFromCivil(DateOf(era * 400 + yoe, doy)) == era * 146097 + (EraDays(yoe) + doy) - 719468
  {
    var d := DateOf(era * 400 + yoe, doy);
    MonthOfYear(doy);
    MarchBased(d.month);
    Quotient(era * 400 + yoe, 400, era);
  }

  lemma CivilParts(days: int) returns (era: int, yoe: int, doy: int)
    ensures 0 <= yoe < 400 && 0 <= doy < EraYearLength(yoe)
    ensures days == era * 146097 + (EraDays(yoe) + doy) - 719468
    ensures CivilFromDays(days) == DateOf(era * 400 + yoe, doy)
  {
    var doe := (days + 719468) % 146097;
    era, yoe := (days + 719468) / 146097, YearOfEra(doe);
    doy := doe - EraDays(yoe);
    YearOfEraSpec(doe);
  }

  lemma CivilIsValid(days: int)
    ensures ValidDate(CivilFromDays(days))
    ensures DaysFromCivil(CivilFromDays(days)) == days
  {
    var era, yoe, doy := CivilParts(days);
    LeapOfEra(era, yoe);
    DateIsValid(era * 400 + yoe, doy);
    DaysOfDate(era, yoe, doy);
  }

  lemma MonthIndex(mp: int, d: int)
    requires 0 <= mp <= 11 && 1 <= d <= (if mp == 11 then 29 else if mp in {1, 3, 6, 8} then 30 else 31)
    ensures var doy := (153 * mp + 2) / 5 + d - 1;
            && 0 <= doy <= 365 && (doy == 365 ==> mp == 11 && d == 29)
            && (5 * doy + 2) / 153 == mp
  {
  }

  lemma CivilOfDay(days: int, era: int, doe: int)
    requires 0 <= doe < 146097 && days == era * 146097 + doe - 719468
    ensures CivilFromDays(days) == CivilOfEra(era, doe)
  {
    Quotient(days + 719468, 146097, era);
    Remainder(days + 719468, 146097, era, doe);
  }

  lemma CivilOfParts(era: int, yoe: int, doy: int)
    requires 0 <= yoe < 400 && 0 <= doy < EraYearLength(yoe)
    ensures CivilOfEra(era, EraDays(yoe) + doy) == DateOf(era * 400 + yoe, doy)
  {
    EraDaysBound(yoe);
    YearOfEraUnique(EraDays(yoe) + doy, yoe);
  }

  function MarchMonth(d: Date): int {
    if d.month <= 2 then d.month + 9 else d.month - 3
  }

  function MarchYear(d: Date): int {
    if d.month <= 2 then d.year - 1 else d.year
  }

  lemma DateOfMonth(y: int, mp: int, d: int)
    requires 0 <= mp <= 11 && 1 <= d <= (if mp == 11 then 29 else if mp in {1, 3, 6, 8} then 30 else 31)
    ensures DateOf(y, MonthDays(mp) + d - 1)
            == Date(if mp < 10 then y else y + 1, if mp < 10 then mp + 3 else mp - 9, d)
  {
    MonthIndex(mp, d);
  }

  lemma DayWithinYear(d: Date, era: int, yoe: int)
    requires ValidDate(d) && 0 <= yoe < 400 && MarchYear(d) == era * 400 + yoe
    ensures 0 <= MonthDays(MarchMonth(d)) + d.day - 1 < EraYearLength(yoe)
  {
    MonthIndex(MarchMonth(d), d.day);
    LeapOfEra(era, yoe);
  }

  lemma DaysByParts(d: Date, era: int, yoe: int)
    requires 1 <= d.month <= 12 && 0 <= yoe < 400 && MarchYear(d) == era * 400 + yoe
    ensures DaysFromCivil(d) == era * 146097 + (EraDays(yoe) + (MonthDays(MarchMonth(d)) + d.day - 1)) - 719468
  {
    MarchBased(d.month);
    Quotient(MarchYear(d), 400, era);
  }

  lemma Parts(y: int) returns (era: int, yoe: int)
    ensures 0 <= yoe < 400 && y == era * 400 + yoe
  {
    era, yoe := y / 400, y % 400;
  }

  lemma CivilByParts(d: Date, era: int, yoe: int)
    requires ValidDate(d) && 0 <= yoe < 400 && MarchYear(d) == era * 400 + yoe
    ensures 0 <= EraDays(yoe) + (MonthDays(MarchMonth(d)) + d.day - 1) < 146097
    ensures CivilOfEra(era, EraDays(yoe) + (MonthDays(MarchMonth(d)) + d.day - 1)) == d
  {
    DayWithinYear(d, era, yoe);
    EraDaysBound(yoe);
    CivilOfParts(era, yoe, MonthDays(MarchMonth(d)) + d.day - 1);
    DateOfMonth(era * 400 + yoe, MarchMonth(d), d.day);
  }

  lemma DaysOfCivil(d: Date)
    requires ValidDate(d)
    ensures CivilFromDays(DaysFromCivil(d)) == d
  {
    var era, yoe := Parts(MarchYear(d));
    DaysByParts(d, era, yoe);
    CivilByParts(d, era, yoe);
    CivilOfDay(DaysFromCivil(d), era, EraDays(yoe) + (MonthDays(MarchMonth(d)) + d.day - 1));
  }

  lemma EraDaysBound(yoe: int)
    requires 0 <= yoe < 400
    ensures 0 <= EraDays(yoe) && EraDays(yoe) + EraYearLength(yoe) <= 146097
  {
  }

  // ---------------------------------------------------------------- the calendar it follows

  lemma MonthSteps(mp: int)
    requires 0 <= mp < 11
    ensures MonthDays(mp + 1) == MonthDays(mp) + if mp in {1, 3, 6, 8} then 30 else 31
  {
  }

  /** The year that starts on 1 March ends with the last of February. */
  lemma LastOfFebruary(d: Date, era: int, yoe: int)
    requires d.month == 2 && d.day == DaysInMonth(d.year, 2) && 0 <= yoe < 400 && MarchYear(d) == era * 400 + yoe
    ensures MonthDays(11) + d.day == EraYearLength(yoe)
  {
    LeapOfEra(era, yoe);
  }

  lemma FirstOfMarch(d: Date, era: int, yoe: int)
    requires d.month == 2 && d.day == DaysInMonth(d.year, 2) && 0 <= yoe < 400 && MarchYear(d) == era * 400 + yoe
    ensures DaysFromCivil(Tomorrow(d)) == DaysFromCivil(d) + 1
  {
    LastOfFebruary(d, era, yoe);
    DaysByParts(d, era, yoe);
    assert Tomorrow(d) == Date(d.year, 3, 1) && MonthDays(0) == 0;
    if yoe < 399 {
      EraYearSteps(yoe);
      DaysByParts(Date(d.year, 3, 1), era, yoe + 1);
    } else {
      DaysByParts(Date(d.year, 3, 1), era + 1, 0);
    }
  }

  lemma DaysOfTomorrow(d: Date)
    requires ValidDate(d)
    ensures DaysFromCivil(Tomorrow(d)) == DaysFromCivil(d) + 1
  {
    var era, yoe := Parts(MarchYear(d));
    if d.month == 2 && d.day == DaysInMonth(d.year, 2) {
      FirstOfMarch(d, era, yoe);
    } else {
      DaysByParts(d, era, yoe);
      DaysByParts(Tomorrow(d), era, yoe);
      if MarchMonth(d) < 11 { MonthSteps(MarchMonth(d)); }
    }
  }

  lemma TomorrowIsValid(d: Date)
    requires ValidDate(d)
    ensures ValidDate(Tomorrow(d)) && Before(d, Tomorrow(d))
  {
  }

  /** Day 0 is 1 January 1970 and each next day number gives the next date: with the two inverses above, this
      fixes the calendar. */
  lemma FollowsCalendar(d: Date)
    requires ValidDate(d)
    ensures CivilFromDays(0) == Date(1970, 1, 1)
    ensures CivilFromDays(DaysFromCivil(d) + 1) == Tomorrow(d)
  {
    Epoch();
    DaysOfTomorrow(d);
    TomorrowIsValid(d);
    DaysOfCivil(Tomorrow(d));
  }

  lemma Epoch()
    ensures CivilFromDays(0) == Date(1970, 1, 1)
  {
    EpochDay();
    DaysOfCivil(Date(1970, 1, 1));
  }

  lemma EpochDay()
    ensures DaysFromCivil(Date(1970, 1, 1)) == 0
  {
    assert 1969 / 400 == 4 && MonthDays((1 + 9) % 12) == 306 && EraDays(369) == 134774;
  }

  lemma SameDaySameDate(a: Date, b: Date)
    requires ValidDate(a) && ValidDate(b) && DaysFromCivil(a) == DaysFromCivil(b)
    ensures a == b
  {
    DaysOfCivil(a);
    DaysOfCivil(b);
  }

  lemma {:induction false} EarlierDayEarlierDate(a: Date, b: Date)
    requires ValidDate(a) && ValidDate(b) && DaysFromCivil(a) < DaysFromCivil(b)
    ensures Before(a, b)
    decreases DaysFromCivil(b) - DaysFromCivil(a)
  {
    DaysOfTomorrow(a);
    TomorrowIsValid(a);
    if DaysFromCivil(Tomorrow(a)) == DaysFromCivil(b) {
      SameDaySameDate(Tomorrow(a), b);
    } else {
      EarlierDayEarlierDate(Tomorrow(a), b);
    }
  }
}

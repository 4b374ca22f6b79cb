/**
 The proleptic Gregorian calendar, twice: as a calendar stepped one day at a
 time, and as the closed division formulas of `rfc3339` and `parse_rfc3339`.
 The stepped calendar is the reference; the formulas are proved equal to it for
 every integer day number.
 */
module Calendar {

  datatype Date = Date(year: int, month: int, day: int)

  predicate IsLeap(y: int) {
    y % 4 == 0 && (y % 100 != 0 || y % 400 == 0)
  }

  function DaysIn(y: int, m: int): int {
    if m == 2 then (if IsLeap(y) then 29 else 28)
    else if m == 4 || m == 6 || m == 9 || m == 11 then 30
    else 31
  }

  predicate Valid(d: Date) {
    1 <= d.month <= 12 && 1 <= d.day <= DaysIn(d.year, d.month)
  }

  // ----- The reference: one day at a time -----

  function NextDay(d: Date): (r: Date)
    requires Valid(d)
    ensures Valid(r)
  {
    if d.day < DaysIn(d.year, d.month) then d.(day := d.day + 1)
    else if d.month < 12 then Date(d.year, d.month + 1, 1)
    else Date(d.year + 1, 1, 1)
  }

  function PrevDay(d: Date): (r: Date)
    requires Valid(d)
    ensures Valid(r)
    ensures NextDay(r) == d
  {
    if d.day > 1 then d.(day := d.day - 1)
    else if d.month > 1 then Date(d.year, d.month - 1, DaysIn(d.year, d.month - 1))
    else Date(d.year - 1, 12, 31)
  }

  /** The date `n` days after (or, for a negative `n`, before) 1970-01-01. */
  function DateOf(n: int): (d: Date)
    ensures Valid(d)
    decreases if n < 0 then -n else n
  {
    if n == 0 then Date(1970, 1, 1)
    else if n > 0 then NextDay(DateOf(n - 1))
    else PrevDay(DateOf(n + 1))
  }

  // ----- The closed forms -----

  /** Year of the era that holds day `doe` of the era. */
  function EraYear(doe: int): int {
    (doe - doe / 1460 + doe / 36524 - doe / 146096) / 365
  }

  /** Days from the start of the era to the start of its year `yoe`. */
  function EraDay(yoe: int): int {
    365 * yoe + yoe / 4 - yoe / 100
  }

  /** Civil date of a day number, by eras of 400 years that start on 1 March. */
  function CivilFromDays(days: int): Date {
    var z := days + 719468;
    var era := z / 146097;
    var doe := z - era * 146097;
    var yoe := EraYear(doe);
    var y := yoe + era * 400;
    var doy := doe - EraDay(yoe);
    var mp := (5 * doy + 2) / 153;
    var d := doy - (153 * mp + 2) / 5 + 1;
    var m := if mp < 10 then mp + 3 else mp - 9;
    Date(if m <= 2 then y + 1 else y, m, d)
  }

  /** Months counted from March. */
  function MarchMonth(m: int): int {
    if m <= 2 then m + 9 else m - 3
  }

  /** Day number of a civil date; the day is only added, never checked against the month. */
  function DaysFromCivil(d: Date): int {
    var yy := if d.month <= 2 then d.year - 1 else d.year;
    var mp := MarchMonth(d.month);
    var era := yy / 400;
    var yoe := yy - era * 400;
    var doy := (153 * mp + 2) / 5 + d.day - 1;
    var doe := EraDay(yoe) + doy;
    era * 146097 + doe - 719468
  }

  // ----- Day number of a date: the formula follows the stepped calendar -----

  /** Days from 1 March of year 0 to 1 March of year `yy`. */
  function MarchStart(yy: int): int {
    var era := yy / 400;
    var yoe := yy - era * 400;
    era * 146097 + EraDay(yoe)
  }

  lemma EraRemainders(era: int, y: int)
    ensures (era * 400 + y) % 4 == y % 4
    ensures (era * 400 + y) % 100 == y % 100
    ensures (era * 400 + y) % 400 == y % 400
  {
    assert (era * 400 + y) / 4 == era * 100 + y / 4;
    assert (era * 400 + y) / 100 == era * 4 + y / 100;
    assert (era * 400 + y) / 400 == era + y / 400;
  }

  lemma EraYearLength(yoe: int)
    requires 0 <= yoe < 399
    ensures (yoe + 1) / 4 == yoe / 4 + if (yoe + 1) % 4 == 0 then 1 else 0
    ensures (yoe + 1) / 100 == yoe / 100 + if (yoe + 1) % 100 == 0 then 1 else 0
    ensures (yoe + 1) % 100 == 0 ==> (yoe + 1) % 4 == 0
    ensures (yoe + 1) % 400 != 0
  {
  }

  /** A March year is 366 days long exactly when the February that ends it is a leap one. */
  lemma MarchYearLength(yy: int)
    ensures MarchStart(yy + 1) - MarchStart(yy) == if IsLeap(yy + 1) then 366 else 365
  {
    var era := yy / 400;
    var yoe := yy - era * 400;
    EraRemainders(era, yoe + 1);
    assert era * 400 + (yoe + 1) == yy + 1;
    if yoe == 399 {
      assert (yy + 1) / 400 == era + 1;
    } else {
      assert (yy + 1) / 400 == era;
      EraYearLength(yoe);
    }
  }

  /** The day formula over any table of the days on which March years start. */
  ghost function DaysSince(march: int -> int, d: Date): int {
    var yy := if d.month <= 2 then d.year - 1 else d.year;
    var mp := MarchMonth(d.month);
    march(yy) + (153 * mp + 2) / 5 + d.day - 1 - 719468
  }

  lemma DaysSinceFollows(march: int -> int, d: Date)
    requires Valid(d)
    requires march(d.year) - march(d.year - 1) == if IsLeap(d.year) then 366 else 365
    ensures DaysSince(march, NextDay(d)) == DaysSince(march, d) + 1
  {
  }

  /** Stepping the calendar by a day steps the day number by one. */
  lemma DaysFollowCalendar(d: Date)
    requires Valid(d)
    ensures DaysFromCivil(NextDay(d)) == DaysFromCivil(d) + 1
  {
    MarchYearLength(d.year - 1);
    DaysSinceFollows(MarchStart, d);
    assert DaysFromCivil(d) == DaysSince(MarchStart, d);
    assert DaysFromCivil(NextDay(d)) == DaysSince(MarchStart, NextDay(d));
  }

  ghost predicate Follows(number: Date -> int, d: Date) {
    Valid(d) ==> number(NextDay(d)) == number(d) + 1
  }

  /** A numbering of dates that starts at 0 and follows the calendar numbers every date it reaches. */
  lemma {:induction false} NumberingOfDates(number: Date -> int, n: int)
    requires number(Date(1970, 1, 1)) == 0
    requires forall d :: Follows(number, d)
    ensures number(DateOf(n)) == n
    decreases if n < 0 then -n else n
  {
    if n > 0 {
      NumberingOfDates(number, n - 1);
      assert Follows(number, DateOf(n - 1));
    } else if n < 0 {
      NumberingOfDates(number, n + 1);
      assert Follows(number, DateOf(n));
    }
  }

  lemma DayNumberOfDate(n: int)
    ensures DaysFromCivil(DateOf(n)) == n
  {
    forall d ensures Follows(DaysFromCivil, d) {
      if Valid(d) { DaysFollowCalendar(d); }
    }
    NumberingOfDates(DaysFromCivil, n);
  }

  // ----- Inverting the year and the month formulas -----

  predicate FitsYear(c: int, q: int, r: int, doy: int) {
    0 <= doy <= 365 && (doy == 365 ==> r == 3 && (q < 24 || c == 3))
  }

  /** Within an era, year `100c + 4q + r` is recovered from every one of its days. */
  lemma YearOfEra(c: int, q: int, r: int, doy: int)
    requires 0 <= c < 4 && 0 <= q < 25 && 0 <= r < 4
    requires FitsYear(c, q, r, doy)
    ensures
      var yoe := 100 * c + 4 * q + r;
      0 <= EraDay(yoe) + doy < 146097 && EraYear(EraDay(yoe) + doy) == yoe
  {
    var yoe := 100 * c + 4 * q + r;
    assert yoe / 4 == 25 * c + q && yoe / 100 == c;
    var doe := EraDay(yoe) + doy;
    assert doe == 36524 * c + 1461 * q + 365 * r + doy;
    Centuries(c, q, r, doy, doe);
    FourYears(c, q, r, doy, doe);
  }

  lemma Centuries(c: int, q: int, r: int, doy: int, doe: int)
    requires 0 <= c < 4 && 0 <= q < 25 && 0 <= r < 4 && FitsYear(c, q, r, doy)
    requires doe == 36524 * c + 1461 * q + 365 * r + doy
    ensures doe / 36524 - doe / 146096 == c
  {
    if c == 3 { assert doe / 36524 - doe / 146096 == 3; } else { assert doe / 36524 == c && doe / 146096 == 0; }
  }

  lemma FourYears(c: int, q: int, r: int, doy: int, doe: int)
    requires 0 <= c < 4 && 0 <= q < 25 && 0 <= r < 4 && FitsYear(c, q, r, doy)
    requires doe == 36524 * c + 1461 * q + 365 * r + doy
    ensures doe / 1460 == 25 * c + q + if 24 * c + q + 365 * r + doy >= 1460 then 1 else 0
  {
  }

  /** The month formula inverts the month's first day, for every month that starts in March. */
  lemma MonthOfYear(mp: int, day: int)
    requires 0 <= mp < 12
    requires 1 <= day <= (153 * (mp + 1) + 2) / 5 - (153 * mp + 2) / 5
    ensures (5 * ((153 * mp + 2) / 5 + day - 1) + 2) / 153 == mp
  {
  }

  /** Only a March year that ends in a leap February has a 366th day. */
  lemma DayOfMarchYear(d: Date, era: int, yoe: int)
    requires Valid(d) && 0 <= yoe < 400
    requires era * 400 + yoe == if d.month <= 2 then d.year - 1 else d.year
    ensures
      var mp := MarchMonth(d.month);
      FitsYear(yoe / 100, yoe % 100 / 4, yoe % 4, (153 * mp + 2) / 5 + d.day - 1)
  {
    if d.month == 2 { EraRemainders(era, yoe + 1); }
  }

  lemma EraOfDay(era: int, doe: int)
    requires 0 <= doe < 146097
    ensures (era * 146097 + doe) / 146097 == era && (era * 146097 + doe) % 146097 == doe
  {
  }

  lemma MarchMonthLength(d: Date)
    requires Valid(d)
    ensures
      var mp := MarchMonth(d.month);
      d.day <= (153 * (mp + 1) + 2) / 5 - (153 * mp + 2) / 5
  {
  }

  lemma YearOfDay(yoe: int, doy: int)
    requires 0 <= yoe < 400 && FitsYear(yoe / 100, yoe % 100 / 4, yoe % 4, doy)
    ensures 0 <= EraDay(yoe) + doy < 146097 && EraYear(EraDay(yoe) + doy) == yoe
  {
    assert yoe == 100 * (yoe / 100) + 4 * (yoe % 100 / 4) + yoe % 4;
    YearOfEra(yoe / 100, yoe % 100 / 4, yoe % 4, doy);
  }

  lemma CivilOfMarchDate(d: Date, era: int, yoe: int, doe: int)
    requires Valid(d) && 0 <= yoe < 400
    requires era * 400 + yoe == if d.month <= 2 then d.year - 1 else d.year
    requires doe == EraDay(yoe) + (153 * MarchMonth(d.month) + 2) / 5 + d.day - 1
    ensures CivilFromDays(era * 146097 + doe - 719468) == d
  {
    DayOfMarchYear(d, era, yoe);
    YearOfDay(yoe, (153 * MarchMonth(d.month) + 2) / 5 + d.day - 1);
    MarchMonthLength(d);
    EraOfDay(era, doe);
    MonthOfYear(MarchMonth(d.month), d.day);
  }

  /** The date formula inverts the day formula on every valid date. */
  lemma CivilOfDays(d: Date)
    requires Valid(d)
    ensures CivilFromDays(DaysFromCivil(d)) == d
  {
    var yy := if d.month <= 2 then d.year - 1 else d.year;
    var era := yy / 400;
    var yoe := yy - era * 400;
    var doe := EraDay(yoe) + (153 * MarchMonth(d.month) + 2) / 5 + d.day - 1;
    assert DaysFromCivil(d) == era * 146097 + doe - 719468;
    CivilOfMarchDate(d, era, yoe, doe);
  }

  // ----- Main results -----

  /** For every day number the closed form is the stepped calendar's date. */
  lemma ClosedFormIsCalendar(n: int)
    ensures CivilFromDays(n) == DateOf(n)
  {
    DayNumberOfDate(n);
    CivilOfDays(DateOf(n));
  }

  /** The two closed forms are inverse bijections between day numbers and valid dates. */
  lemma TwoSidedInverse(n: int, d: Date)
    ensures Valid(CivilFromDays(n)) && DaysFromCivil(CivilFromDays(n)) == n
    ensures Valid(d) <==> CivilFromDays(DaysFromCivil(d)) == d
  {
    ClosedFormIsCalendar(n);
    DayNumberOfDate(n);
    ClosedFormIsCalendar(DaysFromCivil(d));
    if Valid(d) { CivilOfDays(d); }
  }

  // ----- Order -----

  predicate Before(a: Date, b: Date) {
    a.year < b.year || (a.year == b.year && (a.month < b.month || (a.month == b.month && a.day < b.day)))
  }

  /** A later month starts no earlier than the last day of an earlier one plus one. */
  lemma {:induction false} MonthsInOrder(y: int, m: int, y2: int, m2: int)
    requires 1 <= m <= 12 && 1 <= m2 <= 12
    requires y < y2 || (y == y2 && m < m2)
    ensures DaysFromCivil(Date(y, m, DaysIn(y, m))) < DaysFromCivil(Date(y2, m2, 1))
    decreases 12 * (y2 - y) + m2 - m
  {
    var last := Date(y, m, DaysIn(y, m));
    DaysFollowCalendar(last);
    var next := NextDay(last);
    if next != Date(y2, m2, 1) {
      MonthsInOrder(next.year, next.month, y2, m2);
      DayOfMonth(Date(next.year, next.month, DaysIn(next.year, next.month)));
    }
  }

  /** Any day of a month, past its end too, is the first of the month plus the days since. */
  lemma DayOfMonth(d: Date)
    ensures DaysFromCivil(d) == DaysFromCivil(d.(day := 1)) + d.day - 1
  {
  }

  /** Day numbers order valid dates as the calendar does. */
  lemma DaysInOrder(a: Date, b: Date)
    requires Valid(a) && Valid(b)
    ensures Before(a, b) <==> DaysFromCivil(a) < DaysFromCivil(b)
  {
    if Before(a, b) { DaysIncrease(a, b); }
    if Before(b, a) { DaysIncrease(b, a); }
  }

  lemma DaysIncrease(a: Date, b: Date)
    requires Valid(a) && Valid(b) && Before(a, b)
    ensures DaysFromCivil(a) < DaysFromCivil(b)
  {
    DayOfMonth(a);
    DayOfMonth(b);
    if (a.year, a.month) != (b.year, b.month) {
      DayOfMonth(a.(day := DaysIn(a.year, a.month)));
      MonthsInOrder(a.year, a.month, b.year, b.month);
    }
  }
}

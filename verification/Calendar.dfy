/** Day numbers to calendar dates (apps/cli/src/scan_command.rs). */
module Calendar {

  datatype Date = Date(year: int, month: int, day: int)

  /** Days since the Unix epoch to a date. */
  function CivilFromDays(days: int): Date {
    var z := days + 719_468;
    var era := z / 146_097;
    var doe := z % 146_097;
    var yoe := (doe - doe / 1460 + doe / 36_524 - doe / 146_096) / 365;
    var y := yoe + era * 400;
    var doy := doe - (365 * yoe + yoe / 4 - yoe / 100);
    var mp := (5 * doy + 2) / 153;
    var d := doy - (153 * mp + 2) / 5 + 1;
    var m := if mp < 10 then mp + 3 else mp - 9;
    Date(if m <= 2 then y + 1 else y, m, d)
  }

  // ---- the proleptic Gregorian calendar ---------------------------------------------

  predicate IsLeap(year: int) {
    year % 4 == 0 && (year % 100 != 0 || year % 400 == 0)
  }

  function DaysInMonth(year: int, month: int): int {
    if month == 2 then if IsLeap(year) then 29 else 28
    else if month == 4 || month == 6 || month == 9 || month == 11 then 30
    else 31
  }

  predicate IsDate(date: Date) {
    1 <= date.month <= 12 && 1 <= date.day <= DaysInMonth(date.year, date.month)
  }

  function NextDay(date: Date): Date {
    if date.day < DaysInMonth(date.year, date.month) then date.(day := date.day + 1)
    else if date.month < 12 then Date(date.year, date.month + 1, 1)
    else Date(date.year + 1, 1, 1)
  }

  // ---- years that begin in March --------------------------------------------------------

  /** Days from the first of March of year 0 to that of year `y`. */
  function YearStart(y: int): int {
    365 * y + y / 4 - y / 100 + y / 400
  }

  lemma NextMultiples(y: int)
    ensures (y + 1) / 4 - y / 4 == if (y + 1) % 4 == 0 then 1 else 0
    ensures (y + 1) / 100 - y / 100 == if (y + 1) % 100 == 0 then 1 else 0
    ensures (y + 1) / 400 - y / 400 == if (y + 1) % 400 == 0 then 1 else 0
  {
  }

  lemma SameRemainder4(k: int, y: int)
    ensures (k * 4 + y) % 4 == y % 4
  {
    assert k * 4 + y == 4 * (k + y / 4) + y % 4;
  }

  lemma SameRemainder100(k: int, y: int)
    ensures (k * 100 + y) % 100 == y % 100
  {
    assert k * 100 + y == 100 * (k + y / 100) + y % 100;
  }

  lemma SameRemainder400(k: int, y: int)
    ensures (k * 400 + y) % 400 == y % 400
  {
    assert k * 400 + y == 400 * (k + y / 400) + y % 400;
  }

  lemma MultiplesNest(y: int)
    ensures y % 400 == 0 ==> y % 100 == 0
    ensures y % 100 == 0 ==> y % 4 == 0
  {
    SameRemainder100(4 * (y / 400), 0);
    SameRemainder4(25 * (y / 100), 0);
  }

  lemma YearLength(y: int)
    ensures YearStart(y + 1) - YearStart(y) == if IsLeap(y + 1) then 366 else 365
  {
    NextMultiples(y);
    MultiplesNest(y + 1);
  }

  lemma {:induction false} YearsAscend(x: int, y: int)
    ensures x < y ==> YearStart(x) + 365 <= YearStart(y)
    decreases y - x
  {
    if x < y {
      YearLength(y - 1);
      YearsAscend(x, y - 1);
    }
  }

  /** At most one year contains a given day. */
  lemma YearIsUnique(z: int, x: int, y: int)
    requires YearStart(x) <= z < YearStart(x + 1) && YearStart(y) <= z < YearStart(y + 1)
    ensures x == y
  {
    YearsAscend(x + 1, y);
    YearsAscend(y + 1, x);
  }

  /** How a day of the 400-year era splits: century, four-year cycle, year and
  day. The last day of the era is the leap day of its last century. */
  lemma SplitEra(doe: int) returns (c: int, b: int, t: int, doy: int)
    requires 0 <= doe < 146_097
    ensures doe == 36_524 * c + 1461 * b + 365 * t + doy
    ensures 0 <= c <= 3 && 0 <= b <= 24 && 0 <= t <= 3 && 0 <= doy <= 365
    ensures doy == 365 ==> t == 3 && (b < 24 || c == 3)
  {
    c := if doe == 146_096 then 3 else doe / 36_524;
    var r := doe - 36_524 * c;
    b := r / 1461;
    var s := r - 1461 * b;
    t := if s >= 1095 then 3 else s / 365;
    doy := s - 365 * t;
  }

  /** The year-of-era formula picks the year of that split. */
  lemma YearOfEra(c: int, b: int, t: int, doy: int, doe: int)
    requires doe == 36_524 * c + 1461 * b + 365 * t + doy
    requires 0 <= c <= 3 && 0 <= b <= 24 && 0 <= t <= 3 && 0 <= doy <= 365
    requires doy == 365 ==> t == 3 && (b < 24 || c == 3)
    ensures (doe - doe / 1460 + doe / 36_524 - doe / 146_096) / 365 == 100 * c + 4 * b + t
  {
    var s := 365 * t + doy;
    if doe == 146_096 {
      assert c == 3 && b == 24 && t == 3 && doy == 365;
    } else {
      assert 1461 * b + s < 36_524;
      assert doe / 36_524 == c && doe / 146_096 == 0;
      var e := (24 * c + b + s) / 1460;
      assert doe == 1460 * (25 * c + b) + (24 * c + b + s);
      assert doe / 1460 == 25 * c + b + e;
      assert 0 <= e <= 1;
      assert doe - doe / 1460 + c == 365 * (100 * c + 4 * b + t) + (doy - e);
      if e == 1 {
        assert s >= 1364;
        assert t == 3;
      }
    }
  }

  lemma StartOfSplit(c: int, b: int, t: int)
    requires 0 <= c <= 3 && 0 <= b <= 24 && 0 <= t <= 3
    ensures
      var yoe := 100 * c + 4 * b + t;
      365 * yoe + yoe / 4 - yoe / 100 == 36_524 * c + 1461 * b + 365 * t
    ensures IsLeap(100 * c + 4 * b + t + 1) <==> t == 3 && (b < 24 || c == 3)
  {
    var yoe := 100 * c + 4 * b + t;
    assert yoe / 4 == 25 * c + b;
    assert yoe / 100 == c;
    assert (yoe + 1) % 4 == 0 <==> t == 3;
    assert (yoe + 1) % 100 == 0 <==> t == 3 && b == 24;
    assert (yoe + 1) % 400 == 0 <==> t == 3 && b == 24 && c == 3;
  }

  /** The year and the day of the year that the conversion computes. */
  function MarchYear(days: int): int {
    var z := days + 719_468;
    var doe := z % 146_097;
    (doe - doe / 1460 + doe / 36_524 - doe / 146_096) / 365 + z / 146_097 * 400
  }

  lemma EraShifts(era: int, yoe: int)
    requires 0 <= yoe < 400
    ensures YearStart(era * 400 + yoe) == 146_097 * era + 365 * yoe + yoe / 4 - yoe / 100
  {
    var y := era * 400 + yoe;
    assert y / 4 == era * 100 + yoe / 4;
    assert y / 100 == era * 4 + yoe / 100;
    assert y / 400 == era;
  }

  lemma LeapsRepeat(era: int, y: int)
    ensures IsLeap(era * 400 + y) <==> IsLeap(y)
  {
    SameRemainder4(100 * era, y);
    SameRemainder100(4 * era, y);
    SameRemainder400(era, y);
  }

  /** The computed year contains the day. */
  lemma YearContainsDay(days: int)
    ensures YearStart(MarchYear(days)) <= days + 719_468 < YearStart(MarchYear(days) + 1)
    ensures
      var z := days + 719_468;
      var doe := z % 146_097;
      var yoe := (doe - doe / 1460 + doe / 36_524 - doe / 146_096) / 365;
      doe - (365 * yoe + yoe / 4 - yoe / 100) == z - YearStart(MarchYear(days))
  {
    var z := days + 719_468;
    var era, doe := z / 146_097, z % 146_097;
    var c, b, t, doy := SplitEra(doe);
    YearOfEra(c, b, t, doy, doe);
    SplitLocates(era, c, b, t, doy);
  }

  /** Where the split of a day lies among the March years. */
  lemma SplitLocates(era: int, c: int, b: int, t: int, doy: int)
    requires 0 <= c <= 3 && 0 <= b <= 24 && 0 <= t <= 3 && 0 <= doy <= 365
    requires doy == 365 ==> t == 3 && (b < 24 || c == 3)
    ensures
      var yoe := 100 * c + 4 * b + t;
      var y, z := era * 400 + yoe, 146_097 * era + 36_524 * c + 1461 * b + 365 * t + doy;
      && YearStart(y) <= z < YearStart(y + 1) && z - YearStart(y) == doy
      && 365 * yoe + yoe / 4 - yoe / 100 == 36_524 * c + 1461 * b + 365 * t
  {
    StartOfSplit(c, b, t);
    EraShifts(era, 100 * c + 4 * b + t);
    LeapsRepeat(era, 100 * c + 4 * b + t + 1);
    YearLength(era * 400 + (100 * c + 4 * b + t));
  }

  // ---- months ------------------------------------------------------------------------------

  /** Days from the first of March to the first of the month `mp` months later. */
  function MonthStart(mp: int): int {
    (153 * mp + 2) / 5
  }

  lemma MonthContainsDay(doy: int)
    requires 0 <= doy <= 365
    ensures
      var mp := (5 * doy + 2) / 153;
      0 <= mp <= 11 && MonthStart(mp) <= doy < MonthStart(mp + 1)
  {
  }

  function DateAt(y: int, doy: int): Date {
    var mp := (5 * doy + 2) / 153;
    var m := if mp < 10 then mp + 3 else mp - 9;
    Date(if m <= 2 then y + 1 else y, m, doy - MonthStart(mp) + 1)
  }

  /** Day `z` after the first of March of year 0 is day `doy` of March year `y`. */
  ghost predicate Located(z: int, y: int, doy: int) {
    z == YearStart(y) + doy && 0 <= doy < YearStart(y + 1) - YearStart(y)
  }

  /** The date of day `z` after the first of March of year 0, by counting years
  and then months. */
  ghost predicate IsDayOf(z: int, date: Date) {
    exists y, doy :: Located(z, y, doy) && date == DateAt(y, doy)
  }

  lemma ConversionCounts(days: int)
    ensures IsDayOf(days + 719_468, CivilFromDays(days))
  {
    YearContainsDay(days);
    var y := MarchYear(days);
    assert Located(days + 719_468, y, days + 719_468 - YearStart(y));
  }

  lemma DateAtIsDate(z: int, y: int, doy: int)
    requires Located(z, y, doy)
    ensures IsDate(DateAt(y, doy))
  {
    YearLength(y);
    MonthContainsDay(doy);
  }

  lemma MonthLength(y: int, mp: int)
    requires 0 <= mp < 11
    ensures MonthStart(mp + 1) - MonthStart(mp)
            == DaysInMonth(if mp < 10 then y else y + 1, if mp < 10 then mp + 3 else mp - 9)
  {
  }

  lemma DateAtAdvances(y: int, doy: int)
    requires 0 <= doy && doy + 1 < YearStart(y + 1) - YearStart(y)
    ensures DateAt(y, doy + 1) == NextDay(DateAt(y, doy))
  {
    YearLength(y);
    MonthContainsDay(doy);
    MonthContainsDay(doy + 1);
    var mp := (5 * doy + 2) / 153;
    if mp < 11 { MonthLength(y, mp); }
  }

  lemma DateAtTurnsYear(y: int, doy: int)
    requires doy == YearStart(y + 1) - YearStart(y) - 1
    ensures DateAt(y + 1, 0) == NextDay(DateAt(y, doy))
  {
    YearLength(y);
  }

  // ---- the conversion is right -----------------------------------------------------------------

  lemma EpochIsDayZero()
    ensures CivilFromDays(0) == Date(1970, 1, 1)
  {
    assert 719_468 / 146_097 == 4 && 719_468 % 146_097 == 135_080;
    assert 135_080 / 1460 == 92 && 135_080 / 36_524 == 3 && 135_080 / 146_096 == 0;
    assert (135_080 - 92 + 3) / 365 == 369;
  }

  lemma ConversionIsDate(days: int)
    ensures IsDate(CivilFromDays(days))
  {
    ConversionCounts(days);
    DayOfIsDate(days + 719_468, CivilFromDays(days));
  }

  lemma DayOfIsDate(z: int, date: Date)
    requires IsDayOf(z, date)
    ensures IsDate(date)
  {
    var y, doy :| Located(z, y, doy) && date == DateAt(y, doy);
    DateAtIsDate(z, y, doy);
  }

  /** A day of a March year and the day after it, wherever the year may end. */
  ghost predicate Follows(x: int, dx: int, y: int, dy: int) {
    || (y == x && dy == dx + 1 && 0 <= dx && dy < YearStart(x + 1) - YearStart(x))
    || (y == x + 1 && dy == 0 && dx == YearStart(y) - YearStart(x) - 1)
  }

  /** The day after a day is in the same year, or the first of the next. */
  lemma NextLocated(z: int, x: int, dx: int, y: int, dy: int)
    requires Located(z, x, dx) && Located(z + 1, y, dy)
    ensures Follows(x, dx, y, dy)
  {
    YearLength(x + 1);
    YearIsUnique(z + 1, if z + 1 < YearStart(x + 1) then x else x + 1, y);
  }

  lemma DatesAdvance(x: int, dx: int, y: int, dy: int)
    requires Follows(x, dx, y, dy)
    ensures DateAt(y, dy) == NextDay(DateAt(x, dx))
  {
    if x == y {
      DateAtAdvances(x, dx);
    } else {
      DateAtTurnsYear(x, dx);
    }
  }

  lemma DayOfAdvances(z: int, before: Date, after: Date)
    requires IsDayOf(z, before) && IsDayOf(z + 1, after)
    ensures after == NextDay(before)
  {
    var x, dx :| Located(z, x, dx) && before == DateAt(x, dx);
    var y, dy :| Located(z + 1, y, dy) && after == DateAt(y, dy);
    NextLocated(z, x, dx, y, dy);
    DatesAdvance(x, dx, y, dy);
  }

  /** The next day number is the next calendar day, across months, leap years,
  centuries and eras. */
  lemma ConversionAdvances(days: int)
    ensures CivilFromDays(days + 1) == NextDay(CivilFromDays(days))
  {
    ConversionCounts(days);
    ConversionCounts(days + 1);
    DayOfAdvances(days + 719_468, CivilFromDays(days), CivilFromDays(days + 1));
  }
}

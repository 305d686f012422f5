/** The log's date stamp: days since 1970-01-01 to the proleptic Gregorian calendar. */
module Calendar {
  datatype Date = Date(year: int, month: int, day: int)

  // ---- The code ---------------------------------------------------------------------------------

  /** Rust's integer division: the quotient is rounded toward zero. */
  function TruncDiv(a: int, b: int): int
    requires b > 0
  {
    if a >= 0 then a / b else -((-a) / b)
  }

  const DAYS_PER_ERA := 146_097
  const EPOCH_SHIFT := 719_468

  /** The day `doy` of the year counted from 1 March of `y`. */
  function FromMarchDay(y: int, doy: int): Date {
    var mp := TruncDiv(5 * doy + 2, 153);
    var d := doy - TruncDiv(153 * mp + 2, 5) + 1;
    var m := if mp < 10 then mp + 3 else mp - 9;
    Date(if m <= 2 then y + 1 else y, m, d)
  }

  /** The day `doe` of an era of 400 years that starts on 1 March. */
  function FromEraDay(era: int, doe: int): Date {
    var yoe := TruncDiv(doe - TruncDiv(doe, 1460) + TruncDiv(doe, 36_524) - TruncDiv(doe, 146_096), 365);
    FromMarchDay(yoe + era * 400, doe - (365 * yoe + TruncDiv(yoe, 4) - TruncDiv(yoe, 100)))
  }

  /** Day `z` counted from 1970-01-01. */
  function CivilFromDays(z: int): Date {
    var s := z + EPOCH_SHIFT;
    var era := TruncDiv(if s >= 0 then s else s - 146_096, DAYS_PER_ERA);
    FromEraDay(era, s - era * DAYS_PER_ERA)
  }

  // ---- The calendar -----------------------------------------------------------------------------

  predicate IsLeap(year: int) {
    year % 4 == 0 && (year % 100 != 0 || year % 400 == 0)
  }

  function DaysInMonth(year: int, month: int): int {
    if month == 2 then (if IsLeap(year) then 29 else 28)
    else if month in {4, 6, 9, 11} then 30
    else 31
  }

  predicate IsDate(d: Date) {
    1 <= d.month <= 12 && 1 <= d.day <= DaysInMonth(d.year, d.month)
  }

  function Next(d: Date): Date {
    if d.day < DaysInMonth(d.year, d.month) then Date(d.year, d.month, d.day + 1)
    else if d.month < 12 then Date(d.year, d.month + 1, 1)
    else Date(d.year + 1, 1, 1)
  }

  /** Days of `year` before the first of `month`. */
  function DaysBeforeMonth(year: int, month: int): int
    requires 1 <= month <= 12
    decreases month
  {
    if month == 1 then 0 else DaysBeforeMonth(year, month - 1) + DaysInMonth(year, month - 1)
  }

  /** Days from 1 January of year 1 to 1 January of `year`, negative for earlier years. */
  function DaysBeforeYear(year: int): int {
    var y := year - 1;
    365 * y + y / 4 - y / 100 + y / 400
  }

  /** The independent count: whole years, whole months, days, with 1970-01-01 as day 0. */
  function DaysFromCivil(d: Date): int
    requires 1 <= d.month <= 12
  {
    DaysBeforeYear(d.year) - DaysBeforeYear(1970) + DaysBeforeMonth(d.year, d.month) + d.day - 1
  }

  // ---- The code inverts the count -----------------------------------------------------------------

  lemma Quotient(x: int, n: int, q: int, r: int)
    requires x == n * q + r && 0 <= r < n
    ensures x / n == q && x % n == r
  {
    var k := x / n - q;
    assert n * k == r - x % n by {
      assert n * (x / n) == n * k + n * q;
    }
    assert k >= 1 ==> n * k >= n;
    assert k <= -1 ==> n * k <= -n;
  }

  lemma QuotientSteps(x: int, n: int)
    requires n > 1
    ensures (x + 1) / n - x / n == if (x + 1) % n == 0 then 1 else 0
  {
    var q, r := x / n, x % n;
    if r + 1 < n {
      Quotient(x + 1, n, q, r + 1);
    } else {
      assert x + 1 == n * (q + 1);
      Quotient(x + 1, n, q + 1, 0);
    }
  }

  lemma QuotientShift(x: int, n: int, k: int)
    requires n > 0
    ensures (x + n * k) / n == x / n + k && (x + n * k) % n == x % n
  {
    assert x + n * k == n * (x / n + k) + x % n;
    Quotient(x + n * k, n, x / n + k, x % n);
  }

  lemma YearLength(year: int)
    ensures DaysBeforeYear(year + 1) - DaysBeforeYear(year) == if IsLeap(year) then 366 else 365
  {
    QuotientSteps(year - 1, 4);
    QuotientSteps(year - 1, 100);
    QuotientSteps(year - 1, 400);
    FourHundreds(year);
  }

  lemma FourHundreds(x: int)
    ensures x % 100 == 0 ==> x % 4 == 0
    ensures x % 400 == 0 ==> x % 100 == 0
  {
    var c := x / 100;
    assert x == 100 * c + x % 100;
    if x % 100 == 0 {
      Quotient(x, 4, 25 * c, 0);
    }
    if x % 400 == 0 {
      Quotient(x, 100, 4 * (x / 400), 0);
    }
  }

  /** Months counted from March have lengths in a pattern of 153 days every five. */
  lemma {:induction false} MonthOffset(year: int, month: int)
    requires 1 <= month <= 12
    ensures month >= 3 ==> DaysBeforeMonth(year, month) == (153 * (month - 3) + 2) / 5 + if IsLeap(year) then 60 else 59
    ensures month <= 2 ==> DaysBeforeMonth(year, month) == (153 * (month + 9) + 2) / 5 - 306
    decreases month
  {
    if month > 1 {
      MonthOffset(year, month - 1);
    }
  }

  /** The length of the year that starts on 1 March of `y`. */
  function MarchYear(y: int): int {
    if IsLeap(y + 1) then 366 else 365
  }

  /** A date as year `y`, month `mp` and day of the year `doy`, all counted from 1 March. */
  lemma FromMarch(d: Date) returns (y: int, mp: int, doy: int)
    requires IsDate(d)
    ensures d.year == (if d.month <= 2 then y + 1 else y) && d.month == (if mp < 10 then mp + 3 else mp - 9)
    ensures 0 <= mp < 12 && doy == (153 * mp + 2) / 5 + d.day - 1
    ensures 0 <= doy < MarchYear(y) && (mp < 11 ==> doy < (153 * (mp + 1) + 2) / 5)
    ensures DaysFromCivil(d) + EPOCH_SHIFT == 365 * y + y / 4 - y / 100 + y / 400 + doy
  {
    y := if d.month <= 2 then d.year - 1 else d.year;
    mp := if d.month <= 2 then d.month + 9 else d.month - 3;
    doy := (153 * mp + 2) / 5 + d.day - 1;
    MarchCount(d, y, mp);
  }

  lemma MarchCount(d: Date, y: int, mp: int)
    requires IsDate(d)
    requires if d.month <= 2 then y == d.year - 1 && mp == d.month + 9 else y == d.year && mp == d.month - 3
    ensures DaysFromCivil(d) + EPOCH_SHIFT
            == 365 * y + y / 4 - y / 100 + y / 400 + (153 * mp + 2) / 5 + d.day - 1
  {
    MonthOffset(d.year, d.month);
    YearLength(d.year);
  }

  /** Dividing out the leap days finds year 100c + 4q + r of the era. */
  lemma YearOfEra(c: int, q: int, r: int, doy: int, doe: int)
    requires 0 <= c < 4 && 0 <= q < 25 && 0 <= r < 4 && 0 <= doy <= 365
    requires doy == 365 ==> r == 3 && (q < 24 || c == 3)
    requires doe == 36_524 * c + 1461 * q + 365 * r + doy
    ensures 0 <= doe < DAYS_PER_ERA
    ensures (doe - doe / 1460 + doe / 36_524 - doe / 146_096) / 365 == 100 * c + 4 * q + r
  {
    assert doe / 36_524 - doe / 146_096 == c;
    var over := if 24 * c + q + 365 * r + doy >= 1460 then 1 else 0;
    assert doe / 1460 == 25 * c + q + over;
    assert doe - doe / 1460 + doe / 36_524 - doe / 146_096 == 365 * (100 * c + 4 * q + r) + (doy - over);
  }

  lemma SplitYear(yoe: int) returns (c: int, q: int, r: int)
    requires 0 <= yoe < 400
    ensures 0 <= c < 4 && 0 <= q < 25 && 0 <= r < 4 && yoe == 100 * c + 4 * q + r
    ensures yoe / 4 == 25 * c + q && yoe / 100 == c
    ensures IsLeap(yoe + 1) ==> r == 3 && (q < 24 || c == 3)
  {
    c := yoe / 100;
    q := yoe % 100 / 4;
    r := yoe % 4;
  }

  lemma ErasShift(x: int, eras: int)
    ensures (x + 400 * eras) / 4 == x / 4 + 100 * eras && (x + 400 * eras) % 4 == x % 4
    ensures (x + 400 * eras) / 100 == x / 100 + 4 * eras && (x + 400 * eras) % 100 == x % 100
    ensures (x + 400 * eras) / 400 == x / 400 + eras && (x + 400 * eras) % 400 == x % 400
  {
    QuotientShift(x, 4, 100 * eras);
    QuotientShift(x, 100, 4 * eras);
    QuotientShift(x, 400, eras);
  }

  lemma EraParts(y: int) returns (era: int, yoe: int)
    ensures y == 400 * era + yoe && 0 <= yoe < 400 && MarchYear(y) == MarchYear(yoe)
    ensures 365 * y + y / 4 - y / 100 + y / 400 == DAYS_PER_ERA * era + 365 * yoe + yoe / 4 - yoe / 100
  {
    era, yoe := y / 400, y % 400;
    ErasShift(yoe, era);
    ErasShift(yoe + 1, era);
  }

  lemma EraOf(era: int, doe: int)
    requires 0 <= doe < DAYS_PER_ERA
    ensures var s := era * DAYS_PER_ERA + doe;
            TruncDiv(if s >= 0 then s else s - 146_096, DAYS_PER_ERA) == era
  {
    var s := era * DAYS_PER_ERA + doe;
    if s < 0 {
      assert -(s - 146_096) == -era * DAYS_PER_ERA + (146_096 - doe);
    }
  }

  lemma DecodesMarchDay(y: int, mp: int, day: int, doy: int)
    requires 0 <= mp < 12 && day >= 1 && doy == (153 * mp + 2) / 5 + day - 1
    requires doy <= 365 && (mp < 11 ==> doy < (153 * (mp + 1) + 2) / 5)
    ensures FromMarchDay(y, doy) == Date(y + if mp < 10 then 0 else 1, if mp < 10 then mp + 3 else mp - 9, day)
  {
    assert (5 * doy + 2) / 153 == mp;
  }

  lemma DecodesEraDay(era: int, yoe: int, doy: int, doe: int)
    requires 0 <= doe && 0 <= yoe && doe == 365 * yoe + yoe / 4 - yoe / 100 + doy
    requires (doe - doe / 1460 + doe / 36_524 - doe / 146_096) / 365 == yoe
    ensures FromEraDay(era, doe) == FromMarchDay(yoe + era * 400, doy)
  {
  }

  /** The era day of day `doy` in the year from 1 March of `y`. */
  lemma EraDayOf(y: int, doy: int) returns (era: int, doe: int)
    requires 0 <= doy < MarchYear(y)
    ensures 365 * y + y / 4 - y / 100 + y / 400 + doy == era * DAYS_PER_ERA + doe && 0 <= doe < DAYS_PER_ERA
    ensures FromEraDay(era, doe) == FromMarchDay(y, doy)
  {
    var yoe;
    era, yoe := EraParts(y);
    var c, q, r := SplitYear(yoe);
    doe := 365 * yoe + yoe / 4 - yoe / 100 + doy;
    YearOfEra(c, q, r, doy, doe);
    DecodesEraDay(era, yoe, doy, doe);
  }

  lemma ShiftedDay(z: int, era: int, doe: int)
    requires z + EPOCH_SHIFT == era * DAYS_PER_ERA + doe && 0 <= doe < DAYS_PER_ERA
    ensures CivilFromDays(z) == FromEraDay(era, doe)
  {
    EraOf(era, doe);
  }

  /** Every calendar date is what the code makes of its day number. */
  lemma CivilInvertsCount(d: Date)
    requires IsDate(d)
    ensures CivilFromDays(DaysFromCivil(d)) == d
  {
    var y, mp, doy := FromMarch(d);
    var era, doe := EraDayOf(y, doy);
    ShiftedDay(DaysFromCivil(d), era, doe);
    DecodesMarchDay(y, mp, d.day, doy);
  }

  // ---- The calendar has a date for every day ---------------------------------------------------------

  lemma NextCounts(d: Date)
    requires IsDate(d)
    ensures IsDate(Next(d)) && DaysFromCivil(Next(d)) == DaysFromCivil(d) + 1
  {
    if d.day == DaysInMonth(d.year, d.month) && d.month == 12 {
      YearLength(d.year);
      MonthOffset(d.year, 12);
    }
  }

  lemma LeapRepeats(year: int, eras: int)
    ensures IsLeap(year + 400 * eras) == IsLeap(year)
  {
    ErasShift(year, eras);
  }

  lemma SameMonths(a: int, b: int, month: int)
    requires 1 <= month <= 12 && IsLeap(a) == IsLeap(b)
    ensures DaysBeforeMonth(a, month) == DaysBeforeMonth(b, month)
  {
    MonthOffset(a, month);
    MonthOffset(b, month);
  }

  lemma YearsRepeat(year: int, eras: int)
    ensures DaysBeforeYear(year + 400 * eras) == DaysBeforeYear(year) + eras * DAYS_PER_ERA
  {
    ErasShift(year - 1, eras);
  }

  lemma ErasRepeat(d: Date, eras: int)
    requires IsDate(d)
    ensures var later := Date(d.year + 400 * eras, d.month, d.day);
            IsDate(later) && DaysFromCivil(later) == DaysFromCivil(d) + eras * DAYS_PER_ERA
  {
    LeapRepeats(d.year, eras);
    SameMonths(d.year, d.year + 400 * eras, d.month);
    YearsRepeat(d.year, eras);
  }

  lemma {:induction false} DateAfterEpoch(z: nat) returns (d: Date)
    ensures IsDate(d) && DaysFromCivil(d) == z
    decreases z
  {
    if z == 0 {
      d := Date(1970, 1, 1);
    } else {
      var before := DateAfterEpoch(z - 1);
      NextCounts(before);
      d := Next(before);
    }
  }

  lemma DateOf(z: int) returns (d: Date)
    ensures IsDate(d) && DaysFromCivil(d) == z
  {
    var eras := if z < 0 then z else 0;
    assert z - eras * DAYS_PER_ERA >= 0;
    var within := DateAfterEpoch(z - eras * DAYS_PER_ERA);
    ErasRepeat(within, eras);
    d := Date(within.year + 400 * eras, within.month, within.day);
  }

  lemma CivilAt(d: Date, z: int)
    requires IsDate(d) && DaysFromCivil(d) == z
    ensures CivilFromDays(z) == d
  {
    CivilInvertsCount(d);
  }

  /** Every day number gives a calendar date whose count is that number. */
  lemma CountInvertsCivil(z: int)
    ensures IsDate(CivilFromDays(z)) && DaysFromCivil(CivilFromDays(z)) == z
  {
    var d := DateOf(z);
    CivilInvertsCount(d);
  }

  /** Day 0 is 1970-01-01, and each day is followed by the next date of the calendar. */
  lemma CivilIsTheCalendar(z: int)
    ensures CivilFromDays(0) == Date(1970, 1, 1)
    ensures CivilFromDays(z + 1) == Next(CivilFromDays(z))
  {
    CivilAt(Date(1970, 1, 1), 0);
    var d := DateOf(z);
    NextCounts(d);
    CivilAt(d, z);
    CivilAt(Next(d), z + 1);
  }
}

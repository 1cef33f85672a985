/**
 * The program calendar: a fixed 30-week window starting on Monday 2 June 2025,
 * the mapping from a date to its program week (clamped to 1..30) and the
 * week-3 gate on strength training.
 *
 * A date is represented by its day ordinal: the number of days since
 * 1970-01-01 (negative before it). Subtracting two ordinals gives the
 * `timedelta(...).days` of the source.
 */
module Calendar {

  /** A date of the proleptic Gregorian calendar. */
  datatype Date = Date(year: int, month: int, day: int)

  // The civil <-> ordinal conversion counts in 400-year eras of 146097 days
  // whose years start on 1 March, so that the leap day ends a year.

  /** Month index in a March-based year: March is 0, February is 11. */
  function MarchMonth(m: int): int { if m > 2 then m - 3 else m + 9 }

  /** Days from 1 March to the first day of March-based month `mp`. */
  function MonthOffset(mp: int): int { (153 * mp + 2) / 5 }

  /** Days from the start of an era to 1 March of its year `yoe`. */
  function YearOffset(yoe: int): int { yoe * 365 + yoe / 4 - yoe / 100 }

  /** Day ordinal of a civil date (days since 1970-01-01). */
  function DaysFromCivil(y: int, m: int, d: int): int
  {
    var y' := if m <= 2 then y - 1 else y;
    var era := y' / 400;
    var yoe := y' - era * 400;
    var doe := YearOffset(yoe) + MonthOffset(MarchMonth(m)) + d - 1;
    era * 146097 + doe - 719468
  }

  /** Gregorian leap years, as in Python's `calendar.isleap`. */
  predicate IsLeapYear(y: int)
  {
    y % 4 == 0 && (y % 100 != 0 || y % 400 == 0)
  }

  /** Number of days of month `m` of year `y`. */
  function DaysInMonth(y: int, m: int): int
  {
    if m == 2 then (if IsLeapYear(y) then 29 else 28)
    else if m == 4 || m == 6 || m == 9 || m == 11 then 30
    else 31
  }

  /** Days of March-based year `yoe` of an era: 366 when the February it ends has a leap day. */
  function YearLength(yoe: int): int
  {
    if IsLeapYear(yoe + 1) then 366 else 365
  }

  /** Year of era (0..399) of day of era `doe` (0..146096). */
  function YearOfEra(doe: int): (yoe: int)
    requires 0 <= doe < 146097
    ensures 0 <= yoe < 400
    ensures 0 <= doe - YearOffset(yoe) < YearLength(yoe)
  {
    YearOfEraBounds(doe);
    (doe - doe / 1460 + doe / 36524 - doe / 146096) / 365
  }

  /**
   * Bounds of the year-of-era formula: writing doe = 36524c + 1461q + s
   * (century c, four-year block q, day s of the block) the formula gives
   * year 100c + 4q + j with j = (s - x) / 365, where x is 1 only on the
   * block's leap day.
   */
  lemma YearOfEraBounds(doe: int)
    requires 0 <= doe < 146097
    ensures var yoe := (doe - doe / 1460 + doe / 36524 - doe / 146096) / 365;
      0 <= yoe < 400 && 0 <= doe - YearOffset(yoe) < YearLength(yoe)
  {
    if doe == 146096 {
      LastDayOfEra();
    } else {
      var c := if doe >= 3 * 36524 then 3 else if doe >= 2 * 36524 then 2 else if doe >= 36524 then 1 else 0;
      var r := doe - 36524 * c;
      var q, s := r / 1461, r % 1461;
      assert 1461 * q <= r < 36524;
      var x := if 24 * c + q + s >= 1460 then 1 else 0;
      EraCorrection(doe, c, q, s, x);
      YearInBlock(c, q, s, x);
    }
  }

  /** The era's final day, a leap day, falls in its last year 399. */
  lemma LastDayOfEra()
    ensures var doe := 146096; var yoe := (doe - doe / 1460 + doe / 36524 - doe / 146096) / 365;
      yoe == 399 && 0 <= doe - YearOffset(yoe) < YearLength(yoe)
  {
    assert IsLeapYear(400);
  }

  /** The year formula on day s of four-year block q of century c. */
  lemma YearInBlock(c: int, q: int, s: int, x: int)
    requires 0 <= c <= 3 && 0 <= q <= 24 && 0 <= s < 1461 && 1461 * q + s < 36524
    requires x == if 24 * c + q + s >= 1460 then 1 else 0
    ensures var yoe := (36500 * c + 1460 * q + s - x) / 365;
      0 <= yoe < 400 && 0 <= 36524 * c + 1461 * q + s - YearOffset(yoe) < YearLength(yoe)
  {
    var t := 36500 * c + 1460 * q + s - x;
    var j := if s - x >= 1095 then 3 else if s - x >= 730 then 2 else if s - x >= 365 then 1 else 0;
    QuotientOf(t, 365, 100 * c + 4 * q + j, s - x - 365 * j);
    YearOffsetOfBlock(c, q, j);
    var yoe := 100 * c + 4 * q + j;
    if j < 3 {
      QuotientOf(yoe + 1, 4, 25 * c + q, j + 1);
    } else if s == 1460 {
      // the block's leap day: the year ends on 29 February of a year divisible by 4 but not by 100
      QuotientOf(yoe + 1, 4, 25 * c + q + 1, 0);
      QuotientOf(yoe + 1, 100, c, 4 * q + 4);
    }
  }

  /** The corrected day count of the year formula, for doe = 36524c + 1461q + s. */
  lemma EraCorrection(doe: int, c: int, q: int, s: int, x: int)
    requires 0 <= doe < 146096 && doe == 36524 * c + 1461 * q + s
    requires 0 <= c <= 3 && 0 <= q <= 24 && 0 <= s < 1461 && 1461 * q + s < 36524
    requires x == if 24 * c + q + s >= 1460 then 1 else 0
    ensures doe - doe / 1460 + doe / 36524 - doe / 146096 == 36500 * c + 1460 * q + s - x
  {
    QuotientOf(doe, 1460, 25 * c + q + x, 24 * c + q + s - 1460 * x);
    QuotientOf(doe, 36524, c, 1461 * q + s);
    QuotientOf(doe, 146096, 0, doe);
  }

  /** The year offset of year 100c + 4q + j (j < 4) of an era. */
  lemma YearOffsetOfBlock(c: int, q: int, j: int)
    requires 0 <= c <= 3 && 0 <= q <= 24 && 0 <= j < 4
    ensures YearOffset(100 * c + 4 * q + j) == 36524 * c + 1461 * q + 365 * j
  {
    var yoe := 100 * c + 4 * q + j;
    QuotientOf(yoe, 4, 25 * c + q, j);
    QuotientOf(yoe, 100, c, 4 * q + j);
  }

  /** Euclidean division is determined by a quotient and a remainder in range. */
  lemma QuotientOf(n: int, d: int, q: int, r: int)
    requires 0 < d && 0 <= r < d && n == d * q + r
    ensures n / d == q && n % d == r
  {
    var k := n / d;
    assert n == d * k + n % d;
    if k < q {
      MultiplyMonotonic(d, k + 1, q);
    } else if k > q {
      MultiplyMonotonic(d, q + 1, k);
    }
  }

  lemma {:induction false} MultiplyMonotonic(d: int, a: int, b: int)
    requires 0 < d && a <= b
    ensures d * a <= d * b
    decreases b - a
  {
    if a < b {
      MultiplyMonotonic(d, a, b - 1);
      assert d * b == d * (b - 1) + d;
    }
  }

  /** March-based month (0..11) of day of March-based year `doy` (0..365). */
  function MonthOfYear(doy: int): (mp: int)
    requires 0 <= doy < 366
    ensures 0 <= mp < 12
    ensures 0 <= doy - MonthOffset(mp) < 31
    ensures mp < 11 ==> doy < MonthOffset(mp + 1)
  {
    (5 * doy + 2) / 153
  }

  /** Civil date of day `doe` of era `era`. */
  function CivilOfEraDay(era: int, doe: int): (r: Date)
    requires 0 <= doe < 146097
    ensures 1 <= r.month <= 12 && 1 <= r.day <= 31
  {
    var yoe := YearOfEra(doe);
    var doy := doe - YearOffset(yoe);
    var mp := MonthOfYear(doy);
    var m := if mp < 10 then mp + 3 else mp - 9;
    Date(yoe + era * 400 + (if m <= 2 then 1 else 0), m, doy - MonthOffset(mp) + 1)
  }

  /** Civil date of a day ordinal; month and day always lie in their calendar ranges. */
  function CivilFromDays(n: int): (r: Date)
    ensures 1 <= r.month <= 12 && 1 <= r.day <= 31
  {
    var z := n + 719468;
    CivilOfEraDay(z / 146097, z % 146097)
  }

  /** Converting an ordinal to a civil date and back gives the ordinal again. */
  lemma CivilRoundTrip(n: int)
    ensures var c := CivilFromDays(n); DaysFromCivil(c.year, c.month, c.day) == n
  {
    var z := n + 719468;
    EraDayRoundTrip(z / 146097, z % 146097);
  }

  lemma EraDayRoundTrip(era: int, doe: int)
    requires 0 <= doe < 146097
    ensures var c := CivilOfEraDay(era, doe); DaysFromCivil(c.year, c.month, c.day) == era * 146097 + doe - 719468
  {
    var yoe := YearOfEra(doe);
    var doy := doe - YearOffset(yoe);
    var mp := MonthOfYear(doy);
    var c := CivilOfEraDay(era, doe);
    assert MarchMonth(c.month) == mp;
    var y' := if c.month <= 2 then c.year - 1 else c.year;
    assert y' == yoe + era * 400;
    QuotientOf(y', 400, era, yoe);
    assert YearOffset(yoe) + MonthOffset(mp) + c.day - 1 == doe;
  }

  /** Lengths of the March-based months March .. January: 30 for April, June, September and November. */
  lemma MonthLength(mp: int)
    requires 0 <= mp < 11
    ensures MonthOffset(mp + 1) - MonthOffset(mp) == if mp == 1 || mp == 3 || mp == 6 || mp == 8 then 30 else 31
  {
  }

  /** Leap years repeat every 400 years. */
  lemma LeapPeriodic(k: int, e: int)
    ensures IsLeapYear(k + 400 * e) == IsLeapYear(k)
  {
    QuotientOf(k + 400 * e, 4, k / 4 + 100 * e, k % 4);
    QuotientOf(k + 400 * e, 100, k / 100 + 4 * e, k % 100);
    QuotientOf(k + 400 * e, 400, k / 400 + e, k % 400);
  }

  /** The day of an ordinal's civil date never exceeds the length of its month. */
  lemma CivilDayInMonth(n: int)
    ensures var c := CivilFromDays(n); c.day <= DaysInMonth(c.year, c.month)
  {
    var z := n + 719468;
    EraDayInMonth(z / 146097, z % 146097);
  }

  lemma EraDayInMonth(era: int, doe: int)
    requires 0 <= doe < 146097
    ensures var c := CivilOfEraDay(era, doe); c.day <= DaysInMonth(c.year, c.month)
  {
    var yoe := YearOfEra(doe);
    var doy := doe - YearOffset(yoe);
    var mp := MonthOfYear(doy);
    if mp < 11 {
      MonthLength(mp);
    } else {
      LeapPeriodic(yoe + 1, era);
    }
  }

  /** Number of weeks of the program. */
  const ProgramWeeks: int := 30

  /** First day of the program: Monday 2 June 2025. */
  const ProgramStart: int := DaysFromCivil(2025, 6, 2)

  /** The day 30 weeks after the start (`start_date + timedelta(weeks=30)`). */
  const ProgramEnd: int := ProgramStart + 7 * ProgramWeeks

  /** The anchors of the window as civil dates: 2025-06-02 and 2025-12-29. */
  lemma AnchorDates()
    ensures ProgramStart == 20241
    ensures CivilFromDays(ProgramStart) == Date(2025, 6, 2)
    ensures CivilFromDays(ProgramEnd) == Date(2025, 12, 29)
  {
    assert YearOffset(25) == 9131 && MonthOffset(MarchMonth(6)) == 92;
    assert DaysFromCivil(2025, 6, 2) == 5 * 146097 + 9224 - 719468;
    assert YearOfEra(9224) == 25 && MonthOfYear(93) == 3;
    assert CivilFromDays(20241) == Date(2025, 6, 2);
    assert YearOfEra(9434) == 25 && MonthOfYear(303) == 9 && MonthOffset(9) == 275;
    assert CivilFromDays(20451) == Date(2025, 12, 29);
  }

  /** The program window as (start, end): 2025-06-02 and the day 210 days later. */
  function ProgramInfo(): (window: (int, int))
    ensures window.0 == ProgramStart && window.1 - window.0 == 210
    ensures CivilFromDays(window.0) == Date(2025, 6, 2)
    ensures CivilFromDays(window.1) == Date(2025, 12, 29)
  {
    AnchorDates();
    (ProgramStart, ProgramEnd)
  }

  /** First day of program week `w` (`start_date + timedelta(weeks=w-1)`). */
  function WeekStart(w: int): (s: int)
    ensures (s - ProgramStart) % 7 == 0
    ensures 1 <= w <= ProgramWeeks ==> ProgramStart <= s && s + 7 <= ProgramEnd
  {
    ProgramStart + 7 * (w - 1)
  }

  /**
   * Program week of date `d`: the number of whole weeks since the start,
   * plus one, clamped to 1..30. Dates before the start are week 1, dates
   * from the first day of week 30 on are week 30.
   */
  function WeekNumber(d: int): (w: int)
    ensures 1 <= w <= ProgramWeeks
    ensures d < ProgramStart ==> w == 1
    ensures d >= WeekStart(ProgramWeeks) ==> w == ProgramWeeks
    ensures 1 <= (d - ProgramStart) / 7 + 1 <= ProgramWeeks ==> w == (d - ProgramStart) / 7 + 1
  {
    var daysDiff := d - ProgramStart;
    var weekNum := daysDiff / 7 + 1;  // floor division, as Python's // for a positive divisor
    if weekNum < 1 then 1 else if weekNum > ProgramWeeks then ProgramWeeks else weekNum
  }

  /**
   * The dates of week `w` are exactly its seven days, except that week 1 also
   * takes every earlier date and week 30 every later one.
   */
  lemma WeekNumberRange(d: int, w: int)
    requires 1 <= w <= ProgramWeeks
    ensures WeekNumber(d) == w <==>
      (w == 1 || WeekStart(w) <= d) && (w == ProgramWeeks || d < WeekStart(w) + 7)
  {
    var k := (d - ProgramStart) / 7;
    assert 7 * k <= d - ProgramStart < 7 * k + 7;
  }

  /** The first day of week `w` is in week `w`, and the day before it in the previous week. */
  lemma WeekStartIsFirstDay(w: int)
    requires 1 <= w <= ProgramWeeks
    ensures WeekNumber(WeekStart(w)) == w
    ensures w > 1 ==> WeekNumber(WeekStart(w) - 1) == w - 1
  {
    WeekNumberRange(WeekStart(w), w);
    if w > 1 {
      WeekNumberRange(WeekStart(w) - 1, w - 1);
    }
  }

  /** Later dates never have an earlier week. */
  lemma WeekNumberMonotonic(d1: int, d2: int)
    requires d1 <= d2
    ensures WeekNumber(d1) <= WeekNumber(d2)
  {
    var k1, k2 := (d1 - ProgramStart) / 7, (d2 - ProgramStart) / 7;
    assert 7 * k1 <= d1 - ProgramStart < 7 * k1 + 7;
    assert 7 * k2 <= d2 - ProgramStart < 7 * k2 + 7;
  }

  /** Strength training is offered from week 3 on, that is from the 15th program day. */
  function IsStrengthAvailable(d: int): (available: bool)
    ensures available <==> d >= ProgramStart + 14
  {
    WeekNumber(d) >= 3
  }
}

/**
 * Howard Hinnant's `civil_from_days`, as written inside `now_date_tokens` of
 * repo_sync.rs: a day count since 1970-01-01 becomes a proleptic Gregorian
 * year, month and day, in signed 64-bit integer arithmetic.
 */
module CivilDays {
  /** Rust's `/` on signed integers, which truncates toward zero. */
  function TruncDiv(a: int, b: int): (q: int)
    requires b > 0
    ensures a >= 0 ==> q == a / b
  {
    if a >= 0 then a / b else -((-a) / b)
  }

  /** Rust's `as i64` on a `u64`: values from 2^63 up wrap to negative. */
  function AsI64(x: nat): int
    requires x < 0x1_0000_0000_0000_0000
  {
    if x < 0x8000_0000_0000_0000 then x else x - 0x1_0000_0000_0000_0000
  }

  datatype Civil = Civil(year: int, month: int, day: int)

  /** The era (400-year cycle) that day `z` (counted from 1 March of year 0) falls in. */
  function EraOf(z: int): int {
    TruncDiv(if z >= 0 then z else z - 146096, 146097)
  }

  /** The year of the era estimated from the day of the era. */
  function YearOfEra(doe: int): int {
    TruncDiv(doe - TruncDiv(doe, 1460) + TruncDiv(doe, 36524) - TruncDiv(doe, 146096), 365)
  }

  /** The start of year `yoe` of an era, in days since the era began. */
  function YearStart(yoe: int): int {
    365 * yoe + TruncDiv(yoe, 4) - TruncDiv(yoe, 100)
  }

  /** The month index counted from March (0 is March, 11 is February). */
  function MonthIndex(doy: int): int {
    TruncDiv(5 * doy + 2, 153)
  }

  /** The day of the month of day `doy` of the year (counted from 1 March). */
  function DayOfMonth(doy: int, mp: int): int {
    doy - TruncDiv(153 * mp + 2, 5) + 1
  }

  /** The day of the era of day `days` since 1970-01-01. */
  function DayOfEra(days: int): int {
    var z := days + 719468;
    z - EraOf(z) * 146097
  }

  /** The day of the year, counted from 1 March, of day `days` since 1970-01-01. */
  function DayOfYear(days: int): int {
    var doe := DayOfEra(days);
    doe - YearStart(YearOfEra(doe))
  }

  /** Howard Hinnant's `civil_from_days`, as written in `now_date_tokens`. */
  function CivilFromDays(days: int): Civil {
    var era := EraOf(days + 719468);
    var y := YearOfEra(DayOfEra(days)) + era * 400;
    var doy := DayOfYear(days);
    var mp := MonthIndex(doy);
    var d := DayOfMonth(doy, mp);
    var m := mp + if mp < 10 then 3 else -9;
    var year := y + if m <= 2 then 1 else 0;
    Civil(year, m, d)
  }

  /**
   * Within century `c` of an era the year estimate lands on the year that
   * contains the day: writing the day as `36524 * c + 1461 * k + r` (`k`
   * four-year blocks, `r` days into the block), the estimate is the year
   * `100 * c + 4 * k + j` with `j` the year within the block.
   */
  lemma DayOfYearInCentury(doe: int, c: int)
    requires 0 <= c <= 3 && 36524 * c <= doe < 36524 * (c + 1)
    ensures var yoe := (doe - doe / 1460 + c) / 365;
      0 <= doe - (365 * yoe + yoe / 4 - yoe / 100) <= 365
  {
    var e := doe - 36524 * c;
    var k := e / 1461;
    var r := e % 1461;
    assert 0 <= k <= 24 && (k == 24 ==> r <= 1459);
    var t := BlockQuotient(doe, c, k, r);
    var j := BlockYear(c, k, r, t);
    BlockYearStart(c, k, j);
  }

  lemma BlockQuotient(doe: int, c: int, k: int, r: int) returns (t: int)
    requires 0 <= c <= 3 && 0 <= k <= 24 && 0 <= r <= 1460
    requires doe == 36524 * c + 1461 * k + r
    ensures t == (if 24 * c + k + r >= 1460 then 1 else 0)
    ensures doe / 1460 == 25 * c + k + t
  {
    t := if 24 * c + k + r >= 1460 then 1 else 0;
    assert doe == 1460 * (25 * c + k) + (24 * c + k + r);
  }

  lemma BlockYear(c: int, k: int, r: int, t: int) returns (j: int)
    requires 0 <= c <= 3 && 0 <= k <= 24 && 0 <= r <= 1460
    requires t == (if 24 * c + k + r >= 1460 then 1 else 0)
    ensures j == (if r < 1095 then r / 365 else 3)
    ensures (36500 * c + 1460 * k + r - t) / 365 == 100 * c + 4 * k + j
  {
    j := if r < 1095 then r / 365 else 3;
    assert 0 <= r - t - 365 * j < 365;
  }

  lemma BlockYearStart(c: int, k: int, j: int)
    requires 0 <= c <= 3 && 0 <= k <= 24 && 0 <= j <= 3
    ensures var y := 100 * c + 4 * k + j;
      365 * y + y / 4 - y / 100 == 36524 * c + 1461 * k + 365 * j
  {
    var y := 100 * c + 4 * k + j;
    assert y / 4 == 25 * c + k;
    assert y / 100 == c;
  }

  /** For every day of an era, the day of the year lies in 0..365. */
  lemma DayOfYearInRange(doe: int)
    requires 0 <= doe <= 146096
    ensures 0 <= YearOfEra(doe) && 0 <= doe - YearStart(YearOfEra(doe)) <= 365
  {
    if doe == 146096 {
      assert YearOfEra(doe) == 399;
    } else {
      var c := doe / 36524;
      assert doe / 146096 == 0;
      assert YearOfEra(doe) == (doe - doe / 1460 + c) / 365;
      DayOfYearInCentury(doe, c);
    }
  }

  /** The era arithmetic leaves a day of era in 0..146096 whatever the sign of `z`. */
  lemma DayOfEraInRange(z: int)
    ensures 0 <= z - EraOf(z) * 146097 <= 146096
  {
  }

  /** A day of year in 0..365 (counted from 1 March) gives a month in 1..12 and a day in 1..31. */
  lemma MonthAndDayInRange(doy: int)
    requires 0 <= doy <= 365
    ensures 0 <= MonthIndex(doy) <= 11 && 1 <= DayOfMonth(doy, MonthIndex(doy)) <= 31
  {
  }

  /** Every day number gives a month in 1..12 and a day of month in 1..31. */
  lemma CivilRanges(days: int)
    ensures 1 <= CivilFromDays(days).month <= 12 && 1 <= CivilFromDays(days).day <= 31
  {
    DayOfEraInRange(days + 719468);
    DayOfYearInRange(DayOfEra(days));
    MonthAndDayInRange(DayOfYear(days));
  }

  /** Day 0 is 1 January 1970. */
  lemma EpochCivil()
    ensures CivilFromDays(0) == Civil(1970, 1, 1)
  {
    assert TruncDiv(719468, 146097) == 4;
    assert TruncDiv(135080, 1460) == 92;
    assert TruncDiv(135080, 36524) == 3;
    assert TruncDiv(135080, 146096) == 0;
    assert TruncDiv(135080 - 92 + 3 - 0, 365) == 369;
    assert TruncDiv(369, 4) == 92 && TruncDiv(369, 100) == 3;
    assert TruncDiv(5 * 306 + 2, 153) == 10;
    assert TruncDiv(153 * 10 + 2, 5) == 306;
  }

  /** A leap day: 951782400 seconds is 29 February 2000. */
  lemma LeapDay2000()
    ensures CivilFromDays(951782400 / 86400) == Civil(2000, 2, 29)
  {
    assert 951782400 / 86400 == 11016;
    assert TruncDiv(730484, 146097) == 4;
    assert TruncDiv(146096, 1460) == 100;
    assert TruncDiv(146096, 36524) == 4;
    assert TruncDiv(146096, 146096) == 1;
    assert TruncDiv(146096 - 100 + 4 - 1, 365) == 399;
    assert TruncDiv(399, 4) == 99 && TruncDiv(399, 100) == 3;
    assert TruncDiv(5 * 365 + 2, 153) == 11;
    assert TruncDiv(153 * 11 + 2, 5) == 337;
  }

  /** The last second of 1999 is still 31 December 1999, the next one is 1 January 2000. */
  lemma NewYear2000()
    ensures CivilFromDays(946684799 / 86400) == Civil(1999, 12, 31)
    ensures CivilFromDays(946684800 / 86400) == Civil(2000, 1, 1)
  {
    assert 946684799 / 86400 == 10956 && 946684800 / 86400 == 10957;
    assert TruncDiv(730424, 146097) == 4 && TruncDiv(730425, 146097) == 4;
    assert TruncDiv(146036, 1460) == 100 && TruncDiv(146037, 1460) == 100;
    assert TruncDiv(146036, 36524) == 3 && TruncDiv(146037, 36524) == 3;
    assert TruncDiv(146036, 146096) == 0 && TruncDiv(146037, 146096) == 0;
    assert TruncDiv(146036 - 100 + 3, 365) == 399 && TruncDiv(146037 - 100 + 3, 365) == 399;
    assert TruncDiv(399, 4) == 99 && TruncDiv(399, 100) == 3;
    assert TruncDiv(5 * 305 + 2, 153) == 9 && TruncDiv(5 * 306 + 2, 153) == 10;
    assert TruncDiv(153 * 9 + 2, 5) == 275 && TruncDiv(153 * 10 + 2, 5) == 306;
  }
}

/**
 * `now_date_tokens` of repo_sync.rs: the current time in epoch seconds is
 * turned into a proleptic Gregorian date with Howard Hinnant's
 * civil-from-days algorithm, in signed 64-bit integer arithmetic, and then
 * into the six strings that the date placeholders are replaced with.
 */
module Calendar {
  import opened Strings
  import opened CivilDays

  /** Rust's `to_string` of a signed integer. */
  function IntToString(n: int): (r: string)
    ensures |r| >= 1 && forall i :: 0 <= i < |r| ==> r[i] == '-' || IsDigit(r[i])
  {
    if n < 0 then "-" + NatToString(-n) else NatToString(n)
  }

  /** The six replacement strings: `yyyy`, `MM`, `dd`, `M`, `d` and `yyyy-MM-dd`. */
  datatype DateTokens = DateTokens(yyyy: string, mm: string, dd: string, m: string, d: string, date: string)

  /** The six strings for a civil date whose month and day are in range. */
  function TokensOf(c: Civil): (r: DateTokens)
    requires 1 <= c.month <= 12 && 1 <= c.day <= 31
    ensures |r.mm| == 2 && AllDigits(r.mm) && DigitsValue(r.mm) == c.month
    ensures |r.dd| == 2 && AllDigits(r.dd) && DigitsValue(r.dd) == c.day
    ensures r.m == NatToString(DigitsValue(r.mm)) && r.d == NatToString(DigitsValue(r.dd))
    ensures r.date == r.yyyy + "-" + r.mm + "-" + r.dd
  {
    ZeroPad2Small(c.month);
    ZeroPad2Small(c.day);
    var yyyy := IntToString(c.year);
    var mm := ZeroPad2(c.month);
    var dd := ZeroPad2(c.day);
    DateTokens(yyyy, mm, dd, NatToString(c.month), NatToString(c.day), yyyy + "-" + mm + "-" + dd)
  }

  /**
   * `now_date_tokens`, given the clock reading `nowSecs` (what `as_secs()`
   * returned, or 0 when the clock is before the epoch).
   */
  function NowDateTokens(nowSecs: nat): (r: DateTokens)
    requires nowSecs < 0x1_0000_0000_0000_0000
    ensures |r.mm| == 2 && AllDigits(r.mm) && 1 <= DigitsValue(r.mm) <= 12
    ensures |r.dd| == 2 && AllDigits(r.dd) && 1 <= DigitsValue(r.dd) <= 31
    ensures r.m == NatToString(DigitsValue(r.mm)) && r.d == NatToString(DigitsValue(r.dd))
    ensures r.date == r.yyyy + "-" + r.mm + "-" + r.dd
    ensures forall i :: 0 <= i < |r.yyyy| ==> r.yyyy[i] == '-' || IsDigit(r.yyyy[i])
  {
    var days := AsI64(nowSecs) / 86400;
    CivilRanges(days);
    TokensOf(CivilFromDays(days))
  }

  /** The epoch itself is 1 January 1970. */
  lemma EpochIsNewYear1970()
    ensures NowDateTokens(0) == DateTokens("1970", "01", "01", "1", "1", "1970-01-01")
  {
    EpochCivil();
    assert AsI64(0) / 86400 == 0;
    Year1970String();
    MonthOneStrings();
    assert NowDateTokens(0) == TokensOf(Civil(1970, 1, 1));
  }

  lemma Year1970String()
    ensures IntToString(1970) == "1970"
  {
    assert NatToString(1970) == NatToString(197) + [DigitChar(0)];
    assert NatToString(197) == NatToString(19) + [DigitChar(7)];
    assert NatToString(19) == NatToString(1) + [DigitChar(9)];
  }

  lemma MonthOneStrings()
    ensures ZeroPad2(1) == "01" && NatToString(1) == "1"
  {
  }
}

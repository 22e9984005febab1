/**
 * The two renderers of repo_sync.rs that fill date placeholders into text:
 * `resolve_output_path_template`, which turns the configured output path
 * into the path of one journal's file, and `resolve_commit_message`, which
 * fills the commit message template. Both are chains of Rust `str::replace`
 * calls, one per token, in a fixed order.
 */
module Render {
  import opened Wrappers
  import opened Strings
  import opened Placeholders
  import opened Calendar
  import opened Templates

  /** `yyyy-MM-dd` with ASCII digits in the three fields and no range check. */
  predicate DateShape(date: string) {
    |date| == 10 && date[4] == '-' && date[7] == '-'
    && AllDigits(date[..4]) && AllDigits(date[5..7]) && AllDigits(date[8..])
  }

  /**
   * `resolve_output_path_template`: the journal date must split on `-` into
   * a four-, a two- and a two-digit field; the tokens are then replaced in
   * the order yyyy, MM, M, dd, d, date, with M and d the month and day
   * without leading zero.
   */
  function ResolveOutputPath(template: string, date: string, p: DatePlaceholders): Result<string, string> {
    var parts := Split(date, '-');
    if |parts| != 3 then Err("invalid journal date: " + date)
    else
      var yyyy := parts[0];
      var mm := parts[1];
      var dd := parts[2];
      if |yyyy| != 4 || |mm| != 2 || |dd| != 2 || !AllDigits(yyyy) || !AllDigits(mm) || !AllDigits(dd) then
        Err("invalid journal date: " + date)
      else
        match ParseU32(mm)
        case None => Err("invalid month: " + mm)
        case Some(m) =>
          match ParseU32(dd)
          case None => Err("invalid day: " + dd)
          case Some(d) =>
            var out := ReplaceAll(template, p.yyyy, yyyy);
            var out := ReplaceAll(out, p.mm, mm);
            var out := ReplaceAll(out, p.m, NatToString(m));
            var out := ReplaceAll(out, p.dd, dd);
            var out := ReplaceAll(out, p.d, NatToString(d));
            Ok(ReplaceAll(out, p.date, date))
  }

  /** A date of the `yyyy-MM-dd` digit shape splits on `-` into its three fields. */
  lemma SplitDateShape(date: string)
    requires DateShape(date)
    ensures Split(date, '-') == [date[..4], date[5..7], date[8..]]
  {
    var fields := [date[..4], date[5..7], date[8..]];
    assert forall i :: 0 <= i < |fields| ==> AllDigits(fields[i]);
    assert Join(fields, '-') == date by {
      assert fields[1..][1..] == [date[8..]];
      assert Join(fields[1..], '-') == date[5..7] + "-" + date[8..];
      assert date == date[..4] + "-" + date[5..7] + "-" + date[8..];
    }
    SplitJoin(fields, '-');
  }

  /** Three fields of four, two and two digits joined by `-` have the `yyyy-MM-dd` digit shape. */
  lemma ThreeFieldsShape(date: string)
    requires var parts := Split(date, '-');
      |parts| == 3 && |parts[0]| == 4 && |parts[1]| == 2 && |parts[2]| == 2
      && AllDigits(parts[0]) && AllDigits(parts[1]) && AllDigits(parts[2])
    ensures DateShape(date)
  {
    var parts := Split(date, '-');
    JoinSplit(date, '-');
    var rest := parts[1..];
    assert rest[1..] == [parts[2]];
    assert Join(rest, '-') == parts[1] + "-" + parts[2];
    assert date == parts[0] + "-" + parts[1] + "-" + parts[2];
    assert date[..4] == parts[0] && date[5..7] == parts[1] && date[8..] == parts[2];
  }

  /** The renderer accepts a journal date exactly when it has the `yyyy-MM-dd` digit shape; the range of month and day is not checked. */
  lemma ResolveOutputPathAccepts(template: string, date: string, p: DatePlaceholders)
    ensures ResolveOutputPath(template, date, p).Ok? <==> DateShape(date)
  {
    var parts := Split(date, '-');
    if |parts| == 3 && |parts[0]| == 4 && |parts[1]| == 2 && |parts[2]| == 2
       && AllDigits(parts[0]) && AllDigits(parts[1]) && AllDigits(parts[2]) {
      ThreeFieldsShape(date);
    }
    if DateShape(date) {
      SplitDateShape(date);
      ParseU32Digits(date[5..7]);
      ParseU32Digits(date[8..]);
    }
  }

  /**
   * `resolve_commit_message`, given the clock readings: `ts` for the
   * timestamp token and `nowSecs` for the date tokens (the source reads the
   * clock twice). Replacement order: timestamp, count, yyyy, MM, M, dd, d, date.
   */
  function ResolveCommitMessage(template: string, count: nat, p: DatePlaceholders, ts: nat, nowSecs: nat): string
    requires nowSecs < 0x1_0000_0000_0000_0000
  {
    var t := NowDateTokens(nowSecs);
    var out := ReplaceAll(template, p.timestamp, NatToString(ts));
    var out := ReplaceAll(out, p.count, NatToString(count));
    var out := ReplaceAll(out, p.yyyy, t.yyyy);
    var out := ReplaceAll(out, p.mm, t.mm);
    var out := ReplaceAll(out, p.m, t.m);
    var out := ReplaceAll(out, p.dd, t.dd);
    var out := ReplaceAll(out, p.d, t.d);
    ReplaceAll(out, p.date, t.date)
  }

  /** The kinds that `resolve_output_path_template` replaces. */
  function PathKinds(): set<Kind> {
    {Year, Month2, Month1, Day2, Day1, DateKind}
  }

  /** The replacement values for a journal date of the `yyyy-MM-dd` digit shape. */
  function DateValues(date: string): Values
    requires DateShape(date)
  {
    Values(date[..4], date[5..7], NatToString(DigitsValue(date[5..7])),
           date[8..], NatToString(DigitsValue(date[8..])), date, "", "")
  }

  lemma DigitsBraceFree(s: string)
    requires AllDigits(s)
    ensures '{' !in s
  {
    forall i | 0 <= i < |s|
      ensures s[i] != '{'
    {
      assert IsDigit(s[i]);
    }
  }

  lemma DateValuesBraceFree(date: string)
    requires DateShape(date)
    ensures BraceFreeValues(DateValues(date))
  {
    var v := DateValues(date);
    DigitsBraceFree(v.yyyy);
    DigitsBraceFree(v.mm);
    DigitsBraceFree(v.m);
    DigitsBraceFree(v.dd);
    DigitsBraceFree(v.d);
    assert date == v.yyyy + "-" + v.mm + "-" + v.dd;
    assert forall k :: '{' !in ValueOf(v, k);
  }

  /** The order in which `resolve_output_path_template` replaces tokens. */
  function PathOrder(): seq<Kind> {
    [Year, Month2, Month1, Day2, Day1, DateKind]
  }

  lemma PathOrderKinds()
    ensures {} + KindSet(PathOrder()) == PathKinds()
  {
    var ks := PathOrder();
    assert KindSet(ks[6..]) == {};
    assert KindSet(ks[5..]) == {DateKind};
    assert KindSet(ks[4..]) == {Day1, DateKind};
    assert KindSet(ks[3..]) == {Day2, Day1, DateKind};
    assert KindSet(ks[2..]) == {Month1, Day2, Day1, DateKind};
    assert KindSet(ks[1..]) == {Month2, Month1, Day2, Day1, DateKind};
  }

  /** On a well-shaped date the renderer runs its whole replacement chain with the date's fields. */
  lemma ResolveOutputPathChain(template: string, date: string, p: DatePlaceholders)
    requires DateShape(date)
    ensures ResolveOutputPath(template, date, p) == Ok(ReplaceChain(template, p, DateValues(date), PathOrder()))
  {
    var v := DateValues(date);
    SplitDateShape(date);
    ParseU32Digits(date[5..7]);
    ParseU32Digits(date[8..]);
    PathChainUnfold(template, p, v);
  }

  lemma PathChainUnfold(template: string, p: DatePlaceholders, v: Values)
    ensures ReplaceChain(template, p, v, PathOrder())
         == ReplaceAll(ReplaceAll(ReplaceAll(ReplaceAll(ReplaceAll(ReplaceAll(template,
              p.yyyy, v.yyyy), p.mm, v.mm), p.m, v.m), p.dd, v.dd), p.d, v.d), p.date, v.date)
  {
    var ks := PathOrder();
    var s1 := ReplaceAll(template, p.yyyy, v.yyyy);
    var s2 := ReplaceAll(s1, p.mm, v.mm);
    var s3 := ReplaceAll(s2, p.m, v.m);
    var s4 := ReplaceAll(s3, p.dd, v.dd);
    var s5 := ReplaceAll(s4, p.d, v.d);
    var s6 := ReplaceAll(s5, p.date, v.date);
    assert ReplaceChain(s6, p, v, ks[6..]) == s6;
    assert ReplaceChain(s5, p, v, ks[5..]) == s6;
    assert ReplaceChain(s4, p, v, ks[4..]) == s6;
    assert ReplaceChain(s3, p, v, ks[3..]) == s6;
    assert ReplaceChain(s2, p, v, ks[2..]) == s6;
    assert ReplaceChain(s1, p, v, ks[1..]) == s6;
  }

  /**
   * On a well-shaped date, the output path is the template with every
   * yyyy, MM, M, dd, d and date token replaced by the date's field, and
   * every other character (including timestamp and count tokens) kept.
   */
  lemma ResolveOutputPathText(ps: seq<Piece>, date: string, p: DatePlaceholders)
    requires PlainTokens(p) && BraceFreeLiterals(ps) && DateShape(date)
    ensures var v := DateValues(date);
      ResolveOutputPath(Text(ps, p, v, {}), date, p) == Ok(Text(ps, p, v, PathKinds()))
  {
    var v := DateValues(date);
    DateValuesBraceFree(date);
    ResolveOutputPathChain(Text(ps, p, v, {}), date, p);
    ReplaceChainText(ps, p, v, {}, PathOrder());
    PathOrderKinds();
  }

  /** The replacement values of a commit message: the date tokens of `nowSecs`, the timestamp `ts` and the count. */
  function CommitValues(count: nat, ts: nat, nowSecs: nat): Values
    requires nowSecs < 0x1_0000_0000_0000_0000
  {
    var t := NowDateTokens(nowSecs);
    Values(t.yyyy, t.mm, t.m, t.dd, t.d, t.date, NatToString(ts), NatToString(count))
  }

  lemma CommitValuesBraceFree(count: nat, ts: nat, nowSecs: nat)
    requires nowSecs < 0x1_0000_0000_0000_0000
    ensures BraceFreeValues(CommitValues(count, ts, nowSecs))
  {
    var v := CommitValues(count, ts, nowSecs);
    var t := NowDateTokens(nowSecs);
    forall i | 0 <= i < |v.yyyy|
      ensures v.yyyy[i] != '{'
    {
      assert v.yyyy[i] == '-' || IsDigit(v.yyyy[i]);
    }
    DigitsBraceFree(v.mm);
    DigitsBraceFree(v.m);
    DigitsBraceFree(v.dd);
    DigitsBraceFree(v.d);
    DigitsBraceFree(v.timestamp);
    DigitsBraceFree(v.count);
    assert forall k :: '{' !in ValueOf(v, k);
  }

  /** The order in which `resolve_commit_message` replaces tokens. */
  function CommitOrder(): seq<Kind> {
    [Timestamp, Count, Year, Month2, Month1, Day2, Day1, DateKind]
  }

  lemma CommitOrderKinds()
    ensures {} + KindSet(CommitOrder()) == AllKinds()
  {
    var ks := CommitOrder();
    assert KindSet(ks[8..]) == {};
    assert KindSet(ks[7..]) == {DateKind};
    assert KindSet(ks[6..]) == {Day1, DateKind};
    assert KindSet(ks[5..]) == {Day2, Day1, DateKind};
    assert KindSet(ks[4..]) == {Month1, Day2, Day1, DateKind};
    assert KindSet(ks[3..]) == {Month2, Month1, Day2, Day1, DateKind};
    assert KindSet(ks[2..]) == {Year, Month2, Month1, Day2, Day1, DateKind};
    assert KindSet(ks[1..]) == {Count, Year, Month2, Month1, Day2, Day1, DateKind};
  }

  lemma ResolveCommitMessageChain(template: string, count: nat, p: DatePlaceholders, ts: nat, nowSecs: nat)
    requires nowSecs < 0x1_0000_0000_0000_0000
    ensures ResolveCommitMessage(template, count, p, ts, nowSecs)
         == ReplaceChain(template, p, CommitValues(count, ts, nowSecs), CommitOrder())
  {
    var v := CommitValues(count, ts, nowSecs);
    var ks := CommitOrder();
    var s1 := ReplaceAll(template, p.timestamp, v.timestamp);
    var s2 := ReplaceAll(s1, p.count, v.count);
    var s3 := ReplaceAll(s2, p.yyyy, v.yyyy);
    var s4 := ReplaceAll(s3, p.mm, v.mm);
    var s5 := ReplaceAll(s4, p.m, v.m);
    var s6 := ReplaceAll(s5, p.dd, v.dd);
    var s7 := ReplaceAll(s6, p.d, v.d);
    var s8 := ReplaceAll(s7, p.date, v.date);
    assert ReplaceChain(s8, p, v, ks[8..]) == s8;
    assert ReplaceChain(s7, p, v, ks[7..]) == s8;
    assert ReplaceChain(s6, p, v, ks[6..]) == s8;
    assert ReplaceChain(s5, p, v, ks[5..]) == s8;
    assert ReplaceChain(s4, p, v, ks[4..]) == s8;
    assert ReplaceChain(s3, p, v, ks[3..]) == s8;
    assert ReplaceChain(s2, p, v, ks[2..]) == s8;
    assert ReplaceChain(s1, p, v, ks[1..]) == s8;
  }

  /** The commit message is the template with all eight kinds of token replaced by their values. */
  lemma ResolveCommitMessageText(ps: seq<Piece>, count: nat, p: DatePlaceholders, ts: nat, nowSecs: nat)
    requires nowSecs < 0x1_0000_0000_0000_0000
    requires PlainTokens(p) && BraceFreeLiterals(ps)
    ensures var v := CommitValues(count, ts, nowSecs);
      ResolveCommitMessage(Text(ps, p, v, {}), count, p, ts, nowSecs) == Text(ps, p, v, AllKinds())
  {
    var v := CommitValues(count, ts, nowSecs);
    CommitValuesBraceFree(count, ts, nowSecs);
    ResolveCommitMessageChain(Text(ps, p, v, {}), count, p, ts, nowSecs);
    ReplaceChainText(ps, p, v, {}, CommitOrder());
    CommitOrderKinds();
  }
}

/**
 * Render, then extract: a path produced by `resolve_output_path_template`
 * from a template and a journal date is matched by
 * `match_path_with_pattern` against the same template, and the match
 * yields the date back. This holds for templates whose tokens are year,
 * month and day tokens (yyyy, MM, M, dd, d), each followed by the end of
 * its `/`-segment or by a literal that is not a digit: the matcher ends a
 * value at the next template character, so a digit there would cut the
 * value short.
 */
module RoundTrip {
  import opened Wrappers
  import opened Strings
  import opened Placeholders
  import opened Matcher
  import opened Templates
  import opened Render

  /** The kinds whose value the matcher can read back. */
  predicate Capturable(k: Kind) {
    k == Year || k == Month2 || k == Month1 || k == Day2 || k == Day1
  }

  /** Tokens that can stand in a round-trip template: plain, distinct, and the date tokens free of `/`. */
  predicate TemplateTokens(p: DatePlaceholders) {
    PlainTokens(p) && forall k :: Capturable(k) ==> '/' !in TokenOf(p, k)
  }

  /** The slots after capturing the values of the kinds `ks` of a rendered date, starting from `s`. */
  function Filled(s: Slots, ks: set<Kind>, date: string): Slots
    requires IsoDate(date)
  {
    Slots(if Year in ks then Some(date[..4]) else s.yyyy,
          if Month2 in ks || Month1 in ks then Some(date[5..7]) else s.mm,
          if Day2 in ks || Day1 in ks then Some(date[8..]) else s.dd)
  }

  /** Every filled slot holds the date's own field. */
  predicate Agree(s: Slots, date: string)
    requires IsoDate(date)
  {
    (s.yyyy.Some? ==> s.yyyy.value == date[..4])
    && (s.mm.Some? ==> s.mm.value == date[5..7])
    && (s.dd.Some? ==> s.dd.value == date[8..])
  }

  lemma IsoDateShape(date: string)
    requires IsoDate(date)
    ensures DateShape(date)
  {
  }

  lemma PlainBraceForm(t: string)
    requires PlainToken(t)
    ensures BraceForm(t)
  {
    assert t[..1] == "{" && t[|t| - 1..] == "}";
  }

  /** The text between the braces. */
  function Inner(t: string): string {
    if |t| >= 2 then t[1..|t| - 1] else t
  }

  lemma InnerInjective(t: string, u: string)
    requires PlainToken(t) && PlainToken(u) && Inner(t) == Inner(u)
    ensures t == u
  {
    assert t == [t[0]] + Inner(t) + [t[|t| - 1]];
    assert u == [u[0]] + Inner(u) + [u[|u| - 1]];
  }

  /** With plain tokens, `assign_placeholder` derives the six keys by stripping the braces. */
  lemma DateKeysPlain(p: DatePlaceholders)
    requires PlainTokens(p)
    ensures DateKeys(p) == Ok(Keys(Inner(p.yyyy), Inner(p.mm), Inner(p.m), Inner(p.dd), Inner(p.d), Inner(p.date)))
  {
    PlainBraceForm(TokenOf(p, Year));
    PlainBraceForm(TokenOf(p, Month2));
    PlainBraceForm(TokenOf(p, Month1));
    PlainBraceForm(TokenOf(p, Day2));
    PlainBraceForm(TokenOf(p, Day1));
    PlainBraceForm(TokenOf(p, DateKind));
  }

  /** The branch of `assign_placeholder` that a kind's value belongs to. */
  function TargetOf(k: Kind): Target {
    match k
    case Year => YearTarget
    case Month2 => MonthTarget
    case Month1 => MonthTarget
    case Day2 => DayTarget
    case Day1 => DayTarget
    case DateKind => DateTarget
    case Timestamp => NoTarget
    case Count => NoTarget
  }

  /** Distinct plain tokens send each kind's key to that kind's branch, in both copies of the matcher. */
  lemma DispatchPlain(copy: Copy, p: DatePlaceholders, k: Kind)
    requires PlainTokens(p) && Capturable(k)
    ensures DateKeys(p).Ok?
    ensures Dispatch(copy, DateKeys(p).value, Inner(TokenOf(p, k))) == TargetOf(k)
  {
    DateKeysPlain(p);
    var key := Inner(TokenOf(p, k));
    forall j | j != k
      ensures Inner(TokenOf(p, j)) != key
    {
      if Inner(TokenOf(p, j)) == key {
        InnerInjective(TokenOf(p, j), TokenOf(p, k));
      }
    }
    assert key != Inner(TokenOf(p, DateKind));
    if k != Year {
      assert key != Inner(TokenOf(p, Year));
    }
    if k == Day2 || k == Day1 {
      assert key != Inner(TokenOf(p, Month2)) && key != Inner(TokenOf(p, Month1));
    }
    if k == Month1 || k == Day1 {
      assert key != Inner(TokenOf(p, Month2));
    }
    if k == Day1 {
      assert key != Inner(TokenOf(p, Day2));
    }
  }

  lemma TwoDigitsEqual(a: string, b: string)
    requires |a| == 2 && |b| == 2 && AllDigits(a) && AllDigits(b) && DigitsValue(a) == DigitsValue(b)
    ensures a == b
  {
    ZeroPad2OfTwoDigits(a);
    ZeroPad2OfTwoDigits(b);
  }

  /** A rendered month or day, in its `MM` or its `M` form, normalises back to the two-digit field. */
  lemma NormalizeRendered(f: string, max: nat)
    requires |f| == 2 && AllDigits(f) && 1 <= DigitsValue(f) <= max <= 31
    ensures NormalizeMonthOrDay(f, 1, max) == Some(f)
    ensures NormalizeMonthOrDay(NatToString(DigitsValue(f)), 1, max) == Some(f)
  {
    TwoDigitsEqual(NormalizeMonthOrDay(f, 1, max).value, f);
    var n := NatToString(DigitsValue(f));
    NatToStringValue(DigitsValue(f));
    NatToStringLength(DigitsValue(f));
    TwoDigitsEqual(NormalizeMonthOrDay(n, 1, max).value, f);
  }

  /** Assigning the rendered value of a date token fills that token's slot with the date's field. */
  lemma AssignRendered(copy: Copy, p: DatePlaceholders, k: Kind, date: string, s: Slots)
    requires PlainTokens(p) && IsoDate(date) && Agree(s, date) && Capturable(k)
    ensures Assign(copy, p, Inner(TokenOf(p, k)), ValueOf(DateValues(date), k), s) == Ok(Filled(s, {k}, date))
  {
    DispatchPlain(copy, p, k);
    if k == Year {
      AssignYearRendered(copy, p, date, s);
    } else if k == Month2 || k == Month1 {
      AssignMonthRendered(copy, p, k, date, s);
    } else {
      AssignDayRendered(copy, p, k, date, s);
    }
  }

  lemma AssignYearRendered(copy: Copy, p: DatePlaceholders, date: string, s: Slots)
    requires IsoDate(date) && DateKeys(p).Ok?
    requires Dispatch(copy, DateKeys(p).value, Inner(TokenOf(p, Year))) == YearTarget
    ensures Assign(copy, p, Inner(TokenOf(p, Year)), date[..4], s) == Ok(Filled(s, {Year}, date))
  {
    AssignByTarget(copy, p, Inner(TokenOf(p, Year)), date[..4], s);
  }

  lemma AssignMonthRendered(copy: Copy, p: DatePlaceholders, k: Kind, date: string, s: Slots)
    requires IsoDate(date) && Agree(s, date) && DateKeys(p).Ok? && (k == Month2 || k == Month1)
    requires Dispatch(copy, DateKeys(p).value, Inner(TokenOf(p, k))) == MonthTarget
    ensures Assign(copy, p, Inner(TokenOf(p, k)), ValueOf(DateValues(date), k), s) == Ok(Filled(s, {k}, date))
  {
    var val := ValueOf(DateValues(date), k);
    NormalizeRendered(date[5..7], 12);
    assert NormalizeMonthOrDay(val, 1, 12) == Some(date[5..7]);
    AssignByTarget(copy, p, Inner(TokenOf(p, k)), val, s);
  }

  lemma AssignDayRendered(copy: Copy, p: DatePlaceholders, k: Kind, date: string, s: Slots)
    requires IsoDate(date) && Agree(s, date) && DateKeys(p).Ok? && (k == Day2 || k == Day1)
    requires Dispatch(copy, DateKeys(p).value, Inner(TokenOf(p, k))) == DayTarget
    ensures Assign(copy, p, Inner(TokenOf(p, k)), ValueOf(DateValues(date), k), s) == Ok(Filled(s, {k}, date))
  {
    var val := ValueOf(DateValues(date), k);
    NormalizeRendered(date[8..], 31);
    assert NormalizeMonthOrDay(val, 1, 31) == Some(date[8..]);
    AssignByTarget(copy, p, Inner(TokenOf(p, k)), val, s);
  }

  /** A digit value goes to the branch that its key selects. */
  lemma AssignByTarget(copy: Copy, p: DatePlaceholders, key: string, val: string, s: Slots)
    requires AllDigits(val) && DateKeys(p).Ok?
    ensures var t := Dispatch(copy, DateKeys(p).value, key);
      (t == YearTarget ==> Assign(copy, p, key, val, s) == AssignYear(val, s))
      && (t == MonthTarget ==> Assign(copy, p, key, val, s) == AssignMonth(val, s))
      && (t == DayTarget ==> Assign(copy, p, key, val, s) == AssignDay(val, s))
  {
  }

  // ---------------------------------------------------------------------------
  // One `/`-segment
  // ---------------------------------------------------------------------------

  /**
   * A segment the matcher can read back: its literals open no brace and are
   * not `/`, its tokens are date tokens, and every token is followed by the
   * end of the segment or by a literal that is not a digit.
   */
  predicate SegmentOk(seg: seq<Piece>) {
    (forall i :: 0 <= i < |seg| && seg[i].Lit? ==> seg[i].c != '{' && seg[i].c != '/')
    && (forall i :: 0 <= i < |seg| && seg[i].Tok? ==> Capturable(seg[i].kind))
    && (forall i :: 0 <= i < |seg| - 1 && seg[i].Tok? ==> seg[i + 1].Lit? && !IsDigit(seg[i + 1].c))
  }

  /** The kinds of the tokens of `seg`. */
  function SegKinds(seg: seq<Piece>): set<Kind>
    decreases |seg|
  {
    if |seg| == 0 then {}
    else (if seg[0].Tok? then {seg[0].kind} else {}) + SegKinds(seg[1..])
  }

  lemma SegmentOkTail(seg: seq<Piece>)
    requires SegmentOk(seg) && |seg| > 0
    ensures SegmentOk(seg[1..])
  {
    forall i | 0 <= i < |seg| - 1
      ensures seg[1..][i] == seg[i + 1]
    {
    }
  }

  /** In a plain token followed by anything, the first `}` is the token's own. */
  lemma PlainTokenClose(tok: string, rest: string)
    requires PlainToken(tok)
    ensures FindChar(tok + rest, '}') == Some(|tok| - 1)
    ensures (tok + rest)[1..|tok| - 1] == Inner(tok) && (tok + rest)[|tok|..] == rest
  {
    var n := |tok| - 1;
    assert tok + rest == tok[..n] + ([tok[n]] + rest);
    FindCharAfter(tok[..n], [tok[n]] + rest, '}');
  }

  /** A digit value followed by a non-digit literal ends right before that literal. */
  lemma DigitValueEnd(val: string, c: char, tail: string)
    requires AllDigits(val) && !IsDigit(c)
    ensures ValueEnd(val + ([c] + tail), [c] + tail) == Some(|val|)
  {
    forall i | 0 <= i < |val|
      ensures val[i] != c
    {
      assert IsDigit(val[i]);
    }
    FindCharAfter(val, [c] + tail, c);
  }

  /** A literal that opens no brace is matched and consumed. */
  lemma CaptureLitStep(copy: Copy, p: DatePlaceholders, c: char, a: string, t: string, s: Slots)
    requires c != '{'
    ensures Capture(copy, p, [c] + a, [c] + t, s) == Capture(copy, p, a, t, s)
  {
    assert ([c] + a)[1..] == a && ([c] + t)[1..] == t;
  }

  /** A plain token takes the value up to where `ValueEnd` puts it and hands it to `assign_placeholder`. */
  lemma CaptureTokenStep(copy: Copy, p: DatePlaceholders, tok: string, val: string, a: string, t: string, s: Slots)
    requires PlainToken(tok) && ValueEnd(val + a, t) == Some(|val|)
    requires Assign(copy, p, Inner(tok), val, s).Ok?
    ensures Capture(copy, p, val + a, tok + t, s)
         == Capture(copy, p, a, t, Assign(copy, p, Inner(tok), val, s).value)
  {
    PlainTokenClose(tok, t);
    assert (tok + t)[0] == '{';
    assert (val + a)[..|val|] == val && (val + a)[|val|..] == a;
  }

  /** The rendered value of a date token is consumed up to the next literal and fills the token's slot. */
  lemma CaptureTokStep(copy: Copy, p: DatePlaceholders, k: Kind, date: string, s: Slots, a: string, t: string)
    requires PlainTokens(p) && IsoDate(date) && Agree(s, date) && Capturable(k)
    requires (|t| == 0 && |a| == 0) || (|t| > 0 && |a| > 0 && t[0] == a[0] && !IsDigit(t[0]))
    ensures Capture(copy, p, ValueOf(DateValues(date), k) + a, TokenOf(p, k) + t, s)
         == Capture(copy, p, a, t, Filled(s, {k}, date))
  {
    var val := ValueOf(DateValues(date), k);
    if |t| == 0 {
      assert ValueEnd(val + a, t) == Some(|val|);
    } else {
      assert a == [a[0]] + a[1..] && t == [t[0]] + t[1..];
      DigitValueEnd(val, t[0], a[1..]);
    }
    AssignRendered(copy, p, k, date, s);
    CaptureTokenStep(copy, p, TokenOf(p, k), val, a, t, s);
  }

  /** The kind of the first piece of `seg`, if it is a token. */
  function HeadKinds(seg: seq<Piece>): set<Kind>
    requires |seg| > 0
  {
    if seg[0].Tok? then {seg[0].kind} else {}
  }

  /** Capturing a segment's first piece. */
  lemma CaptureHead(copy: Copy, p: DatePlaceholders, seg: seq<Piece>, date: string, s: Slots)
    requires PlainTokens(p) && IsoDate(date) && Agree(s, date) && SegmentOk(seg) && |seg| > 0
    ensures var v := DateValues(date);
      Capture(copy, p, Text(seg, p, v, PathKinds()), Text(seg, p, v, {}), s)
      == Capture(copy, p, Text(seg[1..], p, v, PathKinds()), Text(seg[1..], p, v, {}), Filled(s, HeadKinds(seg), date))
  {
    var v := DateValues(date);
    var a := Text(seg[1..], p, v, PathKinds());
    var t := Text(seg[1..], p, v, {});
    match seg[0]
    case Lit(c) =>
      CaptureLitStep(copy, p, c, a, t, s);
    case Tok(k) =>
      assert Capturable(seg[0].kind);
      if |seg| > 1 {
        assert seg[1].Lit? && !IsDigit(seg[1].c);
        assert a[0] == seg[1].c && t[0] == seg[1].c;
      }
      CaptureTokStep(copy, p, k, date, s, a, t);
  }

  lemma FilledUnion(s: Slots, ks: set<Kind>, ks': set<Kind>, date: string)
    requires IsoDate(date) && Agree(s, date)
    ensures Agree(Filled(s, ks, date), date)
    ensures Filled(Filled(s, ks, date), ks', date) == Filled(s, ks + ks', date)
  {
  }

  /** A rendered segment is captured against its template and fills the slots of its tokens. */
  lemma {:induction false} CaptureSegment(copy: Copy, p: DatePlaceholders, seg: seq<Piece>, date: string, s: Slots)
    requires PlainTokens(p) && IsoDate(date) && Agree(s, date) && SegmentOk(seg)
    ensures var v := DateValues(date);
      Capture(copy, p, Text(seg, p, v, PathKinds()), Text(seg, p, v, {}), s) == Ok(Filled(s, SegKinds(seg), date))
    decreases |seg|
  {
    if |seg| > 0 {
      CaptureHead(copy, p, seg, date, s);
      SegmentOkTail(seg);
      FilledUnion(s, HeadKinds(seg), SegKinds(seg[1..]), date);
      CaptureSegment(copy, p, seg[1..], date, Filled(s, HeadKinds(seg), date));
    }
  }

  // ---------------------------------------------------------------------------
  // Whole templates
  // ---------------------------------------------------------------------------

  /** The pieces of the segments, joined by `/` literals. */
  function Flatten(segs: seq<seq<Piece>>): seq<Piece>
    decreases |segs|
  {
    if |segs| == 0 then [] else if |segs| == 1 then segs[0] else segs[0] + [Lit('/')] + Flatten(segs[1..])
  }

  /** The text of each segment. */
  function SegTexts(segs: seq<seq<Piece>>, p: DatePlaceholders, v: Values, done: set<Kind>): (ts: seq<string>)
    ensures |ts| == |segs|
    decreases |segs|
  {
    if |segs| == 0 then [] else [Text(segs[0], p, v, done)] + SegTexts(segs[1..], p, v, done)
  }

  /** The kinds of the tokens of all segments. */
  function SegsKinds(segs: seq<seq<Piece>>): set<Kind>
    decreases |segs|
  {
    if |segs| == 0 then {} else SegKinds(segs[0]) + SegsKinds(segs[1..])
  }

  predicate SegmentsOk(segs: seq<seq<Piece>>) {
    forall i :: 0 <= i < |segs| ==> SegmentOk(segs[i])
  }

  lemma {:induction false} FlattenText(segs: seq<seq<Piece>>, p: DatePlaceholders, v: Values, done: set<Kind>)
    ensures Text(Flatten(segs), p, v, done) == Join(SegTexts(segs, p, v, done), '/')
    decreases |segs|
  {
    if |segs| > 1 {
      FlattenText(segs[1..], p, v, done);
      TextAppend(segs[0] + [Lit('/')], Flatten(segs[1..]), p, v, done);
      TextAppend(segs[0], [Lit('/')], p, v, done);
      assert SegTexts(segs, p, v, done)[1..] == SegTexts(segs[1..], p, v, done);
    }
  }

  lemma {:induction false} SegTextNoSlash(seg: seq<Piece>, p: DatePlaceholders, date: string, done: set<Kind>)
    requires TemplateTokens(p) && IsoDate(date) && SegmentOk(seg)
    ensures '/' !in Text(seg, p, DateValues(date), done)
    decreases |seg|
  {
    if |seg| > 0 {
      SegmentOkTail(seg);
      SegTextNoSlash(seg[1..], p, date, done);
      var x := PieceText(seg[0], p, DateValues(date), done);
      if seg[0].Tok? && seg[0].kind in done {
        assert AllDigits(x);
        forall i | 0 <= i < |x|
          ensures x[i] != '/'
        {
          assert IsDigit(x[i]);
        }
      }
    }
  }

  lemma {:induction false} SegTextsNoSlash(segs: seq<seq<Piece>>, p: DatePlaceholders, date: string, done: set<Kind>)
    requires TemplateTokens(p) && IsoDate(date) && SegmentsOk(segs)
    ensures forall i :: 0 <= i < |segs| ==> '/' !in SegTexts(segs, p, DateValues(date), done)[i]
    decreases |segs|
  {
    if |segs| > 0 {
      SegTextNoSlash(segs[0], p, date, done);
      SegTextsNoSlash(segs[1..], p, date, done);
      forall i | 1 <= i < |segs|
        ensures SegTexts(segs, p, DateValues(date), done)[i] == SegTexts(segs[1..], p, DateValues(date), done)[i - 1]
      {
      }
    }
  }

  lemma {:induction false} FlattenLiterals(segs: seq<seq<Piece>>)
    requires SegmentsOk(segs)
    ensures BraceFreeLiterals(Flatten(segs))
    decreases |segs|
  {
    if |segs| > 1 {
      FlattenLiterals(segs[1..]);
      var f := Flatten(segs);
      var n := |segs[0]|;
      forall i | 0 <= i < |f| && f[i].Lit?
        ensures f[i].c != '{'
      {
        if i < n {
          assert f[i] == segs[0][i];
        } else if i > n {
          assert f[i] == Flatten(segs[1..])[i - n - 1];
        }
      }
    }
  }

  /** The segments capture in turn and fill the slots of all their tokens. */
  lemma {:induction false} CaptureSegments(copy: Copy, p: DatePlaceholders, segs: seq<seq<Piece>>, date: string, s: Slots)
    requires PlainTokens(p) && IsoDate(date) && Agree(s, date) && SegmentsOk(segs)
    ensures var v := DateValues(date);
      CaptureAll(copy, p, SegTexts(segs, p, v, PathKinds()), SegTexts(segs, p, v, {}), s) == Ok(Filled(s, SegsKinds(segs), date))
    decreases |segs|
  {
    if |segs| > 0 {
      var v := DateValues(date);
      CaptureSegment(copy, p, segs[0], date, s);
      FilledUnion(s, SegKinds(segs[0]), SegsKinds(segs[1..]), date);
      assert SegmentsOk(segs[1..]) by {
        forall i | 0 <= i < |segs| - 1
          ensures segs[1..][i] == segs[i + 1]
        {
        }
      }
      CaptureSegments(copy, p, segs[1..], date, Filled(s, SegKinds(segs[0]), date));
      assert SegTexts(segs, p, v, PathKinds())[1..] == SegTexts(segs[1..], p, v, PathKinds());
      assert SegTexts(segs, p, v, {})[1..] == SegTexts(segs[1..], p, v, {});
    }
  }

  /** Values that a template with no replaced kind never shows. */
  function NoValues(): Values {
    Values("", "", "", "", "", "", "", "")
  }

  /** The template string of the segments: every token as written. */
  function Template(segs: seq<seq<Piece>>, p: DatePlaceholders): string {
    Text(Flatten(segs), p, NoValues(), {})
  }

  lemma {:induction false} TextUndone(ps: seq<Piece>, p: DatePlaceholders, v: Values, w: Values)
    ensures Text(ps, p, v, {}) == Text(ps, p, w, {})
    decreases |ps|
  {
    if |ps| > 0 {
      TextUndone(ps[1..], p, v, w);
    }
  }

  /** Full slots holding a date's fields assemble to that date. */
  lemma AssembleRendered(date: string)
    requires IsoDate(date)
    ensures AssembleDate(Slots(Some(date[..4]), Some(date[5..7]), Some(date[8..]))) == Ok(date)
  {
    ValidDatePartsDigits(date[..4], date[5..7], date[8..]);
    assert date == date[..4] + "-" + date[5..7] + "-" + date[8..];
  }

  /**
   * The round trip: the path that `resolve_output_path_template` renders from
   * a template and a journal date matches the same template under
   * `match_path_with_pattern`, in either copy of the matcher, and yields the
   * journal date back, provided the template has a year, a month and a day
   * token.
   */
  lemma RenderThenMatch(copy: Copy, p: DatePlaceholders, segs: seq<seq<Piece>>, date: string)
    requires TemplateTokens(p) && IsoDate(date) && |segs| >= 1 && SegmentsOk(segs)
    requires var ks := SegsKinds(segs);
      Year in ks && (Month2 in ks || Month1 in ks) && (Day2 in ks || Day1 in ks)
    ensures ResolveOutputPath(Template(segs, p), date, p).Ok?
    ensures MatchPath(copy, p, ResolveOutputPath(Template(segs, p), date, p).value, Template(segs, p)) == Ok(date)
  {
    var v := DateValues(date);
    var ps := Flatten(segs);
    TextUndone(ps, p, NoValues(), v);
    FlattenLiterals(segs);
    IsoDateShape(date);
    ResolveOutputPathText(ps, date, p);
    var paths := SegTexts(segs, p, v, PathKinds());
    var templates := SegTexts(segs, p, v, {});
    FlattenText(segs, p, v, PathKinds());
    FlattenText(segs, p, v, {});
    SegTextsNoSlash(segs, p, date, PathKinds());
    SegTextsNoSlash(segs, p, date, {});
    SplitJoin(paths, '/');
    SplitJoin(templates, '/');
    assert paths[|paths| - |templates|..] == paths;
    CaptureSegments(copy, p, segs, date, NoSlots());
    AssembleRendered(date);
  }

  /** A run of literal characters. */
  function Lits(s: string): (ps: seq<Piece>)
    ensures |ps| == |s| && forall i :: 0 <= i < |s| ==> ps[i] == Lit(s[i])
  {
    seq(|s|, i requires 0 <= i < |s| => Lit(s[i]))
  }

  /** The default output path template `journals/{yyyy}/{MM}-{dd}/{d}.md`, as segments. */
  function DefaultOutputSegments(): seq<seq<Piece>> {
    [Lits("journals"), [Tok(Year)], [Tok(Month2), Lit('-'), Tok(Day2)], [Tok(Day1)] + Lits(".md")]
  }

  lemma {:induction false} LitsText(s: string, p: DatePlaceholders, v: Values, done: set<Kind>)
    ensures Text(Lits(s), p, v, done) == s
    decreases |s|
  {
    if |s| > 0 {
      assert Lits(s)[1..] == Lits(s[1..]);
      LitsText(s[1..], p, v, done);
      assert s == [s[0]] + s[1..];
    }
  }

  /** A token whose inner characters are neither braces nor `/` is plain and free of `/`. */
  lemma PlainByChars(t: string)
    requires |t| >= 3 && t[0] == '{' && t[|t| - 1] == '}'
    requires forall i :: 1 <= i < |t| - 1 ==> t[i] != '{' && t[i] != '}' && t[i] != '/'
    ensures PlainToken(t) && '/' !in t
  {
    forall i | 0 <= i < |t| - 1
      ensures t[1..][i] != '{'
    {
      assert t[1..][i] == t[i + 1];
    }
  }

  /** Where each kind's token sits in `Tokens`. */
  function TokenIndex(k: Kind): nat {
    match k
    case Year => 0
    case Month2 => 1
    case Month1 => 2
    case Day2 => 3
    case Day1 => 4
    case DateKind => 5
    case Timestamp => 6
    case Count => 7
  }

  lemma DefaultTokenPlain(k: Kind)
    ensures PlainToken(TokenOf(Default(), k)) && '/' !in TokenOf(Default(), k)
  {
    PlainByChars(TokenOf(Default(), k));
  }

  lemma DefaultTokensDistinct(k: Kind, k': Kind)
    requires k != k'
    ensures TokenOf(Default(), k) != TokenOf(Default(), k')
  {
    var p := Default();
    DefaultWellFormed();
    var i, j := TokenIndex(k), TokenIndex(k');
    assert TokenOf(p, k) == Tokens(p)[i] && TokenOf(p, k') == Tokens(p)[j];
    if i < j {
      assert Tokens(p)[i] != Tokens(p)[j];
    } else {
      assert Tokens(p)[j] != Tokens(p)[i];
    }
  }

  lemma DefaultTemplateTokens()
    ensures TemplateTokens(Default())
  {
    forall k
      ensures PlainToken(TokenOf(Default(), k)) && '/' !in TokenOf(Default(), k)
    {
      DefaultTokenPlain(k);
    }
    forall k, k' | k != k'
      ensures TokenOf(Default(), k) != TokenOf(Default(), k')
    {
      DefaultTokensDistinct(k, k');
    }
  }

  lemma DefaultOutputTemplate()
    ensures Template(DefaultOutputSegments(), Default()) == "journals/{yyyy}/{MM}-{dd}/{d}.md"
  {
    var p, v, segs := Default(), NoValues(), DefaultOutputSegments();
    FlattenText(segs, p, v, {});
    DefaultSegTexts();
    DefaultJoin();
  }

  lemma DefaultSegTexts()
    ensures SegTexts(DefaultOutputSegments(), Default(), NoValues(), {}) == ["journals", "{yyyy}", "{MM}-{dd}", "{d}.md"]
  {
    var p, v, segs := Default(), NoValues(), DefaultOutputSegments();
    LitsText("journals", p, v, {});
    DefaultDaySegText();
    assert Text(segs[1], p, v, {}) == "{yyyy}";
    assert Text(segs[2], p, v, {}) == "{MM}-{dd}";
    var ts := SegTexts(segs, p, v, {});
    assert ts[1..][1..][1..] == SegTexts(segs[3..], p, v, {});
  }

  lemma DefaultDaySegText()
    ensures Text([Tok(Day1)] + Lits(".md"), Default(), NoValues(), {}) == "{d}.md"
  {
    LitsText(".md", Default(), NoValues(), {});
    TextAppend([Tok(Day1)], Lits(".md"), Default(), NoValues(), {});
  }

  lemma DefaultJoin()
    ensures Join(["journals", "{yyyy}", "{MM}-{dd}", "{d}.md"], '/') == "journals/{yyyy}/{MM}-{dd}/{d}.md"
  {
    var ts := ["journals", "{yyyy}", "{MM}-{dd}", "{d}.md"];
    assert ts[1..] == ["{yyyy}", "{MM}-{dd}", "{d}.md"];
    assert ts[1..][1..] == ["{MM}-{dd}", "{d}.md"];
    assert ts[1..][1..][1..] == ["{d}.md"];
  }

  /** A run of literals that are neither `{` nor `/` is a segment without tokens. */
  lemma LitsSegmentOk(s: string)
    requires forall i :: 0 <= i < |s| ==> s[i] != '{' && s[i] != '/'
    ensures SegmentOk(Lits(s)) && SegKinds(Lits(s)) == {}
    decreases |s|
  {
    if |s| > 0 {
      assert Lits(s)[1..] == Lits(s[1..]);
      LitsSegmentOk(s[1..]);
    }
  }

  lemma FourSegments(a: seq<Piece>, b: seq<Piece>, c: seq<Piece>, d: seq<Piece>)
    requires SegmentOk(a) && SegmentOk(b) && SegmentOk(c) && SegmentOk(d)
    ensures SegmentsOk([a, b, c, d])
    ensures SegsKinds([a, b, c, d]) == SegKinds(a) + SegKinds(b) + SegKinds(c) + SegKinds(d)
  {
    var segs := [a, b, c, d];
    forall i | 0 <= i < 4
      ensures SegmentOk(segs[i])
    {
      if i == 0 {
        assert segs[i] == a;
      } else if i == 1 {
        assert segs[i] == b;
      } else if i == 2 {
        assert segs[i] == c;
      } else {
        assert segs[i] == d;
      }
    }
    FourKinds(a, b, c, d);
  }

  lemma FourKinds(a: seq<Piece>, b: seq<Piece>, c: seq<Piece>, d: seq<Piece>)
    ensures SegsKinds([a, b, c, d]) == SegKinds(a) + SegKinds(b) + SegKinds(c) + SegKinds(d)
  {
    assert [d][1..] == [];
    assert SegsKinds([d]) == SegKinds(d);
    assert [c, d][1..] == [d];
    assert SegsKinds([c, d]) == SegKinds(c) + SegKinds(d);
    assert [b, c, d][1..] == [c, d];
    assert SegsKinds([b, c, d]) == SegKinds(b) + SegKinds(c) + SegKinds(d);
    assert [a, b, c, d][1..] == [b, c, d];
  }

  lemma DefaultOutputSegmentsOk()
    ensures SegmentsOk(DefaultOutputSegments())
    ensures var ks := SegsKinds(DefaultOutputSegments()); Year in ks && Month2 in ks && Day2 in ks
  {
    LitsSegmentOk("journals");
    DefaultMonthDaySegment();
    DefaultDaySegment();
    assert SegmentOk([Tok(Year)]) && SegKinds([Tok(Year)]) == {Year};
    FourSegments(Lits("journals"), [Tok(Year)], [Tok(Month2), Lit('-'), Tok(Day2)], [Tok(Day1)] + Lits(".md"));
  }

  lemma DefaultMonthDaySegment()
    ensures SegmentOk([Tok(Month2), Lit('-'), Tok(Day2)])
    ensures SegKinds([Tok(Month2), Lit('-'), Tok(Day2)]) == {Month2, Day2}
  {
    var seg := [Tok(Month2), Lit('-'), Tok(Day2)];
    assert seg[1..][1..] == [Tok(Day2)];
  }

  lemma DefaultDaySegment()
    ensures SegmentOk([Tok(Day1)] + Lits(".md"))
    ensures SegKinds([Tok(Day1)] + Lits(".md")) == {Day1}
  {
    LitsSegmentOk(".md");
    var seg := [Tok(Day1)] + Lits(".md");
    assert seg[1..] == Lits(".md");
    assert seg[1] == Lit('.');
  }

  /** Every journal date survives the default output path template and back. */
  lemma DefaultOutputRoundTrip(copy: Copy, date: string)
    requires IsoDate(date)
    ensures var t := "journals/{yyyy}/{MM}-{dd}/{d}.md";
      ResolveOutputPath(t, date, Default()).Ok?
      && MatchPath(copy, Default(), ResolveOutputPath(t, date, Default()).value, t) == Ok(date)
  {
    DefaultTemplateTokens();
    DefaultOutputTemplate();
    DefaultOutputSegmentsOk();
    RenderThenMatch(copy, Default(), DefaultOutputSegments(), date);
  }

  /** A rendered `{date}` value contains `-`, which the matcher refuses: `{date}` templates do not round-trip. */
  lemma RenderedDateRefused(copy: Copy, p: DatePlaceholders, key: string, date: string, s: Slots)
    requires IsoDate(date)
    ensures Assign(copy, p, key, date, s) == Err(NonDigit(date))
  {
    assert !IsDigit(date[4]);
  }
}

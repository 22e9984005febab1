/**
 * A worked zip import under the default import patterns: an archive
 * holding `yyyy/MM/dd.md`, `yyyy-MM-dd.md` and `notes.txt` (for instance
 * `2024/03/05.md`, `2024-03-06.md`, `notes.txt`). The first path matches
 * the first pattern; the second is too short for the two patterns with a
 * `/` and matches the third; `notes.txt` is not counted at all. The
 * lemmas hold for any placeholder set whose date tokens are plain,
 * distinct and free of `/`, the default set among them.
 */
module ImportExample {
  import opened Wrappers
  import opened Strings
  import opened Placeholders
  import opened Matcher
  import opened Templates
  import opened Render
  import RoundTrip
  import ImportZip
  import Settings
  import RepoScan
  import Files

  /** The default import patterns under the default placeholders. */
  lemma DefaultPatterns()
    ensures Settings.DefaultImportPatternsBy(Default())
      == ["{yyyy}/{MM}/{dd}.md", "{yyyy}/{MM}-{dd}.md", "{yyyy}-{MM}-{dd}.md", "{yyyy}_{MM}_{dd}.md"]
  {
    var p := Default();
    assert p.yyyy == "{yyyy}" && p.mm == "{MM}" && p.dd == "{dd}";
    assert p.yyyy + "/" + p.mm + "/" + p.dd + ".md" == "{yyyy}/{MM}/{dd}.md";
    assert p.yyyy + "/" + p.mm + "-" + p.dd + ".md" == "{yyyy}/{MM}-{dd}.md";
    assert p.yyyy + "-" + p.mm + "-" + p.dd + ".md" == "{yyyy}-{MM}-{dd}.md";
    assert p.yyyy + "_" + p.mm + "_" + p.dd + ".md" == "{yyyy}_{MM}_{dd}.md";
  }

  /** The first default pattern, `year/month/day.md`, as pieces. */
  function SlashSegs(): seq<seq<Piece>> {
    [[Tok(Year)], [Tok(Month2)], DaySeg()]
  }

  /** The third default pattern, `year-month-day.md`, as pieces. */
  function DashSegs(): seq<seq<Piece>> {
    [[Tok(Year)] + ([Lit('-')] + ([Tok(Month2)] + ([Lit('-')] + DaySeg())))]
  }

  /** `day.md` as pieces. */
  function DaySeg(): seq<Piece> {
    [Tok(Day2)] + RoundTrip.Lits(".md")
  }

  lemma SegTextsOne(a: seq<Piece>, p: DatePlaceholders, v: Values, done: set<Kind>)
    ensures RoundTrip.SegTexts([a], p, v, done) == [Text(a, p, v, done)]
  {
    assert [a][1..] == [];
  }

  lemma SegTextsThree(a: seq<Piece>, b: seq<Piece>, c: seq<Piece>, p: DatePlaceholders, v: Values, done: set<Kind>)
    ensures RoundTrip.SegTexts([a, b, c], p, v, done) == [Text(a, p, v, done), Text(b, p, v, done), Text(c, p, v, done)]
  {
    assert [a, b, c][1..] == [b, c];
    assert [b, c][1..] == [c];
    SegTextsOne(c, p, v, done);
  }

  lemma JoinThree(x: string, y: string, z: string, c: char)
    ensures Join([x, y, z], c) == x + [c] + y + [c] + z
  {
    assert [x, y, z][1..] == [y, z];
    assert [y, z][1..] == [z];
    assert Join([y, z], c) == y + [c] + z;
    assert x + [c] + (y + [c] + z) == x + [c] + y + [c] + z;
  }

  lemma TokText(k: Kind, p: DatePlaceholders, v: Values, done: set<Kind>)
    ensures Text([Tok(k)], p, v, done) == PieceText(Tok(k), p, v, done)
  {
    assert [Tok(k)][1..] == [];
  }

  lemma ConsText(x: Piece, ps: seq<Piece>, p: DatePlaceholders, v: Values, done: set<Kind>)
    ensures Text([x] + ps, p, v, done) == PieceText(x, p, v, done) + Text(ps, p, v, done)
  {
    assert ([x] + ps)[1..] == ps;
  }

  lemma DayText(p: DatePlaceholders, v: Values, done: set<Kind>)
    ensures Text(DaySeg(), p, v, done) == PieceText(Tok(Day2), p, v, done) + ".md"
  {
    RoundTrip.LitsText(".md", p, v, done);
    ConsText(Tok(Day2), RoundTrip.Lits(".md"), p, v, done);
  }

  lemma DashText(p: DatePlaceholders, v: Values, done: set<Kind>)
    ensures Text(DashSegs()[0], p, v, done)
      == PieceText(Tok(Year), p, v, done) + "-" + PieceText(Tok(Month2), p, v, done) + "-"
         + PieceText(Tok(Day2), p, v, done) + ".md"
  {
    DayText(p, v, done);
    ConsText(Lit('-'), DaySeg(), p, v, done);
    ConsText(Tok(Month2), [Lit('-')] + DaySeg(), p, v, done);
    ConsText(Lit('-'), [Tok(Month2)] + ([Lit('-')] + DaySeg()), p, v, done);
    ConsText(Tok(Year), [Lit('-')] + ([Tok(Month2)] + ([Lit('-')] + DaySeg())), p, v, done);
  }

  /** Putting a piece in front of a readable segment. */
  lemma ConsSegment(x: Piece, seg: seq<Piece>)
    requires RoundTrip.SegmentOk(seg)
    requires x.Lit? ==> x.c != '{' && x.c != '/'
    requires x.Tok? ==> RoundTrip.Capturable(x.kind) && |seg| > 0 && seg[0].Lit? && !IsDigit(seg[0].c)
    ensures RoundTrip.SegmentOk([x] + seg)
    ensures RoundTrip.SegKinds([x] + seg) == (if x.Tok? then {x.kind} else {}) + RoundTrip.SegKinds(seg)
  {
    var t := [x] + seg;
    assert t[1..] == seg;
    forall i | 0 <= i < |t| && t[i].Lit?
      ensures t[i].c != '{' && t[i].c != '/'
    {
      if i > 0 {
        assert t[i] == seg[i - 1];
      }
    }
    forall i | 0 <= i < |t| && t[i].Tok?
      ensures RoundTrip.Capturable(t[i].kind)
    {
      if i > 0 {
        assert t[i] == seg[i - 1];
      }
    }
    forall i | 0 <= i < |t| - 1 && t[i].Tok?
      ensures t[i + 1].Lit? && !IsDigit(t[i + 1].c)
    {
      assert t[i + 1] == seg[i];
      if i > 0 {
        assert t[i] == seg[i - 1];
      }
    }
  }

  lemma DaySegOk()
    ensures RoundTrip.SegmentOk(DaySeg()) && RoundTrip.SegKinds(DaySeg()) == {Day2}
  {
    RoundTrip.LitsSegmentOk(".md");
    assert RoundTrip.Lits(".md")[0] == Lit('.');
    ConsSegment(Tok(Day2), RoundTrip.Lits(".md"));
  }

  lemma SingleTokSegment(k: Kind)
    requires RoundTrip.Capturable(k)
    ensures RoundTrip.SegmentOk([Tok(k)]) && RoundTrip.SegKinds([Tok(k)]) == {k}
  {
    assert [Tok(k)][1..] == [];
  }

  lemma SlashSegsOk()
    ensures RoundTrip.SegmentsOk(SlashSegs())
    ensures var ks := RoundTrip.SegsKinds(SlashSegs()); Year in ks && Month2 in ks && Day2 in ks
  {
    var segs := SlashSegs();
    DaySegOk();
    SingleTokSegment(Year);
    SingleTokSegment(Month2);
    forall i | 0 <= i < 3
      ensures RoundTrip.SegmentOk(segs[i])
    {
    }
    assert segs[1..] == [[Tok(Month2)], DaySeg()];
    assert segs[1..][1..] == [DaySeg()];
    assert [DaySeg()][1..] == [];
  }

  lemma DashSegsOk()
    ensures RoundTrip.SegmentsOk(DashSegs())
    ensures var ks := RoundTrip.SegsKinds(DashSegs()); Year in ks && Month2 in ks && Day2 in ks
  {
    DaySegOk();
    var s3 := [Lit('-')] + DaySeg();
    var s2 := [Tok(Month2)] + s3;
    var s1 := [Lit('-')] + s2;
    ConsSegment(Lit('-'), DaySeg());
    ConsSegment(Tok(Month2), s3);
    ConsSegment(Lit('-'), s2);
    ConsSegment(Tok(Year), s1);
    assert DashSegs() == [[Tok(Year)] + s1];
    assert DashSegs()[1..] == [];
  }

  /** The first default pattern is the template of `SlashSegs`. */
  lemma SlashTemplate(p: DatePlaceholders)
    ensures RoundTrip.Template(SlashSegs(), p) == Settings.DefaultImportPatternsBy(p)[0]
  {
    var v := RoundTrip.NoValues();
    RoundTrip.FlattenText(SlashSegs(), p, v, {});
    SegTextsThree([Tok(Year)], [Tok(Month2)], DaySeg(), p, v, {});
    TokText(Year, p, v, {});
    TokText(Month2, p, v, {});
    DayText(p, v, {});
    JoinThree(p.yyyy, p.mm, p.dd + ".md", '/');
  }

  /** The third default pattern is the template of `DashSegs`. */
  lemma DashTemplate(p: DatePlaceholders)
    ensures RoundTrip.Template(DashSegs(), p) == Settings.DefaultImportPatternsBy(p)[2]
  {
    var v := RoundTrip.NoValues();
    RoundTrip.FlattenText(DashSegs(), p, v, {});
    SegTextsOne(DashSegs()[0], p, v, {});
    DashText(p, v, {});
  }

  /** The rendered path of a template given as segments is the join of its rendered segments. */
  lemma RenderedText(p: DatePlaceholders, segs: seq<seq<Piece>>, date: string)
    requires RoundTrip.TemplateTokens(p) && IsoDate(date) && RoundTrip.SegmentsOk(segs)
    ensures DateShape(date)
    ensures ResolveOutputPath(RoundTrip.Template(segs, p), date, p)
      == Ok(Join(RoundTrip.SegTexts(segs, p, DateValues(date), PathKinds()), '/'))
  {
    RoundTrip.IsoDateShape(date);
    var v := DateValues(date);
    var ps := RoundTrip.Flatten(segs);
    RoundTrip.TextUndone(ps, p, RoundTrip.NoValues(), v);
    RoundTrip.FlattenLiterals(segs);
    ResolveOutputPathText(ps, date, p);
    RoundTrip.FlattenText(segs, p, v, PathKinds());
  }

  /** The text of `SlashSegs` with the path kinds replaced by `v`. */
  lemma SlashText(p: DatePlaceholders, v: Values)
    ensures Join(RoundTrip.SegTexts(SlashSegs(), p, v, PathKinds()), '/') == v.yyyy + "/" + v.mm + "/" + v.dd + ".md"
  {
    SegTextsThree([Tok(Year)], [Tok(Month2)], DaySeg(), p, v, PathKinds());
    TokText(Year, p, v, PathKinds());
    TokText(Month2, p, v, PathKinds());
    DayText(p, v, PathKinds());
    JoinThree(v.yyyy, v.mm, v.dd + ".md", '/');
  }

  /** The text of `DashSegs` with the path kinds replaced by `v`. */
  lemma DashJoinText(p: DatePlaceholders, v: Values)
    ensures Join(RoundTrip.SegTexts(DashSegs(), p, v, PathKinds()), '/') == v.yyyy + "-" + v.mm + "-" + v.dd + ".md"
  {
    SegTextsOne(DashSegs()[0], p, v, PathKinds());
    DashText(p, v, PathKinds());
  }

  /** `yyyy/MM/dd.md` for a date `yyyy-MM-dd`. */
  function SlashPathOf(date: string): string
    requires IsoDate(date)
  {
    date[..4] + "/" + date[5..7] + "/" + date[8..] + ".md"
  }

  /** The first default pattern renders a date as its year, month and day joined by `/`. */
  lemma SlashRendered(p: DatePlaceholders, date: string)
    requires RoundTrip.TemplateTokens(p) && IsoDate(date)
    ensures ResolveOutputPath(Settings.DefaultImportPatternsBy(p)[0], date, p) == Ok(SlashPathOf(date))
  {
    SlashSegsOk();
    SlashTemplate(p);
    RenderedText(p, SlashSegs(), date);
    SlashText(p, DateValues(date));
  }

  /** The third default pattern renders a date as the date followed by `.md`. */
  lemma DashRendered(p: DatePlaceholders, date: string)
    requires RoundTrip.TemplateTokens(p) && IsoDate(date)
    ensures ResolveOutputPath(Settings.DefaultImportPatternsBy(p)[2], date, p) == Ok(date + ".md")
  {
    DashSegsOk();
    DashTemplate(p);
    RenderedText(p, DashSegs(), date);
    DashJoinText(p, DateValues(date));
    assert date == date[..4] + "-" + date[5..7] + "-" + date[8..];
  }

  /** A date's `/`-separated path matches the first default pattern and yields the date. */
  lemma SlashMatch(p: DatePlaceholders, date: string)
    requires RoundTrip.TemplateTokens(p) && IsoDate(date)
    ensures MatchPath(Matcher.ImportZip, p, SlashPathOf(date), Settings.DefaultImportPatternsBy(p)[0]) == Ok(date)
  {
    SlashSegsOk();
    SlashTemplate(p);
    SlashRendered(p, date);
    RoundTrip.RenderThenMatch(Matcher.ImportZip, p, SlashSegs(), date);
  }

  /** A date's path `date.md` matches the third default pattern and yields the date. */
  lemma DashMatch(p: DatePlaceholders, date: string)
    requires RoundTrip.TemplateTokens(p) && IsoDate(date)
    ensures MatchPath(Matcher.ImportZip, p, date + ".md", Settings.DefaultImportPatternsBy(p)[2]) == Ok(date)
  {
    DashSegsOk();
    DashTemplate(p);
    DashRendered(p, date);
    RoundTrip.RenderThenMatch(Matcher.ImportZip, p, DashSegs(), date);
  }

  /** A path without `/` is too short for a pattern of several segments. */
  lemma OneSegmentTooShort(p: DatePlaceholders, path: string, parts: seq<string>)
    requires '/' !in path && |parts| >= 2
    requires forall k :: 0 <= k < |parts| ==> '/' !in parts[k]
    ensures MatchPath(Matcher.ImportZip, p, path, Join(parts, '/')) == Err(TooShort(1, |parts|))
  {
    SplitNoSeparator(path, '/');
    SplitJoin(parts, '/');
  }

  /** No `/` in `a + b` when there is none in `a` or in `b`. */
  lemma NoSlashAppend(a: string, b: string)
    requires '/' !in a && '/' !in b
    ensures '/' !in a + b
  {
    forall i | 0 <= i < |a + b|
      ensures (a + b)[i] != '/'
    {
      if i >= |a| {
        assert (a + b)[i] == b[i - |a|];
      }
    }
  }

  /** The date tokens of a template-ready placeholder set hold no `/`. */
  lemma TokensNoSlash(p: DatePlaceholders)
    requires RoundTrip.TemplateTokens(p)
    ensures '/' !in p.yyyy && '/' !in p.mm && '/' !in p.dd
  {
    assert TokenOf(p, Year) == p.yyyy && TokenOf(p, Month2) == p.mm && TokenOf(p, Day2) == p.dd;
  }

  /** The first default pattern, by segment. */
  lemma FirstPatternParts(p: DatePlaceholders)
    requires RoundTrip.TemplateTokens(p)
    ensures Join([p.yyyy, p.mm, p.dd + ".md"], '/') == Settings.DefaultImportPatternsBy(p)[0]
    ensures '/' !in p.yyyy && '/' !in p.mm && '/' !in p.dd + ".md"
  {
    JoinThree(p.yyyy, p.mm, p.dd + ".md", '/');
    TokensNoSlash(p);
    NoSlashAppend(p.dd, ".md");
  }

  /** The second default pattern, by segment. */
  lemma SecondPatternParts(p: DatePlaceholders)
    requires RoundTrip.TemplateTokens(p)
    ensures Join([p.yyyy, p.mm + "-" + p.dd + ".md"], '/') == Settings.DefaultImportPatternsBy(p)[1]
    ensures '/' !in p.yyyy && '/' !in p.mm + "-" + p.dd + ".md"
  {
    var b := [p.yyyy, p.mm + "-" + p.dd + ".md"];
    assert b[1..] == [b[1]];
    TokensNoSlash(p);
    NoSlashAppend(p.dd, ".md");
    NoSlashAppend(p.mm, "-");
    NoSlashAppend(p.mm + "-", p.dd + ".md");
    assert p.mm + "-" + (p.dd + ".md") == p.mm + "-" + p.dd + ".md";
  }

  /** No `/` in `date.md`. */
  lemma DashPathNoSlash(date: string)
    requires IsoDate(date)
    ensures '/' !in date + ".md"
  {
    var path := date + ".md";
    forall i | 0 <= i < |path|
      ensures path[i] != '/'
    {
      if i < 4 {
        assert date[..4][i] == path[i];
      } else if 5 <= i < 7 {
        assert date[5..7][i - 5] == path[i];
      } else if 8 <= i < 10 {
        assert date[8..][i - 8] == path[i];
      }
    }
  }

  /** The third pattern decides when the first two fail. */
  lemma ExtractThird(p: DatePlaceholders, path: string, ps: seq<string>, date: string)
    requires |ps| >= 3
    requires MatchPath(Matcher.ImportZip, p, path, ps[0]).Err?
    requires MatchPath(Matcher.ImportZip, p, path, ps[1]).Err?
    requires MatchPath(Matcher.ImportZip, p, path, ps[2]) == Ok(date)
    ensures Extract(Matcher.ImportZip, p, path, ps) == Ok(date)
  {
    assert ps[1..][1..] == ps[2..] && ps[2..][0] == ps[2] && ps[1..][0] == ps[1];
    assert Extract(Matcher.ImportZip, p, path, ps[2..]) == Ok(date);
    assert Extract(Matcher.ImportZip, p, path, ps[1..]) == Ok(date);
  }

  /** The `/`-separated path of a date yields the date under the default patterns, by the first. */
  lemma ExtractSlash(p: DatePlaceholders, date: string)
    requires RoundTrip.TemplateTokens(p) && IsoDate(date)
    ensures Extract(Matcher.ImportZip, p, SlashPathOf(date), Settings.DefaultImportPatternsBy(p)) == Ok(date)
  {
    SlashMatch(p, date);
  }

  /** The path `date.md` yields the date under the default patterns, by the third. */
  lemma ExtractDash(p: DatePlaceholders, date: string)
    requires RoundTrip.TemplateTokens(p) && IsoDate(date)
    ensures Extract(Matcher.ImportZip, p, date + ".md", Settings.DefaultImportPatternsBy(p)) == Ok(date)
  {
    var path := date + ".md";
    DashPathNoSlash(date);
    FirstPatternParts(p);
    OneSegmentTooShort(p, path, [p.yyyy, p.mm, p.dd + ".md"]);
    SecondPatternParts(p);
    OneSegmentTooShort(p, path, [p.yyyy, p.mm + "-" + p.dd + ".md"]);
    DashMatch(p, date);
    ExtractThird(p, path, Settings.DefaultImportPatternsBy(p), date);
  }

  /** A name that ends in lower-case `.md` passes the Markdown test. */
  lemma LowerMd(s: string)
    requires EndsWith(s, ".md")
    ensures ImportZip.IsMarkdownName(s)
  {
    var l := ToAsciiLower(s);
    var n := |s| - 3;
    assert l[n..] == ".md" by {
      forall i | 0 <= i < 3
        ensures l[n..][i] == ".md"[i]
      {
        assert s[n..][i] == s[n + i];
      }
    }
  }

  /** A dated path is already normalised and counts as Markdown. */
  lemma DatedName(date: string, path: string)
    requires IsoDate(date) && (path == SlashPathOf(date) || path == date + ".md")
    ensures RepoScan.RelPath(path) == path && ImportZip.IsMarkdownName(path)
  {
    assert path[|path| - 3..] == ".md";
    LowerMd(path);
    assert '\\' !in path by {
      forall i | 0 <= i < |path|
        ensures path[i] != '\\'
      {
        if i < 4 {
          assert date[..4][i] == path[i];
        } else if 5 <= i < 7 {
          assert date[5..7][i - 5] == path[i];
        } else if 8 <= i < 10 {
          assert date[8..][i - 8] == path[i];
        }
      }
    }
    Files.RelPathFixed(path);
  }

  /** `notes.txt` is normalised as it is and is not Markdown. */
  lemma NotesName()
    ensures RepoScan.RelPath("notes.txt") == "notes.txt" && !ImportZip.IsMarkdownName("notes.txt")
  {
    assert ToAsciiLower("notes.txt")[8] == 't';
    Files.RelPathFixed("notes.txt");
  }

  /** An entry that is not Markdown leaves the loop state as it is. */
  lemma OtherStep(p: DatePlaceholders, pats: seq<string>, st: ImportZip.ParseState, name: string, c: Option<string>)
    requires !ImportZip.IsMarkdownName(RepoScan.RelPath(name))
    ensures ImportZip.ParseStep(st, ImportZip.ZipItem(name, true, c), p, pats) == Ok(st)
  {
  }

  /** A Markdown entry whose path yields a date is appended to the entries. */
  lemma DatedStep(p: DatePlaceholders, pats: seq<string>, st: ImportZip.ParseState, path: string, date: string, c: string,
                  st': ImportZip.ParseState)
    requires RepoScan.RelPath(path) == path && ImportZip.IsMarkdownName(path)
    requires Extract(Matcher.ImportZip, p, path, pats) == Ok(date)
    requires st' == ImportZip.ParseState(st.total + 1, st.entries + [ImportZip.ParsedEntry(path, date, c)], st.skipped)
    ensures ImportZip.ParseStep(st, ImportZip.ZipItem(path, true, Some(c)), p, pats) == Ok(st')
  {
    ImportZip.ParseStepMatched(st, ImportZip.ZipItem(path, true, Some(c)), p, pats, date);
  }

  /**
   * `parse_zip` over two Markdown entries whose paths yield dates and one
   * entry that is not Markdown: both dated entries are counted and kept, in
   * order, and the third is in no count.
   */
  lemma ParseTwoDatedOneOther(p: DatePlaceholders, pats: seq<string>, path1: string, d1: string, c1: string,
                              path2: string, d2: string, c2: string, name3: string, c3: Option<string>)
    requires RepoScan.RelPath(path1) == path1 && ImportZip.IsMarkdownName(path1)
    requires RepoScan.RelPath(path2) == path2 && ImportZip.IsMarkdownName(path2)
    requires !ImportZip.IsMarkdownName(RepoScan.RelPath(name3))
    requires Extract(Matcher.ImportZip, p, path1, pats) == Ok(d1)
    requires Extract(Matcher.ImportZip, p, path2, pats) == Ok(d2)
    ensures var es := [ImportZip.ZipItem(path1, true, Some(c1)), ImportZip.ZipItem(path2, true, Some(c2)),
                       ImportZip.ZipItem(name3, true, c3)];
      ImportZip.ParseZipSpec(Some(es), pats, p)
      == Ok(ImportZip.ParseZipResult(2, 2, [ImportZip.ParsedEntry(path1, d1, c1), ImportZip.ParsedEntry(path2, d2, c2)], []))
  {
    var e1 := ImportZip.ZipItem(path1, true, Some(c1));
    var e2 := ImportZip.ZipItem(path2, true, Some(c2));
    var e3 := ImportZip.ZipItem(name3, true, c3);
    var s2 := ImportZip.ParseState(2, [ImportZip.ParsedEntry(path1, d1, c1), ImportZip.ParsedEntry(path2, d2, c2)], []);
    var x1 := ImportZip.ParsedEntry(path1, d1, c1);
    var s0 := ImportZip.ParseState(0, [], []);
    var s1 := ImportZip.ParseState(1, [x1], []);
    assert s0.entries + [x1] == [x1] && s1.entries + [s2.entries[1]] == s2.entries;
    DatedStep(p, pats, s0, path1, d1, c1, s1);
    DatedStep(p, pats, s1, path2, d2, c2, s2);
    OtherStep(p, pats, s2, name3, c3);
    ImportZip.ParseZipTwoThenOther(p, pats, e1, e2, e3, s1, s2);
  }

  /**
   * The three-entry archive `yyyy/MM/dd.md`, `yyyy-MM-dd.md`, `notes.txt`
   * under the default patterns: two Markdown files counted and both
   * matched, in order, with their dates and contents; `notes.txt` is in no
   * count and nothing is skipped.
   */
  lemma ZipExample(p: DatePlaceholders, d1: string, d2: string, c1: string, c2: string, c3: string)
    requires RoundTrip.TemplateTokens(p) && IsoDate(d1) && IsoDate(d2)
    ensures var es := [ImportZip.ZipItem(SlashPathOf(d1), true, Some(c1)), ImportZip.ZipItem(d2 + ".md", true, Some(c2)),
                       ImportZip.ZipItem("notes.txt", true, Some(c3))];
      ImportZip.ParseZipSpec(Some(es), Settings.DefaultImportPatternsBy(p), p)
      == Ok(ImportZip.ParseZipResult(2, 2, [ImportZip.ParsedEntry(SlashPathOf(d1), d1, c1),
                                          ImportZip.ParsedEntry(d2 + ".md", d2, c2)], []))
  {
    DatedName(d1, SlashPathOf(d1));
    DatedName(d2, d2 + ".md");
    NotesName();
    ExtractSlash(p, d1);
    ExtractDash(p, d2);
    ParseTwoDatedOneOther(p, Settings.DefaultImportPatternsBy(p), SlashPathOf(d1), d1, c1, d2 + ".md", d2, c2, "notes.txt", Some(c3));
  }
}

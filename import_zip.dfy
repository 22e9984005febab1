/**
 * The journal import of import_zip.rs: choosing and cleaning the patterns
 * (`normalize_patterns`, `validate_pattern`), walking the archive entries
 * (`parse_zip`), and writing every parsed entry into the journal table
 * (the loop of `import_journal_zip`).
 *
 * The archive arrives already listed: each entry is either unreadable or a
 * name, a file flag and its content (absent when reading it fails). Whether
 * the patterns text decodes as a JSON array, and which table writes fail,
 * are parameters.
 */
module ImportZip {
  import opened Wrappers
  import opened Strings
  import opened Placeholders
  import opened Matcher
  import RepoScan
  import Settings
  import opened Journals

  // ---------------------------------------------------------------------------
  // validate_pattern and normalize_patterns
  // ---------------------------------------------------------------------------

  /** The message of a pattern without the needed tokens. */
  function PatternError(pattern: string, p: DatePlaceholders): string {
    "invalid pattern '" + pattern + "' , required placeholders: "
      + p.yyyy + "+" + p.mm + "|" + p.m + "+" + p.dd + "|" + p.d + " or " + p.date
  }

  /** `validate_pattern`: year, month and day tokens, or the date token. */
  function ValidatePattern(pattern: string, p: DatePlaceholders): (r: Result<(), string>)
    ensures r.Ok? <==> RepoScan.HasDateTokens(pattern, p)
    ensures r.Err? ==> r.error == PatternError(pattern, p)
  {
    var hasYmd := Contains(pattern, p.yyyy) && (Contains(pattern, p.mm) || Contains(pattern, p.m))
      && (Contains(pattern, p.dd) || Contains(pattern, p.d));
    if !hasYmd && !Contains(pattern, p.date) then Err(PatternError(pattern, p)) else Ok(())
  }

  predicate IsListSeparator(c: char) {
    c == '\n' || c == ',' || c == ';'
  }

  /** The text with every separator removed. */
  function WithoutSeparators(s: string): string
    decreases |s|
  {
    if |s| == 0 then [] else if IsListSeparator(s[0]) then WithoutSeparators(s[1..]) else [s[0]] + WithoutSeparators(s[1..])
  }

  function Concat(parts: seq<string>): string
    decreases |parts|
  {
    if |parts| == 0 then [] else parts[0] + Concat(parts[1..])
  }

  /**
   * `split(|c| c == '\n' || c == ',' || c == ';')`: one part more than
   * there are separators, no part holds a separator, and together the
   * parts hold every other character in order.
   */
  function SplitList(s: string): (parts: seq<string>)
    ensures |parts| >= 1
    ensures forall k, i :: 0 <= k < |parts| && 0 <= i < |parts[k]| ==> !IsListSeparator(parts[k][i])
    ensures Concat(parts) == WithoutSeparators(s)
    decreases |s|
  {
    if |s| == 0 then [[]]
    else
      var rest := SplitList(s[1..]);
      if IsListSeparator(s[0]) then
        assert Concat([[]] + rest) == [] + Concat(rest) by { assert ([[]] + rest)[1..] == rest; }
        [[]] + rest
      else
        var parts := [[s[0]] + rest[0]] + rest[1..];
        assert parts[1..] == rest[1..];
        assert Concat(rest) == rest[0] + Concat(rest[1..]);
        assert Concat(parts) == [s[0]] + Concat(rest);
        forall k, i | 0 <= k < |parts| && 0 <= i < |parts[k]| ensures !IsListSeparator(parts[k][i]) {
          if k == 0 {
            if i > 0 { assert parts[0][i] == rest[0][i - 1]; }
          } else {
            assert parts[k] == rest[k];
          }
        }
        parts
  }

  function TrimEach(xs: seq<string>): (r: seq<string>)
    ensures |r| == |xs| && forall i :: 0 <= i < |xs| ==> r[i] == Trim(xs[i])
  {
    seq(|xs|, i requires 0 <= i < |xs| => Trim(xs[i]))
  }

  /**
   * Where the patterns come from: the defaults when no text or only
   * whitespace was sent, otherwise the decoded JSON array when the trimmed
   * text is one (`json`), otherwise the trimmed parts of the text.
   */
  function PatternSource(input: Option<string>, defaults: seq<string>, json: Option<seq<string>>): seq<string> {
    if input.None? then defaults
    else
      var trimmed := Trim(input.value);
      if |trimmed| == 0 then defaults
      else if json.Some? then json.value
      else TrimEach(SplitList(trimmed))
  }

  /** `retain(|v| !v.trim().is_empty())`. */
  function DropBlank(xs: seq<string>): (r: seq<string>)
    ensures forall x :: x in r <==> x in xs && !IsBlank(x)
    decreases |xs|
  {
    if |xs| == 0 then []
    else
      var n := |xs| - 1;
      assert xs == xs[..n] + [xs[n]];
      var d := DropBlank(xs[..n]);
      if IsBlank(xs[n]) then d else d + [xs[n]]
  }

  /** `retain(|v| uniq.insert(v.clone()))`: keep the first occurrence of every string. */
  function Uniq(xs: seq<string>): (r: seq<string>)
    ensures forall x :: x in r <==> x in xs
    ensures forall i, j :: 0 <= i < j < |r| ==> r[i] != r[j]
    decreases |xs|
  {
    if |xs| == 0 then []
    else
      var n := |xs| - 1;
      assert xs == xs[..n] + [xs[n]];
      var u := Uniq(xs[..n]);
      if xs[n] in u then u else u + [xs[n]]
  }

  /** The position of the first occurrence. */
  function FirstIndex(xs: seq<string>, x: string): (k: nat)
    requires x in xs
    ensures k < |xs| && xs[k] == x && x !in xs[..k]
    decreases |xs|
  {
    if xs[0] == x then 0
    else
      var k := FirstIndex(xs[1..], x);
      assert xs[..k + 1] == [xs[0]] + xs[1..][..k];
      k + 1
  }

  /** The first occurrence is the position holding `x` with no `x` before it. */
  lemma {:induction false} FirstIndexUnique(xs: seq<string>, x: string, k: nat)
    requires k < |xs| && xs[k] == x && x !in xs[..k]
    ensures FirstIndex(xs, x) == k
    decreases k
  {
    if k > 0 {
      assert xs[0] in xs[..k];
      assert xs[1..][..k - 1] == xs[1..k];
      assert forall y :: y in xs[1..k] ==> y in xs[..k];
      FirstIndexUnique(xs[1..], x, k - 1);
    }
  }

  lemma {:induction false} FirstIndexPrefix(ys: seq<string>, x: string, y: string)
    requires y in ys
    ensures FirstIndex(ys + [x], y) == FirstIndex(ys, y) < |ys|
  {
    var k := FirstIndex(ys, y);
    assert (ys + [x])[..k] == ys[..k];
    FirstIndexUnique(ys + [x], y, k);
  }

  /** The strings of `r` occur in `xs`, in the order of their first occurrences there. */
  predicate InFirstOccurrenceOrder(xs: seq<string>, r: seq<string>) {
    (forall x :: x in r ==> x in xs)
    && forall i, j :: 0 <= i < j < |r| ==> FirstIndex(xs, r[i]) < FirstIndex(xs, r[j])
  }

  /** The kept strings appear in the order of their first occurrences. */
  lemma {:induction false} UniqFirstOccurrenceOrder(xs: seq<string>)
    ensures InFirstOccurrenceOrder(xs, Uniq(xs))
    decreases |xs|
  {
    if |xs| > 0 {
      var n := |xs| - 1;
      var ys := xs[..n];
      assert xs == ys + [xs[n]];
      UniqFirstOccurrenceOrder(ys);
      var u := Uniq(ys);
      var r := Uniq(xs);
      forall i, j | 0 <= i < j < |r| ensures FirstIndex(xs, r[i]) < FirstIndex(xs, r[j]) {
        assert r[i] == u[i] && r[i] in ys;
        FirstIndexPrefix(ys, xs[n], r[i]);
        if j < |u| {
          assert r[j] == u[j] && r[j] in ys;
          assert FirstIndex(ys, u[i]) < FirstIndex(ys, u[j]);
          FirstIndexPrefix(ys, xs[n], r[j]);
        } else {
          assert r[j] == xs[n] && xs[n] !in ys;
          FirstIndexUnique(xs, xs[n], n);
        }
      }
    }
  }

  const PatternsRequired: string := "patterns required"

  /** What `normalize_patterns` computes. */
  function NormalizeSpec(input: Option<string>, defaults: seq<string>, json: Option<seq<string>>, p: DatePlaceholders)
    : (r: Result<seq<string>, string>)
    ensures r.Ok? ==>
      |r.value| > 0
      && (forall x :: x in r.value <==> x in PatternSource(input, defaults, json) && !IsBlank(x))
      && (forall i, j :: 0 <= i < j < |r.value| ==> r.value[i] != r.value[j])
      && forall i :: 0 <= i < |r.value| ==> RepoScan.HasDateTokens(r.value[i], p)
    ensures r.Err? ==>
      r.error == PatternsRequired
      || exists x :: x in PatternSource(input, defaults, json) && !IsBlank(x) && r.error == PatternError(x, p)
  {
    var u := Uniq(DropBlank(PatternSource(input, defaults, json)));
    if |u| == 0 then Err(PatternsRequired)
    else match RepoScan.FirstInvalidPattern(u, p)
      case Some(bad) => Err(PatternError(bad, p))
      case None => Ok(u)
  }

  /** Nothing usable in the chosen source is refused. */
  lemma {:induction false} PatternsRequiredWhenAllBlank(input: Option<string>, defaults: seq<string>, json: Option<seq<string>>, p: DatePlaceholders)
    ensures NormalizeSpec(input, defaults, json, p) == Err(PatternsRequired) <==>
      forall x :: x in PatternSource(input, defaults, json) ==> IsBlank(x)
  {
    var u := Uniq(DropBlank(PatternSource(input, defaults, json)));
    if |u| > 0 {
      assert u[0] in u;
      assert PatternError(u[0], p) != PatternsRequired by {
        assert PatternError(u[0], p)[..9] == "invalid p";
        assert PatternsRequired[..9] == "patterns ";
      }
    }
  }

  /** `retain(|v| !v.trim().is_empty())`, as a loop. */
  method RetainNonBlank(patterns: seq<string>) returns (kept: seq<string>)
    ensures kept == DropBlank(patterns)
  {
    kept := [];
    var i := 0;
    while i < |patterns|
      invariant 0 <= i <= |patterns|
      invariant kept == DropBlank(patterns[..i])
    {
      assert patterns[..i + 1][..i] == patterns[..i];
      if !IsBlank(patterns[i]) {
        kept := kept + [patterns[i]];
      }
      i := i + 1;
    }
    assert patterns[..|patterns|] == patterns;
  }

  /** `retain(|v| uniq.insert(v.clone()))` with a seen-set, as a loop. */
  method RetainFirstOccurrences(kept: seq<string>) returns (out: seq<string>)
    ensures out == Uniq(kept)
  {
    var uniq: set<string> := {};
    out := [];
    var i := 0;
    while i < |kept|
      invariant 0 <= i <= |kept|
      invariant out == Uniq(kept[..i])
      invariant forall x :: x in uniq <==> x in kept[..i]
    {
      assert kept[..i + 1][..i] == kept[..i];
      assert forall x :: x in kept[..i + 1] <==> x in kept[..i] || x == kept[i] by {
        assert kept[..i + 1] == kept[..i] + [kept[i]];
      }
      if kept[i] !in uniq {
        uniq := uniq + {kept[i]};
        out := out + [kept[i]];
      }
      i := i + 1;
    }
    assert kept[..|kept|] == kept;
  }

  /** The validation loop: the first pattern `validate_pattern` refuses, with its message. */
  method ValidateAll(patterns: seq<string>, p: DatePlaceholders) returns (r: Result<(), string>)
    ensures r.Ok? <==> RepoScan.FirstInvalidPattern(patterns, p).None?
    ensures r.Err? ==> r.error == PatternError(RepoScan.FirstInvalidPattern(patterns, p).value, p)
  {
    var i := 0;
    while i < |patterns|
      invariant 0 <= i <= |patterns|
      invariant RepoScan.FirstInvalidPattern(patterns[i..], p) == RepoScan.FirstInvalidPattern(patterns, p)
    {
      assert patterns[i..][1..] == patterns[i + 1..];
      var v := ValidatePattern(patterns[i], p);
      if v.Err? {
        return v;
      }
      i := i + 1;
    }
    assert patterns[|patterns|..] == [];
    return Ok(());
  }

  /**
   * `normalize_patterns`: pick the source, drop blank entries, drop
   * repeated entries, then validate each pattern in order.
   */
  method NormalizePatterns(input: Option<string>, defaults: seq<string>, json: Option<seq<string>>, p: DatePlaceholders)
    returns (r: Result<seq<string>, string>)
    ensures r == NormalizeSpec(input, defaults, json, p)
  {
    var patterns := PatternSource(input, defaults, json);
    var kept := RetainNonBlank(patterns);
    var out := RetainFirstOccurrences(kept);
    if |out| == 0 {
      return Err(PatternsRequired);
    }
    var v := ValidateAll(out, p);
    if v.Err? {
      return Err(v.error);
    }
    r := Ok(out);
  }

  // ---------------------------------------------------------------------------
  // parse_zip
  // ---------------------------------------------------------------------------

  /** An archive entry as `by_index` yields it. */
  datatype ZipEntry =
    | Unreadable
    | ZipItem(name: string, isFile: bool, content: Option<string>)

  datatype SkipReason = NoPatternMatched(reasons: seq<Reason>) | DbInsertFailed

  datatype SkipDetail = SkipDetail(path: string, reason: SkipReason)

  datatype ParsedEntry = ParsedEntry(path: string, date: string, content: string)

  datatype ParseZipResult = ParseZipResult(
    totalMarkdownFiles: nat, matchedFiles: nat, entries: seq<ParsedEntry>, skippedDetails: seq<SkipDetail>)

  /** The loop state of `parse_zip`. */
  datatype ParseState = ParseState(total: nat, entries: seq<ParsedEntry>, skipped: seq<SkipDetail>)

  /** `to_ascii_lowercase().ends_with(".md")`: unlike the export side, a bare `.md` counts. */
  predicate IsMarkdownName(path: string) {
    EndsWith(ToAsciiLower(path), ".md")
  }

  /** An entry the loop counts: a file whose normalised name is Markdown. */
  predicate CountsAsMarkdown(e: ZipEntry) {
    e.ZipItem? && e.isFile && IsMarkdownName(RepoScan.RelPath(e.name))
  }

  const ReadEntryFailed: string := "read zip entry failed"
  const ReadContentFailed: string := "read markdown content failed"
  const InvalidZip: string := "invalid zip file"

  /** One iteration of the `parse_zip` loop. */
  function ParseStep(st: ParseState, e: ZipEntry, p: DatePlaceholders, patterns: seq<string>): Result<ParseState, string> {
    match e
    case Unreadable => Err(ReadEntryFailed)
    case ZipItem(name, isFile, content) =>
      var path := RepoScan.RelPath(name);
      if !isFile || !IsMarkdownName(path) then Ok(st)
      else match Extract(ImportZip, p, path, patterns)
        case Err(reasons) => Ok(ParseState(st.total + 1, st.entries, st.skipped + [SkipDetail(path, NoPatternMatched(reasons))]))
        case Ok(date) =>
          if content.None? then Err(ReadContentFailed)
          else Ok(ParseState(st.total + 1, st.entries + [ParsedEntry(path, date, content.value)], st.skipped))
  }

  /** The state after the loop has visited `es`, in order. */
  function ParseFold(p: DatePlaceholders, patterns: seq<string>, es: seq<ZipEntry>): Result<ParseState, string>
    decreases |es|
  {
    if |es| == 0 then Ok(ParseState(0, [], []))
    else
      var n := |es| - 1;
      match ParseFold(p, patterns, es[..n])
      case Err(e) => Err(e)
      case Ok(st) => ParseStep(st, es[n], p, patterns)
  }

  /** What `parse_zip` computes; `None` is an archive that does not open. */
  function ParseZipSpec(archive: Option<seq<ZipEntry>>, patterns: seq<string>, p: DatePlaceholders): Result<ParseZipResult, string> {
    match archive
    case None => Err(InvalidZip)
    case Some(es) =>
      match ParseFold(p, patterns, es)
      case Err(e) => Err(e)
      case Ok(st) => Ok(ParseZipResult(st.total, |st.entries|, st.entries, st.skipped))
  }

  /** The body of the `parse_zip` loop for one entry. */
  method ParseEntry(st: ParseState, e: ZipEntry, p: DatePlaceholders, patterns: seq<string>)
    returns (r: Result<ParseState, string>)
    ensures r == ParseStep(st, e, p, patterns)
  {
    if e.Unreadable? {
      return Err(ReadEntryFailed);
    }
    var path := RepoScan.RelPath(e.name);
    if !e.isFile || !IsMarkdownName(path) {
      return Ok(st);
    }
    var date := ExtractDateFromPath(ImportZip, p, path, patterns);
    if date.Err? {
      return Ok(ParseState(st.total + 1, st.entries, st.skipped + [SkipDetail(path, NoPatternMatched(date.error))]));
    }
    if e.content.None? {
      return Err(ReadContentFailed);
    }
    return Ok(ParseState(st.total + 1, st.entries + [ParsedEntry(path, date.value, e.content.value)], st.skipped));
  }

  /** `parse_zip`. */
  method ParseZip(archive: Option<seq<ZipEntry>>, patterns: seq<string>, p: DatePlaceholders)
    returns (r: Result<ParseZipResult, string>)
    ensures r == ParseZipSpec(archive, patterns, p)
  {
    if archive.None? {
      return Err(InvalidZip);
    }
    var es := archive.value;
    var entries: seq<ParsedEntry> := [];
    var skipped: seq<SkipDetail> := [];
    var total: nat := 0;
    var idx := 0;
    while idx < |es|
      invariant 0 <= idx <= |es|
      invariant ParseFold(p, patterns, es[..idx]) == Ok(ParseState(total, entries, skipped))
    {
      ParseFoldNext(p, patterns, es, idx, ParseState(total, entries, skipped));
      var next := ParseEntry(ParseState(total, entries, skipped), es[idx], p, patterns);
      if next.Err? {
        ParseErrorStops(p, patterns, es, idx + 1);
        return Err(next.error);
      }
      total, entries, skipped := next.value.total, next.value.entries, next.value.skipped;
      idx := idx + 1;
    }
    assert es[..|es|] == es;
    r := Ok(ParseZipResult(total, |entries|, entries, skipped));
  }

  /** An error ends the fold: later entries do not change it. */
  lemma {:induction false} ParseErrorStops(p: DatePlaceholders, patterns: seq<string>, es: seq<ZipEntry>, k: nat)
    requires k <= |es| && ParseFold(p, patterns, es[..k]).Err?
    ensures ParseFold(p, patterns, es) == ParseFold(p, patterns, es[..k])
    decreases |es| - k
  {
    if k < |es| {
      assert es[..k + 1][..k] == es[..k];
      ParseErrorStops(p, patterns, es, k + 1);
    } else {
      assert es[..k] == es;
    }
  }

  /** The number of entries the loop counts as Markdown files. */
  function MarkdownCount(es: seq<ZipEntry>): nat
    decreases |es|
  {
    if |es| == 0 then 0
    else MarkdownCount(es[..|es| - 1]) + (if CountsAsMarkdown(es[|es| - 1]) then 1 else 0)
  }

  /** The loop state's counts agree, its entries are Markdown with `yyyy-MM-dd` dates, its skips Markdown. */
  predicate ParsedWell(st: ParseState) {
    st.total == |st.entries| + |st.skipped|
    && (forall i :: 0 <= i < |st.entries| ==> IsMarkdownName(st.entries[i].path) && IsoDate(st.entries[i].date))
    && forall i :: 0 <= i < |st.skipped| ==> IsMarkdownName(st.skipped[i].path)
  }

  /** One successful iteration keeps `ParsedWell` and counts exactly the Markdown files. */
  lemma ParseStepWell(st: ParseState, e: ZipEntry, p: DatePlaceholders, patterns: seq<string>)
    requires ParsedWell(st) && ParseStep(st, e, p, patterns).Ok?
    ensures var st' := ParseStep(st, e, p, patterns).value;
      ParsedWell(st') && st'.total == st.total + (if CountsAsMarkdown(e) then 1 else 0)
  {
    if CountsAsMarkdown(e) {
      var path := RepoScan.RelPath(e.name);
      match Extract(ImportZip, p, path, patterns)
      case Err(reasons) =>
        ParseStepUnmatched(st, e, p, patterns, reasons);
      case Ok(date) =>
        ExtractIsoDate(ImportZip, p, path, patterns);
        ParseStepMatched(st, e, p, patterns, date);
    } else {
      ParseStepOther(st, e, p, patterns);
    }
  }

  /**
   * The counts of `parse_zip`: every Markdown file lands in exactly one of
   * the entries and the skips, other entries in neither; every entry
   * carries a `yyyy-MM-dd` date.
   */
  lemma {:induction false} ParseCounts(p: DatePlaceholders, patterns: seq<string>, es: seq<ZipEntry>)
    requires ParseFold(p, patterns, es).Ok?
    ensures var st := ParseFold(p, patterns, es).value;
      st.total == |st.entries| + |st.skipped| && st.total == MarkdownCount(es)
      && (forall i :: 0 <= i < |st.entries| ==> IsMarkdownName(st.entries[i].path) && IsoDate(st.entries[i].date))
      && forall i :: 0 <= i < |st.skipped| ==> IsMarkdownName(st.skipped[i].path)
    decreases |es|
  {
    if |es| > 0 {
      var n := |es| - 1;
      ParseCounts(p, patterns, es[..n]);
      ParseStepWell(ParseFold(p, patterns, es[..n]).value, es[n], p, patterns);
    }
  }

  /** The fold over one more entry is one more step. */
  lemma ParseFoldNext(p: DatePlaceholders, patterns: seq<string>, es: seq<ZipEntry>, k: nat, st: ParseState)
    requires k < |es| && ParseFold(p, patterns, es[..k]) == Ok(st)
    ensures ParseFold(p, patterns, es[..k + 1]) == ParseStep(st, es[k], p, patterns)
  {
    assert es[..k + 1][..k] == es[..k];
  }

  /** Visiting one more entry at the end is one more step. */
  lemma ParseFoldSnoc(p: DatePlaceholders, patterns: seq<string>, es: seq<ZipEntry>, e: ZipEntry, st: ParseState)
    requires ParseFold(p, patterns, es) == Ok(st)
    ensures ParseFold(p, patterns, es + [e]) == ParseStep(st, e, p, patterns)
  {
    assert (es + [e])[..|es|] == es;
  }

  /** Two successful steps and then an entry that is not a Markdown file: the result is that of the two steps. */
  lemma ParseZipTwoThenOther(p: DatePlaceholders, patterns: seq<string>, e1: ZipEntry, e2: ZipEntry, e3: ZipEntry,
                             s1: ParseState, s2: ParseState)
    requires ParseStep(ParseState(0, [], []), e1, p, patterns) == Ok(s1)
    requires ParseStep(s1, e2, p, patterns) == Ok(s2)
    requires e3.ZipItem? && !CountsAsMarkdown(e3)
    ensures ParseZipSpec(Some([e1, e2, e3]), patterns, p) == Ok(ParseZipResult(s2.total, |s2.entries|, s2.entries, s2.skipped))
  {
    ParseFoldSnoc(p, patterns, [], e1, ParseState(0, [], []));
    assert [] + [e1] == [e1];
    ParseFoldSnoc(p, patterns, [e1], e2, s1);
    assert [e1] + [e2] == [e1, e2];
    ParseFoldSnoc(p, patterns, [e1, e2], e3, s2);
    ParseStepOther(s2, e3, p, patterns);
    assert [e1, e2] + [e3] == [e1, e2, e3];
  }

  /** A directory or a file that is not Markdown leaves the loop state as it is. */
  lemma ParseStepOther(st: ParseState, e: ZipEntry, p: DatePlaceholders, patterns: seq<string>)
    requires e.ZipItem? && !CountsAsMarkdown(e)
    ensures ParseStep(st, e, p, patterns) == Ok(st)
  {
  }

  /** A counted entry whose path yields no date is counted and skipped with every pattern's reason. */
  lemma ParseStepUnmatched(st: ParseState, e: ZipEntry, p: DatePlaceholders, patterns: seq<string>, reasons: seq<Reason>)
    requires CountsAsMarkdown(e)
    requires Extract(ImportZip, p, RepoScan.RelPath(e.name), patterns) == Err(reasons)
    ensures ParseStep(st, e, p, patterns)
      == Ok(ParseState(st.total + 1, st.entries, st.skipped + [SkipDetail(RepoScan.RelPath(e.name), NoPatternMatched(reasons))]))
  {
  }

  /** A counted entry whose path yields a date and whose content reads becomes an entry. */
  lemma {:induction false} ParseStepMatched(st: ParseState, e: ZipEntry, p: DatePlaceholders, patterns: seq<string>, date: string)
    requires CountsAsMarkdown(e) && e.content.Some?
    requires Extract(ImportZip, p, RepoScan.RelPath(e.name), patterns) == Ok(date)
    ensures ParseStep(st, e, p, patterns)
      == Ok(ParseState(st.total + 1, st.entries + [ParsedEntry(RepoScan.RelPath(e.name), date, e.content.value)], st.skipped))
  {
  }

  /**
   * No deduplication: two Markdown files whose paths resolve to the same
   * date both become entries (the repository scan would keep only the first).
   */
  lemma {:induction false} ParseKeepsSameDate(p: DatePlaceholders, patterns: seq<string>, a: ZipEntry, b: ZipEntry, date: string)
    requires CountsAsMarkdown(a) && CountsAsMarkdown(b) && a.content.Some? && b.content.Some?
    requires Extract(ImportZip, p, RepoScan.RelPath(a.name), patterns) == Ok(date)
    requires Extract(ImportZip, p, RepoScan.RelPath(b.name), patterns) == Ok(date)
    ensures var st := ParseFold(p, patterns, [a, b]);
      st.Ok? && |st.value.entries| == 2 && st.value.entries[0].date == date && st.value.entries[1].date == date
  {
    var s0 := ParseState(0, [], []);
    assert [a][..0] == [];
    assert ParseFold(p, patterns, [a]) == ParseStep(s0, a, p, patterns);
    ParseStepMatched(s0, a, p, patterns, date);
    assert [] + [ParsedEntry(RepoScan.RelPath(a.name), date, a.content.value)] == [ParsedEntry(RepoScan.RelPath(a.name), date, a.content.value)];
    var s1 := ParseState(1, [ParsedEntry(RepoScan.RelPath(a.name), date, a.content.value)], []);
    assert ParseFold(p, patterns, [a]) == Ok(s1);
    var ab := [a, b];
    assert ab[..1] == [a] && ab[1] == b;
    assert ParseFold(p, patterns, ab) == ParseStep(s1, b, p, patterns);
    ParseStepMatched(s1, b, p, patterns, date);
  }

  // ---------------------------------------------------------------------------
  // The import loop of import_journal_zip
  // ---------------------------------------------------------------------------

  /** The table after writing entries in order; the writes at positions in `failing` fail and change nothing. */
  function ImportFold(t: Table, entries: seq<ParsedEntry>, ts: int, failing: set<nat>): Table
    decreases |entries|
  {
    if |entries| == 0 then t
    else
      var n := |entries| - 1;
      var before := ImportFold(t, entries[..n], ts, failing);
      if n in failing then before else CreateJournal(before, entries[n].content, entries[n].date, ts).0
  }

  /** The skips the loop appends: one `db insert failed` per failed write, in order. */
  function ImportSkips(entries: seq<ParsedEntry>, failing: set<nat>): (r: seq<SkipDetail>)
    ensures |r| <= |entries|
    ensures forall i :: 0 <= i < |r| ==> r[i].reason == DbInsertFailed
    decreases |entries|
  {
    if |entries| == 0 then []
    else
      var n := |entries| - 1;
      ImportSkips(entries[..n], failing) + (if n in failing then [SkipDetail(entries[n].path, DbInsertFailed)] else [])
  }

  /** The number of successful writes. */
  function ImportedCount(n: nat, failing: set<nat>): nat {
    if n == 0 then 0 else ImportedCount(n - 1, failing) + (if n - 1 in failing then 0 else 1)
  }

  /** Every entry is either imported or skipped. */
  lemma {:induction false} ImportAccounts(entries: seq<ParsedEntry>, failing: set<nat>)
    ensures ImportedCount(|entries|, failing) + |ImportSkips(entries, failing)| == |entries|
    decreases |entries|
  {
    if |entries| > 0 {
      ImportAccounts(entries[..|entries| - 1], failing);
    }
  }

  /** The import keeps the table valid: one journal per date survives any sequence of upserts. */
  lemma {:induction false} ImportKeepsValid(t: Table, entries: seq<ParsedEntry>, ts: int, failing: set<nat>)
    requires Valid(t)
    ensures Valid(ImportFold(t, entries, ts, failing))
    decreases |entries|
  {
    if |entries| > 0 {
      var n := |entries| - 1;
      ImportKeepsValid(t, entries[..n], ts, failing);
      if n !in failing {
        CreateKeepsValid(ImportFold(t, entries[..n], ts, failing), entries[n].content, entries[n].date, ts);
      }
    }
  }

  /** Some row has the date and the content. */
  predicate HasJournal(t: Table, date: string, content: string) {
    exists i :: 0 <= i < |t.rows| && t.rows[i].date == date && t.rows[i].content == content
  }

  /** An upsert for one date leaves the row of another date as it was. */
  lemma {:induction false} CreateKeepsOtherDates(t: Table, content: string, date: string, ts: int, d: string, c: string)
    requires HasJournal(t, d, c) && d != date
    ensures HasJournal(CreateJournal(t, content, date, ts).0, d, c)
  {
    var i :| 0 <= i < |t.rows| && t.rows[i].date == d && t.rows[i].content == c;
    var t' := CreateJournal(t, content, date, ts).0;
    assert t'.rows[i] == t.rows[i];
  }

  /**
   * Later entries overwrite earlier ones of the same date: after the
   * import, the content of a successfully written entry is in the table
   * under its date unless a later successful write used that date.
   */
  lemma {:induction false} ImportLastWriteWins(t: Table, entries: seq<ParsedEntry>, ts: int, failing: set<nat>, k: nat)
    requires Valid(t) && k < |entries| && k !in failing
    requires forall j :: k < j < |entries| && j !in failing ==> entries[j].date != entries[k].date
    ensures HasJournal(ImportFold(t, entries, ts, failing), entries[k].date, entries[k].content)
    decreases |entries|
  {
    var n := |entries| - 1;
    var before := ImportFold(t, entries[..n], ts, failing);
    ImportKeepsValid(t, entries[..n], ts, failing);
    if k == n {
      CreateThenFind(before, entries[k].content, entries[k].date, ts);
    } else {
      assert entries[..n][k] == entries[k];
      ImportLastWriteWins(t, entries[..n], ts, failing, k);
      if n !in failing {
        CreateKeepsOtherDates(before, entries[n].content, entries[n].date, ts, entries[k].date, entries[k].content);
      }
    }
  }

  /** The response of `import_journal_zip`. */
  datatype ImportResp = ImportResp(
    totalMarkdownFiles: nat, matchedFiles: nat, importedCount: nat, skippedCount: nat,
    skippedDetails: seq<SkipDetail>, patterns: seq<string>)

  /** The import over one more entry: its upsert, unless its write fails. */
  lemma ImportFoldNext(t: Table, entries: seq<ParsedEntry>, i: nat, ts: int, failing: set<nat>)
    requires i < |entries|
    ensures ImportFold(t, entries[..i + 1], ts, failing)
      == if i in failing then ImportFold(t, entries[..i], ts, failing)
         else CreateJournal(ImportFold(t, entries[..i], ts, failing), entries[i].content, entries[i].date, ts).0
    ensures ImportSkips(entries[..i + 1], failing)
      == ImportSkips(entries[..i], failing) + (if i in failing then [SkipDetail(entries[i].path, DbInsertFailed)] else [])
  {
    assert entries[..i + 1][..i] == entries[..i];
  }

  /** One `create_journal` call of the import loop; `fails` says whether the database write fails. */
  method TryCreate(store: JournalStore, e: ParsedEntry, ts: int, fails: bool) returns (ok: bool)
    requires store.Invariant()
    modifies store
    ensures store.Invariant() && ok == !fails
    ensures store.State() == if fails then old(store.State()) else CreateJournal(old(store.State()), e.content, e.date, ts).0
  {
    if fails {
      return false;
    }
    var _ := store.Create(e.content, e.date, ts);
    return true;
  }

  /** The import loop: upsert every entry, count successes, record a skip for every failed write. */
  method ImportEntries(store: JournalStore, entries: seq<ParsedEntry>, ts: int, failing: set<nat>)
    returns (imported: nat, skips: seq<SkipDetail>)
    requires store.Invariant()
    modifies store
    ensures store.Invariant()
    ensures store.State() == ImportFold(old(store.State()), entries, ts, failing)
    ensures imported == ImportedCount(|entries|, failing) && skips == ImportSkips(entries, failing)
  {
    ghost var t0 := store.State();
    imported := 0;
    skips := [];
    var i := 0;
    while i < |entries|
      invariant 0 <= i <= |entries|
      invariant store.Invariant()
      invariant store.State() == ImportFold(t0, entries[..i], ts, failing)
      invariant imported + |skips| == i && skips == ImportSkips(entries[..i], failing)
    {
      ImportFoldNext(t0, entries, i, ts, failing);
      var ok := TryCreate(store, entries[i], ts, i in failing);
      if ok {
        imported := imported + 1;
      } else {
        skips := skips + [SkipDetail(entries[i].path, DbInsertFailed)];
      }
      i := i + 1;
    }
    assert entries[..|entries|] == entries;
    ImportAccounts(entries, failing);
  }

  /** The placeholders `import_journal_zip` uses: the stored ones, else the defaults. */
  function ImportPlaceholders(settings: Settings.SettingsState): DatePlaceholders {
    Settings.LoadDatePlaceholders(settings).GetOr(Default())
  }

  /** The fallback pattern list: the stored patterns, else the defaults for the placeholders. */
  function ImportDefaults(settings: Settings.SettingsState): seq<string> {
    match Settings.LoadImportPatterns(settings)
    case Some(v) => v
    case None => Settings.DefaultImportPatternsBy(ImportPlaceholders(settings))
  }

  /** What `import_journal_zip` decides before touching the store: the patterns and the parse result. */
  function ImportPlan(settings: Settings.SettingsState, archive: Option<seq<ZipEntry>>,
                      patternsRaw: Option<string>, json: Option<seq<string>>)
    : Result<(seq<string>, ParseZipResult), string>
  {
    var p := ImportPlaceholders(settings);
    match NormalizeSpec(patternsRaw, ImportDefaults(settings), json, p)
    case Err(e) => Err(e)
    case Ok(ps) =>
      match ParseZipSpec(archive, ps, p)
      case Err(e) => Err(e)
      case Ok(res) => Ok((ps, res))
  }

  /**
   * `import_journal_zip`: patterns and parse errors leave the store alone; otherwise every parsed entry
   * is upserted, and the skips are the parse skips followed by one skip per failed write.
   */
  method ImportJournalZip(store: JournalStore, settings: Settings.SettingsState, archive: Option<seq<ZipEntry>>,
                          patternsRaw: Option<string>, json: Option<seq<string>>, ts: int, failing: set<nat>)
    returns (r: Result<ImportResp, string>)
    requires store.Invariant()
    modifies store
    ensures store.Invariant()
    ensures var plan := ImportPlan(settings, archive, patternsRaw, json);
      (r.Err? <==> plan.Err?)
      && (r.Err? ==> r.error == plan.error && store.State() == old(store.State()))
      && (r.Ok? ==>
            var (ps, res) := plan.value;
            store.State() == ImportFold(old(store.State()), res.entries, ts, failing)
            && r.value.patterns == ps
            && r.value.totalMarkdownFiles == res.totalMarkdownFiles
            && r.value.matchedFiles == res.matchedFiles
            && r.value.importedCount == ImportedCount(|res.entries|, failing)
            && r.value.skippedDetails == res.skippedDetails + ImportSkips(res.entries, failing))
    ensures r.Ok? ==>
      r.value.totalMarkdownFiles == r.value.importedCount + r.value.skippedCount
      && r.value.importedCount <= r.value.matchedFiles <= r.value.totalMarkdownFiles
      && r.value.skippedCount == |r.value.skippedDetails|
      && |r.value.patterns| > 0
  {
    var p := ImportPlaceholders(settings);
    var patterns := NormalizePatterns(patternsRaw, ImportDefaults(settings), json, p);
    if patterns.Err? {
      return Err(patterns.error);
    }
    var parsed := ParseZip(archive, patterns.value, p);
    if parsed.Err? {
      return Err(parsed.error);
    }
    var res := parsed.value;
    ParseCounts(p, patterns.value, archive.value);
    var imported, skips := ImportEntries(store, res.entries, ts, failing);
    ImportAccounts(res.entries, failing);
    var details := res.skippedDetails + skips;
    r := Ok(ImportResp(res.totalMarkdownFiles, res.matchedFiles, imported, |details|, details, patterns.value));
  }
}

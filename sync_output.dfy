/**
 * The output side of the repository sync in repo_sync.rs: the output format,
 * the checks on the output path (relative, no `..`, a `.md` extension under
 * Unix path rules), the Markdown renderers, and `build_output_files`, which
 * writes one file per journal when the path template holds a date token and
 * one aggregate file otherwise.
 */
module SyncOutput {
  import opened Wrappers
  import opened Strings
  import opened Placeholders
  import opened Templates
  import opened Render
  import opened Journals

  // ---------------------------------------------------------------------------
  // Format and template tests
  // ---------------------------------------------------------------------------

  /** `normalize_format`: `md` and `markdown`, in any ASCII case and surrounded by whitespace, mean Markdown. */
  function NormalizeFormat(s: string): (r: Result<string, string>)
    ensures r.Ok? <==> ToAsciiLower(Trim(s)) == "md" || ToAsciiLower(Trim(s)) == "markdown"
    ensures r.Ok? ==> r.value == "markdown"
    ensures r.Err? ==> r.error == "supported: markdown only"
  {
    var v := ToAsciiLower(Trim(s));
    if v == "md" || v == "markdown" then Ok("markdown") else Err("supported: markdown only")
  }

  /** The normalised format is a fixed point of `normalize_format`. */
  lemma NormalizeFormatIdempotent(s: string)
    requires NormalizeFormat(s).Ok?
    ensures NormalizeFormat(NormalizeFormat(s).value) == NormalizeFormat(s)
  {
    TrimNoWs("markdown");
    assert ToAsciiLower("markdown") == "markdown";
  }

  /** `contains_date_placeholder`: the path mentions one of the six date tokens (not timestamp or count). */
  function ContainsDatePlaceholder(path: string, p: DatePlaceholders): (r: bool)
    ensures r <==> exists k :: k in PathKinds() && Contains(path, TokenOf(p, k))
  {
    var r := Contains(path, p.yyyy) || Contains(path, p.mm) || Contains(path, p.m)
      || Contains(path, p.dd) || Contains(path, p.d) || Contains(path, p.date);
    assert r ==> exists k :: k in PathKinds() && Contains(path, TokenOf(p, k)) by {
      if Contains(path, p.yyyy) { assert TokenOf(p, Year) == p.yyyy; }
      else if Contains(path, p.mm) { assert TokenOf(p, Month2) == p.mm; }
      else if Contains(path, p.m) { assert TokenOf(p, Month1) == p.m; }
      else if Contains(path, p.dd) { assert TokenOf(p, Day2) == p.dd; }
      else if Contains(path, p.d) { assert TokenOf(p, Day1) == p.d; }
      else if Contains(path, p.date) { assert TokenOf(p, DateKind) == p.date; }
    }
    r
  }

  /** A path template without date tokens renders to itself for every well-formed journal date. */
  lemma NoDateTokenRendersVerbatim(template: string, date: string, p: DatePlaceholders)
    requires !ContainsDatePlaceholder(template, p) && DateShape(date)
    requires forall k :: |TokenOf(p, k)| > 0
    ensures ResolveOutputPath(template, date, p) == Ok(template)
  {
    var v := DateValues(date);
    ResolveOutputPathChain(template, date, p);
    ReplaceAbsent(template, p.yyyy, v.yyyy);
    ReplaceAbsent(template, p.mm, v.mm);
    ReplaceAbsent(template, p.m, v.m);
    ReplaceAbsent(template, p.dd, v.dd);
    ReplaceAbsent(template, p.d, v.d);
    ReplaceAbsent(template, p.date, v.date);
    assert |TokenOf(p, Year)| > 0 && |TokenOf(p, Month2)| > 0 && |TokenOf(p, Month1)| > 0;
    assert |TokenOf(p, Day2)| > 0 && |TokenOf(p, Day1)| > 0 && |TokenOf(p, DateKind)| > 0;
    assert !Contains(template, TokenOf(p, Year)) && !Contains(template, TokenOf(p, DateKind));
  }

  // ---------------------------------------------------------------------------
  // Paths under Unix rules
  // ---------------------------------------------------------------------------

  /** `Path::is_absolute` on Unix: the path starts at the root. */
  predicate IsAbsolute(path: string) {
    |path| > 0 && path[0] == '/'
  }

  /** Some component of the path is `..` (`Component::ParentDir`). */
  predicate HasParentDir(path: string) {
    ".." in Split(path, '/')
  }

  /**
   * `validate_rel_path`: the trimmed path must be non-empty, relative and
   * free of `..` components; it is returned trimmed.
   */
  function ValidateRelPath(input: string): (r: Result<string, string>)
    ensures r.Ok? <==> |Trim(input)| > 0 && !IsAbsolute(Trim(input)) && !HasParentDir(Trim(input))
    ensures r.Ok? ==> r.value == Trim(input)
    ensures r.Err? ==> r.error == (if |Trim(input)| == 0 then "path is empty"
                                   else if IsAbsolute(Trim(input)) then "absolute path is not allowed"
                                   else "parent dir is not allowed")
  {
    var t := Trim(input);
    if |t| == 0 then Err("path is empty")
    else if IsAbsolute(t) then Err("absolute path is not allowed")
    else if HasParentDir(t) then Err("parent dir is not allowed")
    else Ok(t)
  }

  /** A validated path validates to itself. */
  lemma ValidateRelPathIdempotent(input: string)
    requires ValidateRelPath(input).Ok?
    ensures ValidateRelPath(ValidateRelPath(input).value) == ValidateRelPath(input)
  {
    TrimIdempotent(input);
  }

  /** The components that `Path::components` reports as `Normal` or `ParentDir`: empty and `.` segments drop out. */
  function NamedSegments(segs: seq<string>): (r: seq<string>)
    ensures forall i :: 0 <= i < |r| ==> r[i] in segs && r[i] != "" && r[i] != "."
    decreases |segs|
  {
    if |segs| == 0 then []
    else if segs[0] == "" || segs[0] == "." then NamedSegments(segs[1..])
    else [segs[0]] + NamedSegments(segs[1..])
  }

  /** `Path::file_name`: the last component, unless it is `..` or there is none. */
  function FileName(path: string): Option<string> {
    var n := NamedSegments(Split(path, '/'));
    if |n| == 0 || n[|n| - 1] == ".." then None else Some(n[|n| - 1])
  }

  /** The index of the last `.` of `s`. */
  function LastDot(s: string): (r: Option<nat>)
    ensures r.Some? ==> r.value < |s| && s[r.value] == '.' && '.' !in s[r.value + 1..]
    ensures r.None? ==> '.' !in s
    decreases |s|
  {
    if |s| == 0 then None
    else if s[|s| - 1] == '.' then Some(|s| - 1)
    else
      var r := LastDot(s[..|s| - 1]);
      assert s == s[..|s| - 1] + [s[|s| - 1]];
      if r.Some? then
        assert s[r.value + 1..] == s[..|s| - 1][r.value + 1..] + [s[|s| - 1]];
        r
      else r
  }

  /** `Path::extension` of a file name: the text after the last `.`, unless the name is `..` or the dot is its first character. */
  function Extension(name: string): Option<string> {
    if name == ".." then None
    else match LastDot(name)
      case None => None
      case Some(i) => if i == 0 then None else Some(name[i + 1..])
  }

  /** The extension compares equal to `md` ignoring ASCII case. */
  predicate HasMdExtension(path: string) {
    var f := FileName(path);
    f.Some? && Extension(f.value).Some? && ToAsciiLower(Extension(f.value).value) == "md"
  }

  /** `ensure_md_path`. */
  function EnsureMdPath(path: string): (r: Result<(), string>)
    ensures r.Ok? <==> HasMdExtension(path)
    ensures r.Err? ==> r.error == "output path must end with .md: " + path
  {
    if HasMdExtension(path) then Ok(()) else Err("output path must end with .md: " + path)
  }

  lemma LowerIsM(c: char)
    requires ToAsciiLowerChar(c) == 'm' || ToAsciiLowerChar(c) == 'd'
    ensures c != '.'
  {
  }

  /**
   * A file name has the `md` extension exactly when it is longer than three
   * characters and ends in `.md` ignoring ASCII case: `.md` alone is a
   * hidden file without extension.
   */
  lemma MdExtensionIff(name: string)
    ensures (Extension(name).Some? && ToAsciiLower(Extension(name).value) == "md")
        <==> |name| >= 4 && ToAsciiLower(name[|name| - 3..]) == ".md"
  {
    var n := |name|;
    if |name| >= 4 && ToAsciiLower(name[n - 3..]) == ".md" {
      var tail := name[n - 3..];
      assert ToAsciiLowerChar(tail[0]) == '.' && ToAsciiLowerChar(tail[1]) == 'm' && ToAsciiLowerChar(tail[2]) == 'd';
      LowerIsM(name[n - 2]);
      LowerIsM(name[n - 1]);
      assert name[n - 3] == '.';
      assert name[..n - 1][..n - 2] == name[..n - 2];
      assert LastDot(name) == LastDot(name[..n - 1]) == LastDot(name[..n - 2]) == Some(n - 3);
      assert name != "..";
      assert ToAsciiLower(name[n - 2..]) == "md";
    }
    if Extension(name).Some? && ToAsciiLower(Extension(name).value) == "md" {
      var i := LastDot(name).value;
      assert |name[i + 1..]| == 2 && n == i + 3;
      assert ToAsciiLower(name[n - 3..]) == [ToAsciiLowerChar('.')] + ToAsciiLower(name[i + 1..]);
    }
  }

  // ---------------------------------------------------------------------------
  // Markdown rendering
  // ---------------------------------------------------------------------------

  const Header: string := "# DayLog Journals\n\n"

  /** The part of the aggregate document that one journal contributes. */
  function Section(j: Journal): string {
    "## " + j.date + "\n\n" + j.content + "\n\n---\n\n"
  }

  /** The sections of the journals, in order. */
  function Sections(js: seq<Journal>): string
    decreases |js|
  {
    if |js| == 0 then [] else Sections(js[..|js| - 1]) + Section(js[|js| - 1])
  }

  lemma {:induction false} SectionsAppend(a: seq<Journal>, b: seq<Journal>)
    ensures Sections(a + b) == Sections(a) + Sections(b)
    decreases |b|
  {
    if |b| == 0 {
      assert a + b == a;
    } else {
      assert (a + b)[..|a + b| - 1] == a + b[..|b| - 1];
      SectionsAppend(a, b[..|b| - 1]);
    }
  }

  /** The section of a journal in the aggregate document is its single-file document one heading level down, plus a rule. */
  lemma SectionOfSingle(j: Journal)
    ensures Section(j) == "#" + RenderSingle(j) + "\n---\n\n"
  {
  }

  /**
   * `render_journals`: the `markdown` format gives the title followed by one
   * section per journal, in order; any other format is refused.
   */
  method RenderJournals(format: string, journals: seq<Journal>) returns (r: Result<string, string>)
    ensures format == "markdown" ==> r == Ok(Header + Sections(journals))
    ensures format != "markdown" ==> r == Err("unsupported format")
  {
    if format != "markdown" {
      return Err("unsupported format");
    }
    var out := Header;
    var i := 0;
    while i < |journals|
      invariant 0 <= i <= |journals|
      invariant out == Header + Sections(journals[..i])
    {
      var j := journals[i];
      assert journals[..i + 1][..i] == journals[..i];
      out := out + ("## " + j.date + "\n\n");
      out := out + j.content;
      out := out + "\n\n---\n\n";
      i := i + 1;
    }
    assert journals[..i] == journals;
    r := Ok(out);
  }

  /** The aggregate document of a list of journals followed by more is the first document with the extra sections appended. */
  lemma DocumentExtends(a: seq<Journal>, b: seq<Journal>)
    ensures Header + Sections(a + b) == (Header + Sections(a)) + Sections(b)
  {
    SectionsAppend(a, b);
  }

  /** `render_single_markdown`: a level-one heading with the date, a blank line, the content and a newline. */
  function RenderSingle(j: Journal): (r: string)
    ensures |r| == |j.date| + |j.content| + 5
    ensures StartsWith(r, "# " + j.date + "\n\n") && EndsWith(r, j.content + "\n")
    ensures r[|j.date| + 4..|r| - 1] == j.content
  {
    "# " + j.date + "\n\n" + j.content + "\n"
  }

  // ---------------------------------------------------------------------------
  // build_output_files
  // ---------------------------------------------------------------------------

  /** A file to write into the working tree: a path relative to the repository root and its contents. */
  datatype OutputFile = OutputFile(relPath: string, content: string)

  /** A path that `build_output_files` may write: validated and with a `.md` extension. */
  predicate SafeOutputPath(path: string) {
    |path| > 0 && Trim(path) == path && !IsAbsolute(path) && !HasParentDir(path) && HasMdExtension(path)
  }

  /** The checks shared by both modes: validate the path (prefixing its error) and demand `.md`. */
  function CheckedPath(path: string): (r: Result<string, string>)
    ensures r.Ok? ==> SafeOutputPath(r.value) && r.value == Trim(path)
    ensures r.Ok? <==> ValidateRelPath(path).Ok? && HasMdExtension(Trim(path))
  {
    match ValidateRelPath(path)
    case Err(e) => Err("invalid output_path: " + e)
    case Ok(rel) =>
      TrimIdempotent(path);
      match EnsureMdPath(rel)
      case Err(e) => Err(e)
      case Ok(_) => Ok(rel)
  }

  /** The file of one journal in per-entry mode. */
  function EntryFile(template: string, j: Journal, p: DatePlaceholders): Result<OutputFile, string> {
    match ResolveOutputPath(template, j.date, p)
    case Err(e) => Err(e)
    case Ok(path) =>
      match CheckedPath(path)
      case Err(e) => Err(e)
      case Ok(rel) => Ok(OutputFile(rel, RenderSingle(j)))
  }

  /** The files of the journals in per-entry mode, or the first journal's error. */
  function EntryFiles(template: string, js: seq<Journal>, p: DatePlaceholders): Result<seq<OutputFile>, string>
    decreases |js|
  {
    if |js| == 0 then Ok([])
    else match EntryFile(template, js[0], p)
      case Err(e) => Err(e)
      case Ok(f) =>
        match EntryFiles(template, js[1..], p)
        case Err(e) => Err(e)
        case Ok(fs) => Ok([f] + fs)
  }

  function PrependFiles(fs: seq<OutputFile>, r: Result<seq<OutputFile>, string>): Result<seq<OutputFile>, string> {
    match r
    case Err(e) => Err(e)
    case Ok(rest) => Ok(fs + rest)
  }

  /** Per-entry mode applies: Markdown output and a path template with a date token. */
  predicate PerEntryMode(template: string, format: string, p: DatePlaceholders) {
    format == "markdown" && ContainsDatePlaceholder(template, p)
  }

  /** What `build_output_files` computes. */
  function BuildOutputFiles(template: string, format: string, js: seq<Journal>, p: DatePlaceholders)
    : Result<seq<OutputFile>, string>
  {
    if PerEntryMode(template, format, p) then
      match EntryFiles(template, js, p)
      case Err(e) => Err(e)
      case Ok(fs) => if |fs| == 0 then Err("no journals to sync for markdown template output") else Ok(fs)
    else
      match CheckedPath(template)
      case Err(e) => Err(e)
      case Ok(rel) =>
        if format != "markdown" then Err("unsupported format")
        else Ok([OutputFile(rel, Header + Sections(js))])
  }

  /** The loop of `build_output_files` in per-entry mode: resolve, validate and render each journal in turn, stopping at the first error. */
  method EntryFilesLoop(template: string, js: seq<Journal>, p: DatePlaceholders)
    returns (r: Result<seq<OutputFile>, string>)
    ensures r == EntryFiles(template, js, p)
  {
    var files: seq<OutputFile> := [];
    var i := 0;
    assert js[0..] == js;
    PrependNothing(EntryFiles(template, js, p));
    while i < |js|
      invariant 0 <= i <= |js|
      invariant PrependFiles(files, EntryFiles(template, js[i..], p)) == EntryFiles(template, js, p)
    {
      var f := EntryFile(template, js[i], p);
      EntryFilesStep(template, js, i, p);
      if f.Err? {
        return Err(f.error);
      }
      PrependTwice(files, [f.value], EntryFiles(template, js[i + 1..], p));
      files := files + [f.value];
      i := i + 1;
    }
    assert js[i..] == [];
    assert files + [] == files;
    r := Ok(files);
  }

  lemma PrependNothing(r: Result<seq<OutputFile>, string>)
    ensures PrependFiles([], r) == r
  {
    if r.Ok? {
      assert [] + r.value == r.value;
    }
  }

  lemma PrependTwice(a: seq<OutputFile>, b: seq<OutputFile>, r: Result<seq<OutputFile>, string>)
    ensures PrependFiles(a, PrependFiles(b, r)) == PrependFiles(a + b, r)
  {
    if r.Ok? {
      assert a + (b + r.value) == (a + b) + r.value;
    }
  }

  lemma EntryFilesStep(template: string, js: seq<Journal>, i: nat, p: DatePlaceholders)
    requires i < |js|
    ensures EntryFiles(template, js[i..], p)
         == match EntryFile(template, js[i], p)
            case Err(e) => Err(e)
            case Ok(f) => PrependFiles([f], EntryFiles(template, js[i + 1..], p))
  {
    assert js[i..][1..] == js[i + 1..];
  }

  /** `build_output_files`: per-entry files, or one aggregate file at the validated template path. */
  method BuildOutputFilesLoop(template: string, format: string, js: seq<Journal>, p: DatePlaceholders)
    returns (r: Result<seq<OutputFile>, string>)
    ensures r == BuildOutputFiles(template, format, js, p)
  {
    if format == "markdown" && ContainsDatePlaceholder(template, p) {
      var files := EntryFilesLoop(template, js, p);
      if files.Err? {
        return Err(files.error);
      }
      if |files.value| == 0 {
        return Err("no journals to sync for markdown template output");
      }
      return Ok(files.value);
    }
    var rel := CheckedPath(template);
    if rel.Err? {
      return Err(rel.error);
    }
    var content := RenderJournals(format, js);
    if content.Err? {
      return Err(content.error);
    }
    r := Ok([OutputFile(rel.value, content.value)]);
  }

  /** One journal's file sits at its trimmed resolved path and holds its single-file document. */
  lemma EntryFileShape(template: string, j: Journal, p: DatePlaceholders)
    requires EntryFile(template, j, p).Ok?
    ensures ResolveOutputPath(template, j.date, p).Ok?
    ensures var f := EntryFile(template, j, p).value;
      f == OutputFile(Trim(ResolveOutputPath(template, j.date, p).value), RenderSingle(j)) && SafeOutputPath(f.relPath)
  {
  }

  lemma {:induction false} EntryFilesShape(template: string, js: seq<Journal>, p: DatePlaceholders)
    requires EntryFiles(template, js, p).Ok?
    ensures var fs := EntryFiles(template, js, p).value;
      |fs| == |js|
      && forall i :: 0 <= i < |js| ==>
           ResolveOutputPath(template, js[i].date, p).Ok?
           && fs[i] == OutputFile(Trim(ResolveOutputPath(template, js[i].date, p).value), RenderSingle(js[i]))
           && SafeOutputPath(fs[i].relPath)
    decreases |js|
  {
    if |js| > 0 {
      EntryFileShape(template, js[0], p);
      EntryFilesShape(template, js[1..], p);
      var fs := EntryFiles(template, js, p).value;
      var rest := EntryFiles(template, js[1..], p).value;
      assert fs == [EntryFile(template, js[0], p).value] + rest;
      assert fs[1..] == rest;
      forall i | 1 <= i < |js|
        ensures ResolveOutputPath(template, js[i].date, p).Ok?
        ensures fs[i] == OutputFile(Trim(ResolveOutputPath(template, js[i].date, p).value), RenderSingle(js[i]))
        ensures SafeOutputPath(fs[i].relPath)
      {
        assert js[i] == js[1..][i - 1];
        assert fs[i] == rest[i - 1];
      }
    }
  }

  /**
   * Per-entry mode yields exactly one file per journal, in journal order,
   * each at its own resolved path and holding that journal's document.
   */
  lemma PerEntryFiles(template: string, format: string, js: seq<Journal>, p: DatePlaceholders)
    requires PerEntryMode(template, format, p) && BuildOutputFiles(template, format, js, p).Ok?
    ensures var fs := BuildOutputFiles(template, format, js, p).value;
      |fs| == |js| >= 1
      && forall i :: 0 <= i < |js| ==>
           ResolveOutputPath(template, js[i].date, p).Ok?
           && fs[i] == OutputFile(Trim(ResolveOutputPath(template, js[i].date, p).value), RenderSingle(js[i]))
  {
    EntryFilesShape(template, js, p);
  }

  /** Per-entry mode refuses an empty journal list. */
  lemma PerEntryNeedsJournals(template: string, format: string, p: DatePlaceholders)
    requires PerEntryMode(template, format, p)
    ensures BuildOutputFiles(template, format, [], p) == Err("no journals to sync for markdown template output")
  {
  }

  /** Otherwise there is exactly one file: the whole aggregate document at the validated template path. */
  lemma AggregateFile(template: string, format: string, js: seq<Journal>, p: DatePlaceholders)
    requires !PerEntryMode(template, format, p) && BuildOutputFiles(template, format, js, p).Ok?
    ensures BuildOutputFiles(template, format, js, p) == Ok([OutputFile(Trim(template), Header + Sections(js))])
  {
  }

  /** Every file `build_output_files` produces has a non-blank, relative, `..`-free path with a `.md` extension. */
  lemma OutputPathsSafe(template: string, format: string, js: seq<Journal>, p: DatePlaceholders)
    requires BuildOutputFiles(template, format, js, p).Ok?
    ensures forall f :: f in BuildOutputFiles(template, format, js, p).value ==> SafeOutputPath(f.relPath)
  {
    if PerEntryMode(template, format, p) {
      EntryFilesShape(template, js, p);
    }
  }
}

/**
 * The startup import of repo_sync.rs: which Markdown files of the cloned
 * repository are considered (`collect_markdown_files`), how their paths
 * are turned into journal dates with duplicate dates rejected
 * (`scan_repo_markdown_entries`), and the checks `startup_sync_to_db`
 * makes before it touches the repository (pattern fallback and
 * `validate_startup_import_pattern`). The directory walk and the file
 * reads are inputs: the files of the working tree arrive as a list of
 * relative paths with their contents.
 */
module RepoScan {
  import opened Wrappers
  import opened Strings
  import opened Placeholders
  import opened Matcher
  import opened SyncOutput
  import opened Config
  import opened SyncAuth

  // ---------------------------------------------------------------------------
  // Which files are scanned
  // ---------------------------------------------------------------------------

  /** Some directory on the way to the file (not the file itself) is named `.git`. */
  predicate UnderGitDir(rel: string) {
    var segs := Split(rel, '/');
    exists i :: 0 <= i < |segs| - 1 && segs[i] == ".git"
  }

  /** `collect_markdown_files` keeps a regular file outside `.git` whose extension is `md` in any ASCII case. */
  predicate Collected(rel: string) {
    !UnderGitDir(rel) && HasMdExtension(rel)
  }

  /** The walk's files, in walk order, without the ones the walk skips. */
  function CollectMarkdownFiles(walk: seq<string>): (r: seq<string>)
    ensures forall x :: x in r <==> x in walk && Collected(x)
    ensures |r| <= |walk|
    decreases |walk|
  {
    if |walk| == 0 then []
    else
      var rest := CollectMarkdownFiles(walk[1..]);
      assert forall x :: x in walk <==> x == walk[0] || x in walk[1..];
      if Collected(walk[0]) then [walk[0]] + rest else rest
  }

  // ---------------------------------------------------------------------------
  // The scan
  // ---------------------------------------------------------------------------

  /** A Markdown file of the working tree: its path relative to the root and its contents (`None` when reading fails). */
  datatype RepoFile = RepoFile(path: string, content: Option<string>)

  /** `StartupImportEntry`. */
  datatype ScanEntry = ScanEntry(path: string, date: string, content: string)

  /** `read markdown failed: <path> (...)`, the one error of the scan. */
  datatype ScanError = ReadFailed(path: string)

  /** `StartupImportParseResult`. */
  datatype ScanReport = ScanReport(totalMarkdownFiles: nat, matchedFiles: nat, skippedCount: nat, entries: seq<ScanEntry>)

  /** The loop's state: the entries kept, the files skipped, and the dates seen. */
  datatype ScanState = ScanState(entries: seq<ScanEntry>, skipped: nat, dates: set<string>)

  /** `to_string_lossy().replace('\\', "/")`. */
  function RelPath(path: string): (r: string)
    ensures |r| == |path| && '\\' !in r
  {
    ReplaceOneChar(path, '\\', '/');
    ReplaceAll(path, "\\", "/")
  }

  /** The date the patterns give a file, or `None` when no pattern matches. */
  function FileDate(p: DatePlaceholders, patterns: seq<string>, f: RepoFile): Option<string> {
    match Extract(RepoSync, p, RelPath(f.path), patterns)
    case Ok(d) => Some(d)
    case Err(_) => None
  }

  /** One iteration: skip an unmatched file or an already seen date, otherwise read the file and keep it. */
  function ScanStep(st: ScanState, f: RepoFile, date: Option<string>): Result<ScanState, ScanError> {
    if date.None? || date.value in st.dates then Ok(st.(skipped := st.skipped + 1))
    else if f.content.None? then Err(ReadFailed(RelPath(f.path)))
    else Ok(ScanState(st.entries + [ScanEntry(RelPath(f.path), date.value, f.content.value)],
                      st.skipped, st.dates + {date.value}))
  }

  /** The date each file gets, in order. */
  function FileDates(p: DatePlaceholders, patterns: seq<string>, files: seq<RepoFile>): (r: seq<Option<string>>)
    ensures |r| == |files|
    ensures forall k :: 0 <= k < |files| ==> r[k] == FileDate(p, patterns, files[k])
    decreases |files|
  {
    if |files| == 0 then []
    else FileDates(p, patterns, files[..|files| - 1]) + [FileDate(p, patterns, files[|files| - 1])]
  }

  /** The state after the loop has visited `files`, in order, the k-th file having date `ds[k]`. */
  function ScanDated(files: seq<RepoFile>, ds: seq<Option<string>>): Result<ScanState, ScanError>
    requires |ds| == |files|
    decreases |files|
  {
    if |files| == 0 then Ok(ScanState([], 0, {}))
    else
      var n := |files| - 1;
      match ScanDated(files[..n], ds[..n])
      case Err(e) => Err(e)
      case Ok(st) => ScanStep(st, files[n], ds[n])
  }

  /** The scan with the dates the patterns give. */
  function Scan(p: DatePlaceholders, patterns: seq<string>, files: seq<RepoFile>): Result<ScanState, ScanError> {
    ScanDated(files, FileDates(p, patterns, files))
  }

  function Report(st: ScanState): ScanReport {
    ScanReport(|st.entries| + st.skipped, |st.entries|, st.skipped, st.entries)
  }

  /** `scan_repo_markdown_entries` over the collected files. */
  method ScanRepoMarkdownEntries(p: DatePlaceholders, patterns: seq<string>, files: seq<RepoFile>)
    returns (r: Result<ScanReport, ScanError>)
    ensures Scan(p, patterns, files).Ok? ==> r == Ok(Report(Scan(p, patterns, files).value))
    ensures Scan(p, patterns, files).Err? ==> r == Err(Scan(p, patterns, files).error)
  {
    ghost var ds := FileDates(p, patterns, files);
    var st := ScanState([], 0, {});
    var i := 0;
    while i < |files|
      invariant 0 <= i <= |files|
      invariant ScanDated(files[..i], ds[..i]) == Ok(st)
    {
      var next := ScanFile(p, patterns, st, files[i]);
      ScanDatedNext(files, ds, i);
      if next.Err? {
        ScanErrorStops(files, ds, i + 1);
        return Err(next.error);
      }
      st := next.value;
      i := i + 1;
    }
    assert files[..i] == files && ds[..i] == ds;
    r := Ok(ScanReport(|st.entries| + st.skipped, |st.entries|, st.skipped, st.entries));
  }

  /** One iteration of the loop: extract the date, skip the file or read and keep it. */
  method ScanFile(p: DatePlaceholders, patterns: seq<string>, st: ScanState, f: RepoFile)
    returns (r: Result<ScanState, ScanError>)
    ensures r == ScanStep(st, f, FileDate(p, patterns, f))
  {
    var rel := RelPath(f.path);
    var found := ExtractDateFromPath(RepoSync, p, rel, patterns);
    if found.Err? || found.value in st.dates {
      return Ok(st.(skipped := st.skipped + 1));
    }
    if f.content.None? {
      return Err(ReadFailed(rel));
    }
    r := Ok(ScanState(st.entries + [ScanEntry(rel, found.value, f.content.value)], st.skipped, st.dates + {found.value}));
  }

  /** The scan of one more file is one more step. */
  lemma ScanDatedNext(files: seq<RepoFile>, ds: seq<Option<string>>, i: nat)
    requires |ds| == |files| && i < |files| && ScanDated(files[..i], ds[..i]).Ok?
    ensures ScanDated(files[..i + 1], ds[..i + 1])
      == ScanStep(ScanDated(files[..i], ds[..i]).value, files[i], ds[i])
  {
    assert files[..i + 1][..i] == files[..i] && ds[..i + 1][..i] == ds[..i];
  }

  /** Once a prefix of the files fails, the scan fails with that error. */
  lemma {:induction false} ScanErrorStops(files: seq<RepoFile>, ds: seq<Option<string>>, i: nat)
    requires |ds| == |files| && i <= |files| && ScanDated(files[..i], ds[..i]).Err?
    ensures ScanDated(files, ds) == ScanDated(files[..i], ds[..i])
    decreases |files|
  {
    if i == |files| {
      assert files[..i] == files && ds[..i] == ds;
    } else {
      var n := |files| - 1;
      assert files[..n][..i] == files[..i] && ds[..n][..i] == ds[..i];
      ScanErrorStops(files[..n], ds[..n], i);
    }
  }

  /** The dates held by a list of entries. */
  function EntryDates(es: seq<ScanEntry>): set<string> {
    set n | 0 <= n < |es| :: es[n].date
  }

  /** `k` is the first index whose file has date `date`. */
  predicate FirstOfDate(ds: seq<Option<string>>, k: nat, date: string) {
    k < |ds| && ds[k] == Some(date)
    && forall j :: 0 <= j < k ==> ds[j] != Some(date)
  }

  /** Every file is counted once: as an entry or as a skip. */
  lemma {:induction false} ScanCounts(files: seq<RepoFile>, ds: seq<Option<string>>)
    requires |ds| == |files| && ScanDated(files, ds).Ok?
    ensures var st := ScanDated(files, ds).value; |st.entries| + st.skipped == |files|
    decreases |files|
  {
    if |files| > 0 {
      ScanCounts(files[..|files| - 1], ds[..|files| - 1]);
    }
  }

  /** The seen dates are the entries' dates, and no two entries share one. */
  lemma {:induction false} ScanDatesDistinct(files: seq<RepoFile>, ds: seq<Option<string>>)
    requires |ds| == |files| && ScanDated(files, ds).Ok?
    ensures var st := ScanDated(files, ds).value;
      st.dates == EntryDates(st.entries)
      && forall a, b :: 0 <= a < b < |st.entries| ==> st.entries[a].date != st.entries[b].date
    decreases |files|
  {
    if |files| > 0 {
      var n := |files| - 1;
      ScanDatesDistinct(files[..n], ds[..n]);
      var st := ScanDated(files[..n], ds[..n]).value;
      var d := ds[n];
      if d.Some? && d.value !in st.dates {
        var es := st.entries + [ScanEntry(RelPath(files[n].path), d.value, files[n].content.value)];
        assert EntryDates(es) == EntryDates(st.entries) + {d.value} by {
          forall x | x in EntryDates(es) ensures x in EntryDates(st.entries) + {d.value} {
            var m :| 0 <= m < |es| && es[m].date == x;
            if m < |st.entries| { assert es[m] == st.entries[m]; }
          }
          forall x | x in EntryDates(st.entries) ensures x in EntryDates(es) {
            var m :| 0 <= m < |st.entries| && st.entries[m].date == x;
            assert es[m] == st.entries[m];
          }
          assert es[|st.entries|].date == d.value;
        }
        forall a, b | 0 <= a < b < |es| ensures es[a].date != es[b].date {
          assert es[a] == st.entries[a];
          if b == |st.entries| {
            assert st.entries[a].date in EntryDates(st.entries);
          } else {
            assert es[b] == st.entries[b];
          }
        }
      }
    }
  }

  /** Every entry comes from some file: its normalised path, that file's date, and the file's contents. */
  lemma {:induction false} ScanEntriesFromFiles(files: seq<RepoFile>, ds: seq<Option<string>>)
    requires |ds| == |files| && ScanDated(files, ds).Ok?
    ensures var es := ScanDated(files, ds).value.entries;
      forall m :: 0 <= m < |es| ==> exists k :: (0 <= k < |files| && ds[k] == Some(es[m].date)
        && es[m].path == RelPath(files[k].path) && files[k].content == Some(es[m].content))
    decreases |files|
  {
    if |files| > 0 {
      var n := |files| - 1;
      ScanEntriesFromFiles(files[..n], ds[..n]);
      var st := ScanDated(files[..n], ds[..n]).value;
      var es := ScanDated(files, ds).value.entries;
      forall m | 0 <= m < |es| ensures exists k :: (0 <= k < |files| && ds[k] == Some(es[m].date)
        && es[m].path == RelPath(files[k].path) && files[k].content == Some(es[m].content))
      {
        if m < |st.entries| {
          assert es[m] == st.entries[m];
          var k :| 0 <= k < n && ds[..n][k] == Some(es[m].date)
            && es[m].path == RelPath(files[..n][k].path) && files[..n][k].content == Some(es[m].content);
          assert files[..n][k] == files[k] && ds[..n][k] == ds[k];
        } else {
          assert ds[n] == Some(es[m].date);
        }
      }
    }
  }

  /** Every date some file has was seen. */
  lemma {:induction false} ScanSeesAllDates(files: seq<RepoFile>, ds: seq<Option<string>>)
    requires |ds| == |files| && ScanDated(files, ds).Ok?
    ensures forall k :: 0 <= k < |files| && ds[k].Some? ==> ds[k].value in ScanDated(files, ds).value.dates
    decreases |files|
  {
    if |files| > 0 {
      var n := |files| - 1;
      ScanSeesAllDates(files[..n], ds[..n]);
      var before := ScanDated(files[..n], ds[..n]).value.dates;
      assert before <= ScanDated(files, ds).value.dates;
      forall k | 0 <= k < n && ds[k].Some? ensures ds[k].value in before {
        assert ds[..n][k] == ds[k];
      }
    }
  }

  /**
   * The first file to have a date is the one kept for it: the entries hold
   * that file's path and contents under that date (and, by
   * `ScanDatesDistinct`, no other entry has the date).
   */
  lemma {:induction false} ScanFirstWins(files: seq<RepoFile>, ds: seq<Option<string>>, k: nat, date: string)
    requires |ds| == |files| && ScanDated(files, ds).Ok? && FirstOfDate(ds, k, date)
    ensures files[k].content.Some?
    ensures ScanEntry(RelPath(files[k].path), date, files[k].content.value) in ScanDated(files, ds).value.entries
    decreases |files|
  {
    var n := |files| - 1;
    var st := ScanDated(files[..n], ds[..n]).value;
    if k < n {
      assert FirstOfDate(ds[..n], k, date) by {
        assert ds[..n][k] == ds[k];
        forall j | 0 <= j < k ensures ds[..n][j] != Some(date) {
          assert ds[..n][j] == ds[j];
        }
      }
      ScanFirstWins(files[..n], ds[..n], k, date);
    } else {
      ScanDatesDistinct(files[..n], ds[..n]);
      ScanEntriesFromFiles(files[..n], ds[..n]);
      forall m | 0 <= m < |st.entries| ensures st.entries[m].date != date {
        var j :| 0 <= j < n && ds[..n][j] == Some(st.entries[m].date);
        assert ds[..n][j] == ds[j];
      }
      assert date !in st.dates;
    }
  }

  /**
   * For the dates the patterns give: the first file whose path gives a
   * date is kept under it, and every date any file gives was seen.
   */
  lemma FirstMatchingFileWins(p: DatePlaceholders, patterns: seq<string>, files: seq<RepoFile>, k: nat, date: string)
    requires Scan(p, patterns, files).Ok? && k < |files| && FileDate(p, patterns, files[k]) == Some(date)
    requires forall j :: 0 <= j < k ==> FileDate(p, patterns, files[j]) != Some(date)
    ensures files[k].content.Some?
    ensures ScanEntry(RelPath(files[k].path), date, files[k].content.value) in Scan(p, patterns, files).value.entries
  {
    var ds := FileDates(p, patterns, files);
    ScanFirstWins(files, ds, k, date);
  }

  /** The report's counts: every file is counted, and matched plus skipped is the total. */
  lemma ScanReportCounts(p: DatePlaceholders, patterns: seq<string>, files: seq<RepoFile>)
    requires Scan(p, patterns, files).Ok?
    ensures var r := Report(Scan(p, patterns, files).value);
      r.totalMarkdownFiles == |files| == r.matchedFiles + r.skippedCount && r.matchedFiles == |r.entries|
  {
    ScanCounts(files, FileDates(p, patterns, files));
  }

  // ---------------------------------------------------------------------------
  // Startup checks
  // ---------------------------------------------------------------------------

  /** The configured import patterns, trimmed and without blanks; the output path when none remain. */
  function StartupPatterns(importPatterns: seq<string>, outputPath: string): (r: seq<string>)
    ensures |r| >= 1
    ensures (exists i :: 0 <= i < |importPatterns| && !IsBlank(importPatterns[i])) ==> r == TrimNonBlank(importPatterns)
    ensures (forall i :: 0 <= i < |importPatterns| ==> IsBlank(importPatterns[i])) ==> r == [outputPath]
  {
    var ps := TrimNonBlank(importPatterns);
    if |ps| == 0 then [outputPath] else ps
  }

  /** The pattern names a year, a month and a day token, or the date token. */
  predicate HasDateTokens(pattern: string, p: DatePlaceholders) {
    (Contains(pattern, p.yyyy) && (Contains(pattern, p.mm) || Contains(pattern, p.m))
      && (Contains(pattern, p.dd) || Contains(pattern, p.d)))
    || Contains(pattern, p.date)
  }

  /** `validate_startup_import_pattern`. */
  function ValidateStartupImportPattern(pattern: string, p: DatePlaceholders): (r: Result<(), string>)
    ensures r.Ok? <==> HasDateTokens(pattern, p)
    ensures r.Err? ==> r.error == PatternError(pattern, p)
  {
    var hasYmd := Contains(pattern, p.yyyy) && (Contains(pattern, p.mm) || Contains(pattern, p.m))
      && (Contains(pattern, p.dd) || Contains(pattern, p.d));
    if !hasYmd && !Contains(pattern, p.date) then Err(PatternError(pattern, p)) else Ok(())
  }

  /** The message naming the pattern and the accepted token combinations. */
  function PatternError(pattern: string, p: DatePlaceholders): string {
    "invalid import pattern '" + pattern + "' , required placeholders: "
      + p.yyyy + "+" + p.mm + "|" + p.m + "+" + p.dd + "|" + p.d + " or " + p.date
  }

  /** The first pattern that fails validation, if any. */
  function FirstInvalidPattern(patterns: seq<string>, p: DatePlaceholders): (r: Option<string>)
    ensures r.None? <==> forall i :: 0 <= i < |patterns| ==> HasDateTokens(patterns[i], p)
    ensures r.Some? ==> r.value in patterns && !HasDateTokens(r.value, p)
    decreases |patterns|
  {
    if |patterns| == 0 then None
    else if !HasDateTokens(patterns[0], p) then Some(patterns[0])
    else
      assert forall i :: 1 <= i < |patterns| ==> patterns[i] == patterns[1..][i - 1];
      FirstInvalidPattern(patterns[1..], p)
  }

  /** What `startup_sync_to_db` decides before any repository work. */
  datatype StartupPlan =
    | SkipDisabled
    | SkipNoRepo
    | Import(mode: AuthMode, patterns: seq<string>)

  /**
   * The checks of `startup_sync_to_db` in order: disabled sync and a blank
   * repository URL skip the import, then authentication is resolved and
   * validated, and every import pattern must name date tokens of the
   * default placeholders.
   */
  function StartupPlanOf(cfg: SyncConfig, home: Option<string>, existing: set<string>): Result<StartupPlan, string> {
    if !cfg.enabled then Ok(SkipDisabled)
    else if IsBlank(cfg.repoUrl) then Ok(SkipNoRepo)
    else match CheckAuth(cfg, home, existing)
      case Err(e) => Err(e)
      case Ok(mode) =>
        var patterns := StartupPatterns(cfg.importPatterns, cfg.outputPath);
        match FirstInvalidPattern(patterns, Default())
        case Some(bad) => Err(ValidateStartupImportPattern(bad, Default()).error)
        case None => Ok(Import(mode, patterns))
  }

  /** An import goes ahead only for an enabled sync with a repository, working credentials and valid patterns. */
  lemma StartupImportChecked(cfg: SyncConfig, home: Option<string>, existing: set<string>)
    requires StartupPlanOf(cfg, home, existing).Ok? && StartupPlanOf(cfg, home, existing).value.Import?
    ensures var plan := StartupPlanOf(cfg, home, existing).value;
      cfg.enabled && !IsBlank(cfg.repoUrl)
      && CheckAuth(cfg, home, existing) == Ok(plan.mode)
      && |plan.patterns| >= 1
      && forall i :: 0 <= i < |plan.patterns| ==> ValidateStartupImportPattern(plan.patterns[i], Default()).Ok?
  {
  }

  /** With no usable configured pattern, the default output path serves as the import pattern, and it is valid. */
  lemma DefaultOutputPathIsValidPattern()
    ensures ValidateStartupImportPattern(DefaultOutputPath, Default()).Ok?
    ensures StartupPatterns([], DefaultOutputPath) == [DefaultOutputPath]
  {
    DefaultPathHasYear();
    DefaultPathHasMonth();
    DefaultPathHasDay();
  }

  lemma DefaultPathHasYear()
    ensures Contains(DefaultOutputPath, "{yyyy}")
  {
    ContainsMiddle("journals/", "{yyyy}", "/{MM}-{dd}/{d}.md");
    assert "journals/" + "{yyyy}" + "/{MM}-{dd}/{d}.md" == DefaultOutputPath;
  }

  lemma DefaultPathHasMonth()
    ensures Contains(DefaultOutputPath, "{MM}")
  {
    ContainsMiddle("journals/{yyyy}/", "{MM}", "-{dd}/{d}.md");
    assert "journals/{yyyy}/" + "{MM}" + "-{dd}/{d}.md" == DefaultOutputPath;
  }

  lemma DefaultPathHasDay()
    ensures Contains(DefaultOutputPath, "{dd}")
  {
    ContainsMiddle("journals/{yyyy}/{MM}-", "{dd}", "/{d}.md");
    assert "journals/{yyyy}/{MM}-" + "{dd}" + "/{d}.md" == DefaultOutputPath;
  }
}

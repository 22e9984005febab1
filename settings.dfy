/**
 * The application settings of settings.rs: four keys of the `app_setting`
 * table (date placeholders, import patterns, sync output path, sync commit
 * message), how `update_settings` cleans and saves them one after the other,
 * and how `get_settings` reads them back with their fallbacks.
 *
 * Stored values are held as what `serde_json` would decode them to; a
 * stored text that does not decode is `Unparsable`.
 */
module Settings {
  import opened Wrappers
  import opened Strings
  import opened Placeholders
  import opened Sorting
  import Config
  import RepoScan

  /** `default_import_patterns_by`: four layouts of year, month and day. */
  function DefaultImportPatternsBy(p: DatePlaceholders): (r: seq<string>)
    ensures |r| == 4
    ensures forall i :: 0 <= i < 4 ==> EndsWith(r[i], ".md") && RepoScan.HasDateTokens(r[i], p)
  {
    PatternHasTokens(p.yyyy, "/", p.mm, "/", p.dd);
    PatternHasTokens(p.yyyy, "/", p.mm, "-", p.dd);
    PatternHasTokens(p.yyyy, "-", p.mm, "-", p.dd);
    PatternHasTokens(p.yyyy, "_", p.mm, "_", p.dd);
    [p.yyyy + "/" + p.mm + "/" + p.dd + ".md",
     p.yyyy + "/" + p.mm + "-" + p.dd + ".md",
     p.yyyy + "-" + p.mm + "-" + p.dd + ".md",
     p.yyyy + "_" + p.mm + "_" + p.dd + ".md"]
  }

  /** `year s1 month s2 day .md` ends in `.md` and contains all three tokens. */
  lemma PatternHasTokens(y: string, s1: string, mo: string, s2: string, d: string)
    ensures var x := y + s1 + mo + s2 + d + ".md";
      EndsWith(x, ".md") && Contains(x, y) && Contains(x, mo) && Contains(x, d)
  {
    var x := y + s1 + mo + s2 + d + ".md";
    assert [] + y + (s1 + mo + s2 + d + ".md") == x;
    ContainsMiddle([], y, s1 + mo + s2 + d + ".md");
    assert (y + s1) + mo + (s2 + d + ".md") == x;
    ContainsMiddle(y + s1, mo, s2 + d + ".md");
    assert (y + s1 + mo + s2) + d + ".md" == x;
    ContainsMiddle(y + s1 + mo + s2, d, ".md");
  }

  /** The pattern cleaning of `update_settings`: trim, drop blanks, sort, dedup. */
  function CleanPatterns(xs: seq<string>): seq<string> {
    Dedup(SortBy(TrimNonBlank(xs), Id))
  }

  /**
   * The cleaned list is strictly ascending, holds only trimmed non-empty
   * strings, and holds exactly the trimmed non-blank inputs.
   */
  lemma CleanPatternsSpec(xs: seq<string>)
    ensures var c := CleanPatterns(xs);
      StrictlyAscending(c)
      && (forall i :: 0 <= i < |c| ==> |c[i]| > 0 && Trim(c[i]) == c[i])
      && (forall x :: x in c <==> exists i :: 0 <= i < |xs| && !IsBlank(xs[i]) && x == Trim(xs[i]))
      && (|c| == 0 <==> forall i :: 0 <= i < |xs| ==> IsBlank(xs[i]))
  {
    var t := TrimNonBlank(xs);
    var s := SortBy(t, Id);
    var c := Dedup(s);
    SortBySorted(t, Id);
    DedupSortedAscending(s);
    SortByMembers(t, Id);
    assert forall x :: x in c <==> x in t;
    CleanMembersTrimmed(t, c);
    forall x ensures x in c <==> exists i :: 0 <= i < |xs| && !IsBlank(xs[i]) && x == Trim(xs[i]) {
      TrimNonBlankMembers(xs, x);
    }
  }

  lemma CleanMembersTrimmed(t: seq<string>, c: seq<string>)
    requires forall i :: 0 <= i < |t| ==> |t[i]| > 0 && Trim(t[i]) == t[i]
    requires forall x :: x in c <==> x in t
    ensures forall i :: 0 <= i < |c| ==> |c[i]| > 0 && Trim(c[i]) == c[i]
    ensures |c| == 0 <==> |t| == 0
  {
    if |t| > 0 { assert t[0] in c; }
    if |c| > 0 { assert c[0] in t; }
    forall i | 0 <= i < |c| ensures |c[i]| > 0 && Trim(c[i]) == c[i] {
      assert c[i] in t;
    }
  }

  /** A list of trimmed non-empty strings passes through trimming and filtering unchanged. */
  lemma {:induction false} TrimNonBlankOfClean(xs: seq<string>)
    requires forall i :: 0 <= i < |xs| ==> |xs[i]| > 0 && Trim(xs[i]) == xs[i]
    ensures TrimNonBlank(xs) == xs
    decreases |xs|
  {
    if |xs| > 0 {
      assert forall i :: 0 <= i < |xs[1..]| ==> xs[1..][i] == xs[i + 1];
      TrimNonBlankOfClean(xs[1..]);
      assert !IsBlank(xs[0]);
      assert xs == [xs[0]] + xs[1..];
    }
  }

  /** What is kept under a key: a decoded value, or text that does not decode. */
  datatype Stored<T> = Parsed(value: T) | Unparsable

  /** The four rows of `app_setting` this module reads and writes (`None` when the key is absent). */
  datatype SettingsState = SettingsState(
    placeholders: Option<Stored<DatePlaceholders>>,
    importPatterns: Option<Stored<seq<string>>>,
    syncOutputPath: Option<string>,
    syncCommitMessage: Option<string>)

  /** `AppSettingsResp`. */
  datatype SettingsResp = SettingsResp(
    importPatterns: seq<string>, syncOutputPath: string,
    syncCommitMessage: string, datePlaceholders: DatePlaceholders)

  /** `UpdateSettingsReq`: every field optional. */
  datatype UpdateReq = UpdateReq(
    importPatterns: Option<seq<string>>, syncOutputPath: Option<string>,
    syncCommitMessage: Option<string>, datePlaceholders: Option<DatePlaceholders>)

  const KeyImportPatterns: string := "import_patterns"
  const KeySyncOutputPath: string := "sync_output_path"
  const KeySyncCommitMessage: string := "sync_commit_message"
  const KeyDatePlaceholders: string := "date_placeholders"

  /** `load_date_placeholders`: a stored value counts only if it decodes and passes normalisation. */
  function LoadDatePlaceholders(s: SettingsState): (r: Option<DatePlaceholders>)
    ensures r.Some? ==> Normalize(r.value) == Ok(r.value)
    ensures r.None? <==> s.placeholders.None? || s.placeholders.value.Unparsable?
                         || Normalize(s.placeholders.value.value).Err?
  {
    match s.placeholders
    case None => None
    case Some(Unparsable) => None
    case Some(Parsed(p)) =>
      match Normalize(p)
      case Err(_) => None
      case Ok(n) =>
        NormalizeIdempotent(p);
        Some(n)
  }

  /** `load_import_patterns`: trim and drop blanks, but neither sort nor dedup; nothing left means absent. */
  function LoadImportPatterns(s: SettingsState): (r: Option<seq<string>>)
    ensures r.Some? ==> |r.value| > 0 && forall i :: 0 <= i < |r.value| ==> |r.value[i]| > 0 && Trim(r.value[i]) == r.value[i]
    ensures r.None? <==> s.importPatterns.None? || s.importPatterns.value.Unparsable?
                         || forall i :: 0 <= i < |s.importPatterns.value.value| ==> IsBlank(s.importPatterns.value.value[i])
  {
    match s.importPatterns
    case None => None
    case Some(Unparsable) => None
    case Some(Parsed(arr)) =>
      var cleaned := TrimNonBlank(arr);
      if |cleaned| == 0 then None else Some(cleaned)
  }

  /**
   * `get_settings`: stored values where usable, otherwise the default
   * placeholders, the default patterns for those placeholders, and the
   * configured output path and commit message.
   */
  function GetSettings(s: SettingsState, cfg: Config.SyncConfig): (r: SettingsResp)
    ensures Normalize(r.datePlaceholders) == Ok(r.datePlaceholders)
    ensures |r.importPatterns| > 0
    ensures LoadImportPatterns(s).None? ==> r.importPatterns == DefaultImportPatternsBy(r.datePlaceholders)
    ensures LoadDatePlaceholders(s).None? ==> r.datePlaceholders == Default()
    ensures s.syncOutputPath.None? ==> r.syncOutputPath == cfg.outputPath
    ensures s.syncCommitMessage.None? ==> r.syncCommitMessage == cfg.commitMessage
    ensures LoadDatePlaceholders(s).Some? ==> r.datePlaceholders == LoadDatePlaceholders(s).value
    ensures LoadImportPatterns(s).Some? ==> r.importPatterns == LoadImportPatterns(s).value
    ensures s.syncOutputPath.Some? ==> r.syncOutputPath == s.syncOutputPath.value
    ensures s.syncCommitMessage.Some? ==> r.syncCommitMessage == s.syncCommitMessage.value
  {
    DefaultNormalizes();
    var p := LoadDatePlaceholders(s).GetOr(Default());
    var patterns := match LoadImportPatterns(s) case Some(v) => v case None => DefaultImportPatternsBy(p);
    SettingsResp(patterns, s.syncOutputPath.GetOr(cfg.outputPath), s.syncCommitMessage.GetOr(cfg.commitMessage), p)
  }

  /** The message of a failed normalisation, as `update_settings` reports it. */
  function SchemaMessage(e: SchemaError): string {
    match e
    case EmptyField(name) => "datePlaceholders." + name + " cannot be empty"
    case NotBraceForm(name) => "datePlaceholders." + name + " must use brace format like {xxx}"
    case DuplicateToken(t) => "duplicate placeholder token '" + t + "'"
  }

  const SaveFailed: string := "save settings failed"
  const PatternsEmpty: string := "importPatterns cannot be empty"
  const OutputPathEmpty: string := "syncOutputPath cannot be empty"
  const CommitMessageEmpty: string := "syncCommitMessage cannot be empty"

  /** One step of `update_settings`: the state after it, and the error that ends the request, if any. */
  datatype Step = Step(state: SettingsState, error: Option<string>)

  function StepPlaceholders(s: SettingsState, v: Option<DatePlaceholders>, failing: set<string>): (r: Step)
    ensures r.state.importPatterns == s.importPatterns && r.state.syncOutputPath == s.syncOutputPath
      && r.state.syncCommitMessage == s.syncCommitMessage
    ensures v.Some? && r.error.None? ==>
      Normalize(v.value).Ok? && r.state.placeholders == Some(Parsed(Normalize(v.value).value))
    ensures v.None? || r.error.Some? ==> r.state == s
    ensures v.None? ==> r.error.None?
  {
    if v.None? then Step(s, None)
    else match Normalize(v.value)
      case Err(e) => Step(s, Some(SchemaMessage(e)))
      case Ok(n) =>
        if KeyDatePlaceholders in failing then Step(s, Some(SaveFailed))
        else Step(s.(placeholders := Some(Parsed(n))), None)
  }

  function StepPatterns(s: SettingsState, v: Option<seq<string>>, failing: set<string>): (r: Step)
    ensures r.state.placeholders == s.placeholders && r.state.syncOutputPath == s.syncOutputPath
      && r.state.syncCommitMessage == s.syncCommitMessage
    ensures v.Some? && r.error.None? ==>
      |CleanPatterns(v.value)| > 0 && r.state.importPatterns == Some(Parsed(CleanPatterns(v.value)))
    ensures v.None? || r.error.Some? ==> r.state == s
    ensures v.None? ==> r.error.None?
  {
    if v.None? then Step(s, None)
    else
      var cleaned := CleanPatterns(v.value);
      if |cleaned| == 0 then Step(s, Some(PatternsEmpty))
      else if KeyImportPatterns in failing then Step(s, Some(SaveFailed))
      else Step(s.(importPatterns := Some(Parsed(cleaned))), None)
  }

  function StepOutputPath(s: SettingsState, v: Option<string>, failing: set<string>): (r: Step)
    ensures r.state.placeholders == s.placeholders && r.state.importPatterns == s.importPatterns
      && r.state.syncCommitMessage == s.syncCommitMessage
    ensures v.Some? && r.error.None? ==> r.state.syncOutputPath == Some(Trim(v.value))
    ensures v.None? || r.error.Some? ==> r.state == s
    ensures v.None? ==> r.error.None?
  {
    if v.None? then Step(s, None)
    else if IsBlank(v.value) then Step(s, Some(OutputPathEmpty))
    else if KeySyncOutputPath in failing then Step(s, Some(SaveFailed))
    else Step(s.(syncOutputPath := Some(Trim(v.value))), None)
  }

  function StepCommitMessage(s: SettingsState, v: Option<string>, failing: set<string>): (r: Step)
    ensures r.state.placeholders == s.placeholders && r.state.importPatterns == s.importPatterns
      && r.state.syncOutputPath == s.syncOutputPath
    ensures v.Some? && r.error.None? ==> r.state.syncCommitMessage == Some(Trim(v.value))
    ensures v.None? || r.error.Some? ==> r.state == s
    ensures v.None? ==> r.error.None?
  {
    if v.None? then Step(s, None)
    else if IsBlank(v.value) then Step(s, Some(CommitMessageEmpty))
    else if KeySyncCommitMessage in failing then Step(s, Some(SaveFailed))
    else Step(s.(syncCommitMessage := Some(Trim(v.value))), None)
  }

  /**
   * `update_settings`, with the keys whose save fails as a parameter: the
   * fields are handled in the order placeholders, patterns, output path,
   * commit message; the first error ends the request and keeps what was
   * already saved; success answers with `get_settings` on the new state.
   */
  function UpdateSettings(s: SettingsState, req: UpdateReq, cfg: Config.SyncConfig, failing: set<string>)
    : (SettingsState, Result<SettingsResp, string>)
  {
    var d := ApplyUpdate(s, req, failing);
    if d.error.Some? then (d.state, Err(d.error.value)) else (d.state, Ok(GetSettings(d.state, cfg)))
  }

  /** The four saving steps of `update_settings`, stopping at the first error. */
  function ApplyUpdate(s: SettingsState, req: UpdateReq, failing: set<string>): Step {
    var a := StepPlaceholders(s, req.datePlaceholders, failing);
    if a.error.Some? then a else
    var b := StepPatterns(a.state, req.importPatterns, failing);
    if b.error.Some? then b else
    var c := StepOutputPath(b.state, req.syncOutputPath, failing);
    if c.error.Some? then c else
    StepCommitMessage(c.state, req.syncCommitMessage, failing)
  }

  /**
   * After a successful update, the answer is what `get_settings` reads
   * back, and every field the request carried comes back in its cleaned
   * form: normalised placeholders, the sorted deduplicated patterns, the
   * trimmed output path and commit message.
   */
  lemma UpdateThenGet(s: SettingsState, req: UpdateReq, cfg: Config.SyncConfig, failing: set<string>)
    requires UpdateSettings(s, req, cfg, failing).1.Ok?
    ensures var (s', r) := UpdateSettings(s, req, cfg, failing);
      r.value == GetSettings(s', cfg)
      && (req.datePlaceholders.Some? ==> r.value.datePlaceholders == Normalize(req.datePlaceholders.value).value)
      && (req.importPatterns.Some? ==> r.value.importPatterns == CleanPatterns(req.importPatterns.value))
      && (req.syncOutputPath.Some? ==> r.value.syncOutputPath == Trim(req.syncOutputPath.value))
      && (req.syncCommitMessage.Some? ==> r.value.syncCommitMessage == Trim(req.syncCommitMessage.value))
  {
    var s' := ApplyUpdate(s, req, failing).state;
    ApplySavesRequested(s, req, failing);
    if req.datePlaceholders.Some? {
      NormalizeIdempotent(req.datePlaceholders.value);
    }
    if req.importPatterns.Some? {
      var c := CleanPatterns(req.importPatterns.value);
      CleanPatternsSpec(req.importPatterns.value);
      TrimNonBlankOfClean(c);
      assert LoadImportPatterns(s') == Some(c);
    }
  }

  /** When every step succeeds, each field the request carried is stored in its cleaned form. */
  lemma ApplySavesRequested(s: SettingsState, req: UpdateReq, failing: set<string>)
    requires ApplyUpdate(s, req, failing).error.None?
    ensures var s' := ApplyUpdate(s, req, failing).state;
      (req.datePlaceholders.Some? ==>
         Normalize(req.datePlaceholders.value).Ok?
         && s'.placeholders == Some(Parsed(Normalize(req.datePlaceholders.value).value)))
      && (req.importPatterns.Some? ==>
            |CleanPatterns(req.importPatterns.value)| > 0
            && s'.importPatterns == Some(Parsed(CleanPatterns(req.importPatterns.value))))
      && (req.syncOutputPath.Some? ==> s'.syncOutputPath == Some(Trim(req.syncOutputPath.value)))
      && (req.syncCommitMessage.Some? ==> s'.syncCommitMessage == Some(Trim(req.syncCommitMessage.value)))
  {
    var a := StepPlaceholders(s, req.datePlaceholders, failing);
    var b := StepPatterns(a.state, req.importPatterns, failing);
    var c := StepOutputPath(b.state, req.syncOutputPath, failing);
    var d := StepCommitMessage(c.state, req.syncCommitMessage, failing);
    assert a.error.None? && b.error.None? && c.error.None? && d.error.None?;
  }

  /** Nothing in the request: nothing is saved, and the answer is the current settings. */
  lemma UpdateEmptyRequest(s: SettingsState, cfg: Config.SyncConfig, failing: set<string>)
    ensures UpdateSettings(s, UpdateReq(None, None, None, None), cfg, failing) == (s, Ok(GetSettings(s, cfg)))
  {
  }

  /**
   * A blank output path is refused after the placeholders and patterns of
   * the same request were already saved; the output path and commit
   * message stay as they were.
   */
  lemma UpdateBlankPathKeepsEarlierSaves(s: SettingsState, req: UpdateReq, cfg: Config.SyncConfig, failing: set<string>)
    requires req.datePlaceholders.Some? && Normalize(req.datePlaceholders.value).Ok? && KeyDatePlaceholders !in failing
    requires req.importPatterns.Some? && |CleanPatterns(req.importPatterns.value)| > 0 && KeyImportPatterns !in failing
    requires req.syncOutputPath.Some? && IsBlank(req.syncOutputPath.value)
    ensures var (s', r) := UpdateSettings(s, req, cfg, failing);
      r == Err(OutputPathEmpty)
      && s'.placeholders == Some(Parsed(Normalize(req.datePlaceholders.value).value))
      && s'.importPatterns == Some(Parsed(CleanPatterns(req.importPatterns.value)))
      && s'.syncOutputPath == s.syncOutputPath && s'.syncCommitMessage == s.syncCommitMessage
  {
  }

  /** Whatever the outcome, a field the request does not carry keeps its stored value. */
  lemma UpdateTouchesOnlyRequested(s: SettingsState, req: UpdateReq, failing: set<string>)
    ensures var s' := ApplyUpdate(s, req, failing).state;
      (req.datePlaceholders.None? ==> s'.placeholders == s.placeholders)
      && (req.importPatterns.None? ==> s'.importPatterns == s.importPatterns)
      && (req.syncOutputPath.None? ==> s'.syncOutputPath == s.syncOutputPath)
      && (req.syncCommitMessage.None? ==> s'.syncCommitMessage == s.syncCommitMessage)
  {
  }

  /** The `app_setting` rows as a mutable store. */
  class SettingsStore {
    var placeholders: Option<Stored<DatePlaceholders>>
    var importPatterns: Option<Stored<seq<string>>>
    var syncOutputPath: Option<string>
    var syncCommitMessage: Option<string>

    function State(): SettingsState
      reads this
    {
      SettingsState(placeholders, importPatterns, syncOutputPath, syncCommitMessage)
    }

    /** A store with no settings saved. */
    constructor()
      ensures State() == SettingsState(None, None, None, None)
    {
      placeholders := None;
      importPatterns := None;
      syncOutputPath := None;
      syncCommitMessage := None;
    }

    /** `update_settings`: saves field by field and returns at the first error. */
    method Update(req: UpdateReq, cfg: Config.SyncConfig, failing: set<string>)
      returns (r: Result<SettingsResp, string>)
      modifies this
      ensures (State(), r) == UpdateSettings(old(State()), req, cfg, failing)
    {
      var err := SavePlaceholders(req.datePlaceholders, failing);
      if err.Some? {
        return Err(err.value);
      }
      err := SavePatterns(req.importPatterns, failing);
      if err.Some? {
        return Err(err.value);
      }
      err := SaveOutputPath(req.syncOutputPath, failing);
      if err.Some? {
        return Err(err.value);
      }
      err := SaveCommitMessage(req.syncCommitMessage, failing);
      if err.Some? {
        return Err(err.value);
      }
      r := Ok(GetSettings(State(), cfg));
    }

    /** The placeholder block of `update_settings`. */
    method SavePlaceholders(v: Option<DatePlaceholders>, failing: set<string>) returns (err: Option<string>)
      modifies this
      ensures Step(State(), err) == StepPlaceholders(old(State()), v, failing)
    {
      err := None;
      if v.Some? {
        var normalized := NormalizeDatePlaceholders(v.value);
        if normalized.Err? {
          return Some(SchemaMessage(normalized.error));
        }
        if KeyDatePlaceholders in failing {
          return Some(SaveFailed);
        }
        placeholders := Some(Parsed(normalized.value));
      }
    }

    /** The import pattern block of `update_settings`. */
    method SavePatterns(v: Option<seq<string>>, failing: set<string>) returns (err: Option<string>)
      modifies this
      ensures Step(State(), err) == StepPatterns(old(State()), v, failing)
    {
      err := None;
      if v.Some? {
        var cleaned := CleanPatterns(v.value);
        if |cleaned| == 0 {
          return Some(PatternsEmpty);
        }
        if KeyImportPatterns in failing {
          return Some(SaveFailed);
        }
        importPatterns := Some(Parsed(cleaned));
      }
    }

    /** The output path block of `update_settings`. */
    method SaveOutputPath(v: Option<string>, failing: set<string>) returns (err: Option<string>)
      modifies this
      ensures Step(State(), err) == StepOutputPath(old(State()), v, failing)
    {
      err := None;
      if v.Some? {
        var value := Trim(v.value);
        if |value| == 0 {
          return Some(OutputPathEmpty);
        }
        if KeySyncOutputPath in failing {
          return Some(SaveFailed);
        }
        syncOutputPath := Some(value);
      }
    }

    /** The commit message block of `update_settings`. */
    method SaveCommitMessage(v: Option<string>, failing: set<string>) returns (err: Option<string>)
      modifies this
      ensures Step(State(), err) == StepCommitMessage(old(State()), v, failing)
    {
      err := None;
      if v.Some? {
        var value := Trim(v.value);
        if |value| == 0 {
          return Some(CommitMessageEmpty);
        }
        if KeySyncCommitMessage in failing {
          return Some(SaveFailed);
        }
        syncCommitMessage := Some(value);
      }
    }
  }
}

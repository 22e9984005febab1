/**
 * The path-to-date matcher of repo_sync.rs (and its copy in import_zip.rs):
 * a path is split on `/`, the pattern's segments are aligned with the last
 * segments of the path, and each segment pair is scanned with two cursors.
 * Literal characters must match; a `{key}` placeholder takes the characters
 * up to the first occurrence of the next template character (or the rest of
 * the segment) and stores them, after validation, in a year, month or day
 * slot. The only difference between the two copies is that import_zip.rs
 * gives `{MM}` and `{M}` (and `{dd}` and `{d}`) separate, identical branches;
 * `Copy` selects which copy is meant.
 */
module Matcher {
  import opened Wrappers
  import opened Strings
  import opened Placeholders

  datatype Copy = RepoSync | ImportZip

  /** The three `Option<String>` slots that `capture_component` writes through `&mut`. */
  datatype Slots = Slots(yyyy: Option<string>, mm: Option<string>, dd: Option<string>)

  function NoSlots(): Slots { Slots(None, None, None) }

  datatype AssignError =
    | NonDigit(value: string)
    | InvalidPlaceholderToken(token: string)
    | YearNotFourDigits
    | MonthOutOfRange
    | MonthConflict
    | DayOutOfRange
    | DayConflict
    | UnsupportedDateFormat
    | DateConflict
    | UnsupportedPlaceholder(key: string)

  datatype CaptureError =
    | InvalidTemplateComponent
    | MissingLiteral(literal: char, key: string)
    | LiteralMismatch(expected: char)
    | LengthMismatch
    | PlaceholderParseFailed(key: string, cause: AssignError)

  datatype MatchError =
    | TooShort(pathSegments: nat, patternSegments: nat)
    | CaptureFailed(cause: CaptureError)
    | MissingYear
    | MissingMonth
    | MissingDay
    | InvalidDateParts(yyyy: string, mm: string, dd: string)

  /** One entry of the "path not match patterns" error: the pattern and why it failed. */
  datatype Reason = Reason(pattern: string, cause: MatchError)

  // ---------------------------------------------------------------------------
  // Date helpers
  // ---------------------------------------------------------------------------

  predicate YearValue(v: string) { |v| == 4 && AllDigits(v) }
  predicate MonthValue(v: string) { |v| == 2 && AllDigits(v) && 1 <= DigitsValue(v) <= 12 }
  predicate DayValue(v: string) { |v| == 2 && AllDigits(v) && 1 <= DigitsValue(v) <= 31 }

  /** `yyyy-MM-dd` with a four-digit year, a month in 01..12 and a day in 01..31. */
  predicate IsoDate(s: string) {
    |s| == 10 && s[4] == '-' && s[7] == '-'
    && YearValue(s[..4]) && MonthValue(s[5..7]) && DayValue(s[8..])
  }

  /** `valid_date_parts`: the year parses as `i32`, month and day as `u32` in 1..12 and 1..31. */
  function ValidDateParts(yyyy: string, mm: string, dd: string): bool {
    var year := ParseI32(yyyy);
    var month := ParseU32(mm);
    var day := ParseU32(dd);
    if year.None? || month.None? || day.None? then false
    else 1 <= month.value <= 12 && 1 <= day.value <= 31
  }

  /** On plain digit strings `valid_date_parts` is exactly the month and day range check. */
  lemma ValidDatePartsDigits(yyyy: string, mm: string, dd: string)
    requires 0 < |yyyy| <= 9 && 0 < |mm| <= 9 && 0 < |dd| <= 9
    requires AllDigits(yyyy) && AllDigits(mm) && AllDigits(dd)
    ensures ValidDateParts(yyyy, mm, dd) <==> 1 <= DigitsValue(mm) <= 12 && 1 <= DigitsValue(dd) <= 31
  {
    ParseI32Digits(yyyy);
    ParseU32Digits(mm);
    ParseU32Digits(dd);
  }

  /** `normalize_month_or_day`: one or two digits in `[min, max]`, zero-padded to two digits. */
  function NormalizeMonthOrDay(v: string, min: nat, max: nat): (r: Option<string>)
    ensures r.Some? <==> 1 <= |v| <= 2 && AllDigits(v) && min <= DigitsValue(v) <= max
    ensures r.Some? ==> |r.value| == 2 && AllDigits(r.value) && DigitsValue(r.value) == DigitsValue(v)
  {
    if |v| == 0 || |v| > 2 || !AllDigits(v) then None
    else
      ParseU32Digits(v);
      DigitsValueBound(v);
      Pow10Monotone(|v|, 2);
      match ParseU32(v)
      case None => None
      case Some(n) =>
        if n < min || n > max then None
        else
          ZeroPad2Small(n);
          Some(ZeroPad2(n))
  }

  /** `parse_date_value` tries each separator in turn. */
  function ParseSeparated(s: string, seps: seq<char>): (r: Option<(string, string, string)>)
    ensures r.Some? ==> YearValue(r.value.0) && MonthValue(r.value.1) && DayValue(r.value.2)
    decreases |seps|
  {
    if |seps| == 0 then None
    else
      var parts := Split(s, seps[0]);
      if |parts| != 3 then ParseSeparated(s, seps[1..])
      else
        var y := parts[0];
        var nm := NormalizeMonthOrDay(parts[1], 1, 12);
        var nd := NormalizeMonthOrDay(parts[2], 1, 31);
        if |y| == 4 && AllDigits(y) && nm.Some? && nd.Some? && ValidDateParts(y, nm.value, nd.value)
        then Some((y, nm.value, nd.value))
        else ParseSeparated(s, seps[1..])
  }

  /**
   * `parse_date_value`: after trimming, eight digits `yyyymmdd`, or three
   * parts separated by `-`, `_` or `.` (tried in that order).
   */
  function ParseDateValue(v: string): (r: Option<(string, string, string)>)
    ensures r.Some? ==> YearValue(r.value.0) && MonthValue(r.value.1) && DayValue(r.value.2)
  {
    var s := Trim(v);
    if |s| == 8 && AllDigits(s) then
      var y, m, d := s[0..4], s[4..6], s[6..8];
      if ValidDateParts(y, m, d) then
        ValidDatePartsDigits(y, m, d);
        Some((y, m, d))
      else None
    else ParseSeparated(s, ['-', '_', '.'])
  }

  /** Eight digits forming a valid date parse as year, month and day in place. */
  lemma ParseDateValueEightDigits(v: string)
    requires |v| == 8 && AllDigits(v)
    requires 1 <= DigitsValue(v[4..6]) <= 12 && 1 <= DigitsValue(v[6..8]) <= 31
    ensures ParseDateValue(v) == Some((v[0..4], v[4..6], v[6..8]))
  {
    TrimNoWs(v);
    ValidDatePartsDigits(v[0..4], v[4..6], v[6..8]);
  }

  /** A digit string has a `parse_date_value` result only in its eight-digit form. */
  lemma ParseDateValueDigitsOnly(v: string)
    requires AllDigits(v) && ParseDateValue(v).Some?
    ensures |v| == 8
  {
    if |v| > 0 {
      TrimNoWs(v);
    }
    SplitNoSeparator(v, '-');
    SplitNoSeparator(v, '_');
    SplitNoSeparator(v, '.');
  }

  // ---------------------------------------------------------------------------
  // Placeholder keys and slot updates
  // ---------------------------------------------------------------------------

  /** `placeholder_key`: the text between the braces of a brace-form token. */
  function PlaceholderKey(token: string): (r: Result<string, string>)
    ensures r.Ok? <==> BraceForm(token)
    ensures r.Ok? ==> |r.value| >= 1 && token == "{" + r.value + "}"
    ensures r.Err? ==> r.error == token
  {
    if !BraceForm(token) then Err(token)
    else
      var key := token[1..|token| - 1];
      assert token == token[..1] + key + token[|token| - 1..];
      Ok(key)
  }

  /** The six keys of the date tokens, in the order `assign_placeholder` derives them. */
  datatype Keys = Keys(yyyy: string, mm: string, m: string, dd: string, d: string, date: string)

  function DateKeys(p: DatePlaceholders): Result<Keys, string> {
    var ky := PlaceholderKey(p.yyyy);
    var kmm := PlaceholderKey(p.mm);
    var km := PlaceholderKey(p.m);
    var kdd := PlaceholderKey(p.dd);
    var kd := PlaceholderKey(p.d);
    var kdate := PlaceholderKey(p.date);
    if ky.Err? then Err(ky.error)
    else if kmm.Err? then Err(kmm.error)
    else if km.Err? then Err(km.error)
    else if kdd.Err? then Err(kdd.error)
    else if kd.Err? then Err(kd.error)
    else if kdate.Err? then Err(kdate.error)
    else Ok(Keys(ky.value, kmm.value, km.value, kdd.value, kd.value, kdate.value))
  }

  /**
   * `merge_or_check`: an empty slot takes the value; a filled slot must
   * already hold it. Returns whether it succeeded and the new slot.
   */
  function MergeOrCheck(slot: Option<string>, value: string): (r: (bool, Option<string>))
    ensures r.0 <==> slot.None? || slot.value == value
    ensures r.0 ==> r.1 == Some(value)
    ensures !r.0 ==> r.1 == slot
  {
    if slot.Some? then (slot.value == value, slot) else (true, Some(value))
  }

  function AssignMonth(val: string, s: Slots): Result<Slots, AssignError> {
    match NormalizeMonthOrDay(val, 1, 12)
    case None => Err(MonthOutOfRange)
    case Some(m) =>
      var merged := MergeOrCheck(s.mm, m);
      if merged.0 then Ok(s.(mm := merged.1)) else Err(MonthConflict)
  }

  function AssignDay(val: string, s: Slots): Result<Slots, AssignError> {
    match NormalizeMonthOrDay(val, 1, 31)
    case None => Err(DayOutOfRange)
    case Some(d) =>
      var merged := MergeOrCheck(s.dd, d);
      if merged.0 then Ok(s.(dd := merged.1)) else Err(DayConflict)
  }

  function AssignDate(val: string, s: Slots): Result<Slots, AssignError> {
    match ParseDateValue(val)
    case None => Err(UnsupportedDateFormat)
    case Some((py, pm, pd)) =>
      var y := MergeOrCheck(s.yyyy, py);
      if !y.0 then Err(DateConflict)
      else
        var m := MergeOrCheck(s.mm, pm);
        if !m.0 then Err(DateConflict)
        else
          var d := MergeOrCheck(s.dd, pd);
          if !d.0 then Err(DateConflict)
          else Ok(Slots(y.1, m.1, d.1))
  }

  /** Which branch of `assign_placeholder` a key selects. */
  datatype Target = YearTarget | MonthTarget | DayTarget | DateTarget | NoTarget

  /**
   * The key comparison of `assign_placeholder`, in source order: yyyy, then
   * MM/M, then dd/d, then date. repo_sync.rs tests `MM || M` in one guard,
   * import_zip.rs has one guard per key with identical bodies.
   */
  function Dispatch(copy: Copy, k: Keys, key: string): Target {
    if key == k.yyyy then YearTarget
    else match copy
      case RepoSync =>
        if key == k.mm || key == k.m then MonthTarget
        else if key == k.dd || key == k.d then DayTarget
        else if key == k.date then DateTarget
        else NoTarget
      case ImportZip =>
        if key == k.mm then MonthTarget
        else if key == k.m then MonthTarget
        else if key == k.dd then DayTarget
        else if key == k.d then DayTarget
        else if key == k.date then DateTarget
        else NoTarget
  }

  /** The two copies select the same branch for every key. */
  lemma DispatchCopiesAgree(k: Keys, key: string)
    ensures Dispatch(RepoSync, k, key) == Dispatch(ImportZip, k, key)
  {
  }

  function AssignYear(val: string, s: Slots): Result<Slots, AssignError> {
    if |val| != 4 then Err(YearNotFourDigits) else Ok(s.(yyyy := Some(val)))
  }

  /**
   * `assign_placeholder`: the value must be all ASCII digits; then the six
   * token keys are derived and the key selects a branch. The year is
   * overwritten without a conflict check; months, days and the date go
   * through `merge_or_check`. On an error the caller abandons the whole
   * match, so the slots it may already have changed are not returned.
   */
  function Assign(copy: Copy, p: DatePlaceholders, key: string, val: string, s: Slots): Result<Slots, AssignError> {
    if !AllDigits(val) then Err(NonDigit(val))
    else match DateKeys(p)
      case Err(t) => Err(InvalidPlaceholderToken(t))
      case Ok(k) =>
        match Dispatch(copy, k, key)
        case YearTarget => AssignYear(val, s)
        case MonthTarget => AssignMonth(val, s)
        case DayTarget => AssignDay(val, s)
        case DateTarget => AssignDate(val, s)
        case NoTarget => Err(UnsupportedPlaceholder(key))
  }

  /** Every filled slot holds a value of the right shape. */
  predicate WellFormed(s: Slots) {
    (s.yyyy.Some? ==> YearValue(s.yyyy.value))
    && (s.mm.Some? ==> MonthValue(s.mm.value))
    && (s.dd.Some? ==> DayValue(s.dd.value))
  }

  /** Month and day slots, once filled, keep their value; a filled year slot stays filled. */
  predicate Extends(s: Slots, s': Slots) {
    (s.yyyy.Some? ==> s'.yyyy.Some?)
    && (s.mm.Some? ==> s'.mm == s.mm)
    && (s.dd.Some? ==> s'.dd == s.dd)
  }

  lemma AssignDateKeepsShape(val: string, s: Slots)
    requires WellFormed(s) && AssignDate(val, s).Ok?
    ensures WellFormed(AssignDate(val, s).value) && Extends(s, AssignDate(val, s).value)
  {
  }

  lemma AssignKeepsShape(copy: Copy, p: DatePlaceholders, key: string, val: string, s: Slots)
    requires WellFormed(s) && Assign(copy, p, key, val, s).Ok?
    ensures WellFormed(Assign(copy, p, key, val, s).value)
    ensures Extends(s, Assign(copy, p, key, val, s).value)
  {
    var r := Assign(copy, p, key, val, s);
    match Dispatch(copy, DateKeys(p).value, key)
    case YearTarget =>
      assert r == AssignYear(val, s);
    case MonthTarget =>
      assert r == AssignMonth(val, s);
    case DayTarget =>
      assert r == AssignDay(val, s);
    case DateTarget =>
      assert r == AssignDate(val, s);
      AssignDateKeepsShape(val, s);
    case NoTarget =>
      assert false;
  }

  /** The two copies of `assign_placeholder` agree on every input. */
  lemma AssignCopiesAgree(p: DatePlaceholders, key: string, val: string, s: Slots)
    ensures Assign(RepoSync, p, key, val, s) == Assign(ImportZip, p, key, val, s)
  {
    if DateKeys(p).Ok? {
      DispatchCopiesAgree(DateKeys(p).value, key);
    }
  }

  /** `{yyyy}` overwrites a filled year slot instead of checking it. */
  lemma YearOverwrites(copy: Copy, p: DatePlaceholders, val: string, s: Slots)
    requires DateKeys(p).Ok? && YearValue(val)
    ensures Assign(copy, p, DateKeys(p).value.yyyy, val, s) == Ok(s.(yyyy := Some(val)))
  {
  }

  /** A month that disagrees with the filled month slot is a conflict. */
  lemma MonthConflictDetected(copy: Copy, p: DatePlaceholders, val: string, s: Slots)
    requires DateKeys(p).Ok? && AllDigits(val)
    requires var k := DateKeys(p).value; k.mm != k.yyyy
    requires NormalizeMonthOrDay(val, 1, 12).Some? && s.mm.Some? && s.mm != NormalizeMonthOrDay(val, 1, 12)
    ensures Assign(copy, p, DateKeys(p).value.mm, val, s) == Err(MonthConflict)
  {
  }

  /** A day that disagrees with the filled day slot is a conflict. */
  lemma DayConflictDetected(copy: Copy, p: DatePlaceholders, val: string, s: Slots)
    requires DateKeys(p).Ok? && AllDigits(val)
    requires var k := DateKeys(p).value; k.dd != k.yyyy && k.dd != k.mm && k.dd != k.m
    requires NormalizeMonthOrDay(val, 1, 31).Some? && s.dd.Some? && s.dd != NormalizeMonthOrDay(val, 1, 31)
    ensures Assign(copy, p, DateKeys(p).value.dd, val, s) == Err(DayConflict)
  {
  }

  /** A key that names none of the six date tokens is refused. */
  lemma UnknownKeyRefused(copy: Copy, p: DatePlaceholders, key: string, val: string, s: Slots)
    requires DateKeys(p).Ok? && AllDigits(val)
    requires var k := DateKeys(p).value; key !in {k.yyyy, k.mm, k.m, k.dd, k.d, k.date}
    ensures Assign(copy, p, key, val, s) == Err(UnsupportedPlaceholder(key))
  {
  }

  /** Because every value must be all digits, a `{date}` placeholder only ever succeeds on `yyyymmdd`. */
  lemma DateKeyNeedsEightDigits(copy: Copy, p: DatePlaceholders, val: string, s: Slots)
    requires DateKeys(p).Ok?
    requires var k := DateKeys(p).value; k.date !in {k.yyyy, k.mm, k.m, k.dd, k.d}
    requires Assign(copy, p, DateKeys(p).value.date, val, s).Ok?
    ensures |val| == 8 && AllDigits(val)
  {
    ParseDateValueDigitsOnly(val);
  }

  // ---------------------------------------------------------------------------
  // One segment: capture_component
  // ---------------------------------------------------------------------------

  /** Where a placeholder's value ends: at the first occurrence of the next template character, or at the end. */
  function ValueEnd(a: string, rest: string): (r: Option<nat>)
    ensures r.Some? ==> r.value <= |a|
    ensures r.None? ==> |rest| > 0
  {
    if |rest| == 0 then Some(|a|) else FindChar(a, rest[0])
  }

  /**
   * What `capture_component` computes, stated on the remaining template `t`
   * and the remaining actual segment `a` (the suffixes after the two cursors).
   */
  function Capture(copy: Copy, p: DatePlaceholders, a: string, t: string, s: Slots): Result<Slots, CaptureError>
    decreases |t|
  {
    if |t| == 0 then
      (if |a| == 0 then Ok(s) else Err(LengthMismatch))
    else if t[0] == '{' then
      match FindChar(t, '}')
      case None => Err(InvalidTemplateComponent)
      case Some(e) =>
        var key := t[1..e];
        var rest := t[e + 1..];
        var valueEnd := ValueEnd(a, rest);
        if valueEnd.None? then Err(MissingLiteral(rest[0], key))
        else
          match Assign(copy, p, key, a[..valueEnd.value], s)
          case Err(cause) => Err(PlaceholderParseFailed(key, cause))
          case Ok(s') => Capture(copy, p, a[valueEnd.value..], rest, s')
    else if |a| == 0 || a[0] != t[0] then Err(LiteralMismatch(t[0]))
    else Capture(copy, p, a[1..], t[1..], s)
  }

  /**
   * The `{` branch of `capture_component`: find the closing brace, take the
   * value up to the next template character, and assign it. Returns the
   * advanced cursors and slots, or the error that ends the scan.
   */
  method CapturePlaceholder(copy: Copy, p: DatePlaceholders, actual: string, template: string, i: nat, j: nat, s: Slots)
    returns (r: Result<Slots, CaptureError>, nextI: nat, nextJ: nat)
    requires i < |template| && template[i] == '{' && j <= |actual|
    ensures r.Err? ==> Capture(copy, p, actual[j..], template[i..], s) == Err(r.error)
    ensures r.Ok? ==>
      i < nextI <= |template| && j <= nextJ <= |actual|
      && Capture(copy, p, actual[j..], template[i..], s)
         == Capture(copy, p, actual[nextJ..], template[nextI..], r.value)
  {
    var a := actual[j..];
    var t := template[i..];
    var found := FindChar(t, '}');
    if found.None? {
      return Err(InvalidTemplateComponent), i, j;
    }
    var e := found.value;
    var key := t[1..e];
    var rest := t[e + 1..];
    var valueEnd := ValueEnd(a, rest);
    if valueEnd.None? {
      return Err(MissingLiteral(rest[0], key)), i, j;
    }
    var v := valueEnd.value;
    var outcome := Assign(copy, p, key, a[..v], s);
    if outcome.Err? {
      return Err(PlaceholderParseFailed(key, outcome.error)), i, j;
    }
    CaptureAdvance(copy, p, actual, template, i, j, s, e, v, outcome.value);
    nextI, nextJ := i + e + 1, j + v;
    assert actual[nextJ..] == actual[j + v..] && template[nextI..] == template[i + e + 1..];
    r := Ok(outcome.value);
  }

  /** `capture_component`: the two-cursor scan over template and actual segment. */
  method CaptureComponent(copy: Copy, p: DatePlaceholders, actual: string, template: string, slots: Slots)
    returns (r: Result<Slots, CaptureError>)
    ensures r == Capture(copy, p, actual, template, slots)
  {
    var i, j := 0, 0;
    var s := slots;
    while i < |template|
      invariant 0 <= i <= |template| && 0 <= j <= |actual|
      invariant Capture(copy, p, actual[j..], template[i..], s) == Capture(copy, p, actual, template, slots)
      decreases |template| - i
    {
      if template[i] == '{' {
        var step, nextI, nextJ := CapturePlaceholder(copy, p, actual, template, i, j, s);
        if step.Err? {
          return Err(step.error);
        }
        i, j, s := nextI, nextJ, step.value;
      } else {
        if j >= |actual| || template[i] != actual[j] {
          return Err(LiteralMismatch(template[i]));
        }
        assert actual[j + 1..] == actual[j..][1..] && template[i + 1..] == template[i..][1..];
        i, j := i + 1, j + 1;
      }
    }
    if j == |actual| {
      r := Ok(s);
    } else {
      r := Err(LengthMismatch);
    }
  }

  /** A successful capture keeps the slots well-formed and only fills or keeps them. */
  lemma {:induction false} CaptureKeepsShape(copy: Copy, p: DatePlaceholders, a: string, t: string, s: Slots)
    requires WellFormed(s) && Capture(copy, p, a, t, s).Ok?
    ensures WellFormed(Capture(copy, p, a, t, s).value)
    ensures Extends(s, Capture(copy, p, a, t, s).value)
    decreases |t|, 1
  {
    if |t| > 0 {
      if t[0] == '{' {
        PlaceholderKeepsShape(copy, p, a, t, s);
      } else {
        assert Capture(copy, p, a, t, s) == Capture(copy, p, a[1..], t[1..], s);
        CaptureKeepsShape(copy, p, a[1..], t[1..], s);
      }
    }
  }

  /** `CaptureKeepsShape` when the template starts with a placeholder. */
  lemma {:induction false} PlaceholderKeepsShape(copy: Copy, p: DatePlaceholders, a: string, t: string, s: Slots)
    requires WellFormed(s) && Capture(copy, p, a, t, s).Ok?
    requires |t| > 0 && t[0] == '{'
    ensures WellFormed(Capture(copy, p, a, t, s).value)
    ensures Extends(s, Capture(copy, p, a, t, s).value)
    decreases |t|, 0
  {
    CaptureBraceStep(copy, p, a, t, s);
    var e := FindChar(t, '}').value;
    var rest := t[e + 1..];
    var v := ValueEnd(a, rest).value;
    var s' := Assign(copy, p, t[1..e], a[..v], s).value;
    AssignKeepsShape(copy, p, t[1..e], a[..v], s);
    CaptureKeepsShape(copy, p, a[v..], rest, s');
  }

  /** `CaptureAssignStep` at the cursors `i` and `j` of the whole template and segment. */
  lemma CaptureAdvance(copy: Copy, p: DatePlaceholders, actual: string, template: string, i: nat, j: nat, s: Slots,
                       e: nat, v: nat, s': Slots)
    requires i < |template| && template[i] == '{' && j <= |actual|
    requires FindChar(template[i..], '}') == Some(e) && i + e < |template|
    requires ValueEnd(actual[j..], template[i..][e + 1..]) == Some(v) && j + v <= |actual|
    requires Assign(copy, p, template[i..][1..e], actual[j..][..v], s) == Ok(s')
    ensures Capture(copy, p, actual[j..], template[i..], s) == Capture(copy, p, actual[j + v..], template[i + e + 1..], s')
  {
    CaptureAssignStep(copy, p, actual[j..], template[i..], s, e, v, s');
    SuffixOfSuffix(template, i, e + 1);
    SuffixOfSuffix(actual, j, v);
  }

  /** A suffix of a suffix is a suffix. */
  lemma SuffixOfSuffix(x: string, j: nat, k: nat)
    requires j + k <= |x|
    ensures x[j..][k..] == x[j + k..]
  {
  }

  /** A placeholder whose value is found and assigned: the scan continues after the value with the new slots. */
  lemma CaptureAssignStep(copy: Copy, p: DatePlaceholders, a: string, t: string, s: Slots, e: nat, v: nat, s': Slots)
    requires |t| > 0 && t[0] == '{' && FindChar(t, '}') == Some(e) && e < |t|
    requires ValueEnd(a, t[e + 1..]) == Some(v) && v <= |a|
    requires Assign(copy, p, t[1..e], a[..v], s) == Ok(s')
    ensures Capture(copy, p, a, t, s) == Capture(copy, p, a[v..], t[e + 1..], s')
  {
  }

  /** A successful capture at a placeholder assigns the value and continues after it. */
  lemma CaptureBraceStep(copy: Copy, p: DatePlaceholders, a: string, t: string, s: Slots)
    requires |t| > 0 && t[0] == '{' && Capture(copy, p, a, t, s).Ok?
    ensures FindChar(t, '}').Some?
    ensures var e := FindChar(t, '}').value;
      && e + 1 <= |t|
      && ValueEnd(a, t[e + 1..]).Some?
      && var v := ValueEnd(a, t[e + 1..]).value;
      && v <= |a|
      && Assign(copy, p, t[1..e], a[..v], s).Ok?
      && Capture(copy, p, a, t, s) == Capture(copy, p, a[v..], t[e + 1..], Assign(copy, p, t[1..e], a[..v], s).value)
  {
  }

  /** A template without placeholders matches exactly itself and leaves the slots alone. */
  lemma {:induction false} CaptureLiteral(copy: Copy, p: DatePlaceholders, a: string, t: string, s: Slots)
    requires '{' !in t
    ensures Capture(copy, p, a, t, s).Ok? <==> a == t
    ensures Capture(copy, p, a, t, s).Ok? ==> Capture(copy, p, a, t, s).value == s
    decreases |t|
  {
    if |t| > 0 {
      assert t[0] in t;
      if |a| > 0 && a[0] == t[0] {
        assert forall c :: c in t[1..] ==> c in t;
        CaptureLiteral(copy, p, a[1..], t[1..], s);
        assert a == [a[0]] + a[1..] && t == [t[0]] + t[1..];
      }
    }
  }

  lemma {:induction false} CaptureCopiesAgree(p: DatePlaceholders, a: string, t: string, s: Slots)
    ensures Capture(RepoSync, p, a, t, s) == Capture(ImportZip, p, a, t, s)
    decreases |t|
  {
    if |t| > 0 {
      if t[0] == '{' {
        var f := FindChar(t, '}');
        if f.Some? {
          var e := f.value;
          var rest := t[e + 1..];
          var ve := ValueEnd(a, rest);
          if ve.Some? {
            var v := ve.value;
            AssignCopiesAgree(p, t[1..e], a[..v], s);
            var r := Assign(RepoSync, p, t[1..e], a[..v], s);
            if r.Ok? {
              CaptureCopiesAgree(p, a[v..], rest, r.value);
            }
          }
        }
      } else if |a| > 0 && a[0] == t[0] {
        CaptureCopiesAgree(p, a[1..], t[1..], s);
      }
    }
  }

  // ---------------------------------------------------------------------------
  // Whole paths: match_path_with_pattern and extract_date_from_path
  // ---------------------------------------------------------------------------

  /** Capture every (actual, template) segment pair in order, threading the slots. */
  function CaptureAll(copy: Copy, p: DatePlaceholders, actuals: seq<string>, templates: seq<string>, s: Slots)
    : Result<Slots, CaptureError>
    requires |actuals| == |templates|
    decreases |templates|
  {
    if |templates| == 0 then Ok(s)
    else match Capture(copy, p, actuals[0], templates[0], s)
      case Err(e) => Err(e)
      case Ok(s') => CaptureAll(copy, p, actuals[1..], templates[1..], s')
  }

  /** The end of `match_path_with_pattern`: every slot must be filled and the parts valid. */
  function AssembleDate(s: Slots): Result<string, MatchError> {
    if s.yyyy.None? then Err(MissingYear)
    else if s.mm.None? then Err(MissingMonth)
    else if s.dd.None? then Err(MissingDay)
    else if !ValidDateParts(s.yyyy.value, s.mm.value, s.dd.value) then
      Err(InvalidDateParts(s.yyyy.value, s.mm.value, s.dd.value))
    else Ok(s.yyyy.value + "-" + s.mm.value + "-" + s.dd.value)
  }

  /** What `match_path_with_pattern` computes. */
  function MatchPath(copy: Copy, p: DatePlaceholders, path: string, pattern: string): Result<string, MatchError> {
    MatchTokens(copy, p, Split(path, '/'), Split(pattern, '/'))
  }

  /** Align the pattern's segments with the last segments of the path and capture them. */
  function MatchTokens(copy: Copy, p: DatePlaceholders, pathTokens: seq<string>, patternTokens: seq<string>)
    : Result<string, MatchError>
  {
    if |pathTokens| < |patternTokens| then Err(TooShort(|pathTokens|, |patternTokens|))
    else
      var tail := pathTokens[|pathTokens| - |patternTokens|..];
      match CaptureAll(copy, p, tail, patternTokens, NoSlots())
      case Err(e) => Err(CaptureFailed(e))
      case Ok(s) => AssembleDate(s)
  }

  /** The segment loop of `match_path_with_pattern`: capture each aligned pair in order. */
  method CaptureSegments(copy: Copy, p: DatePlaceholders, tail: seq<string>, patternTokens: seq<string>)
    returns (r: Result<Slots, CaptureError>)
    requires |tail| == |patternTokens|
    ensures r == CaptureAll(copy, p, tail, patternTokens, NoSlots())
  {
    var s := NoSlots();
    var k := 0;
    while k < |patternTokens|
      invariant 0 <= k <= |patternTokens|
      invariant CaptureAll(copy, p, tail[k..], patternTokens[k..], s) == CaptureAll(copy, p, tail, patternTokens, NoSlots())
    {
      assert tail[k..][1..] == tail[k + 1..] && patternTokens[k..][1..] == patternTokens[k + 1..];
      var captured := CaptureComponent(copy, p, tail[k], patternTokens[k], s);
      if captured.Err? {
        return Err(captured.error);
      }
      s := captured.value;
      k := k + 1;
    }
    return Ok(s);
  }

  /** `match_path_with_pattern`: capture every aligned segment pair, then assemble the date. */
  method MatchPathWithPattern(copy: Copy, p: DatePlaceholders, path: string, pattern: string)
    returns (r: Result<string, MatchError>)
    ensures r == MatchPath(copy, p, path, pattern)
  {
    var pathTokens := Split(path, '/');
    var patternTokens := Split(pattern, '/');
    if |pathTokens| < |patternTokens| {
      return Err(TooShort(|pathTokens|, |patternTokens|));
    }
    var tail := pathTokens[|pathTokens| - |patternTokens|..];
    var captured := CaptureSegments(copy, p, tail, patternTokens);
    if captured.Err? {
      return Err(CaptureFailed(captured.error));
    }
    var s := captured.value;
    if s.yyyy.None? {
      return Err(MissingYear);
    }
    if s.mm.None? {
      return Err(MissingMonth);
    }
    if s.dd.None? {
      return Err(MissingDay);
    }
    if !ValidDateParts(s.yyyy.value, s.mm.value, s.dd.value) {
      return Err(InvalidDateParts(s.yyyy.value, s.mm.value, s.dd.value));
    }
    r := Ok(s.yyyy.value + "-" + s.mm.value + "-" + s.dd.value);
  }

  lemma {:induction false} CaptureAllKeepsShape(copy: Copy, p: DatePlaceholders, actuals: seq<string>, templates: seq<string>, s: Slots)
    requires |actuals| == |templates|
    requires WellFormed(s) && CaptureAll(copy, p, actuals, templates, s).Ok?
    ensures WellFormed(CaptureAll(copy, p, actuals, templates, s).value)
    decreases |templates|
  {
    if |templates| > 0 {
      CaptureKeepsShape(copy, p, actuals[0], templates[0], s);
      CaptureAllKeepsShape(copy, p, actuals[1..], templates[1..], Capture(copy, p, actuals[0], templates[0], s).value);
    }
  }

  /**
   * A successful match is a `yyyy-MM-dd` date with a four-digit year and a
   * zero-padded month and day in range; the month length is not checked.
   */
  lemma MatchPathIsoDate(copy: Copy, p: DatePlaceholders, path: string, pattern: string)
    requires MatchPath(copy, p, path, pattern).Ok?
    ensures IsoDate(MatchPath(copy, p, path, pattern).value)
  {
    var pathTokens := Split(path, '/');
    var patternTokens := Split(pattern, '/');
    var tail := pathTokens[|pathTokens| - |patternTokens|..];
    CaptureAllKeepsShape(copy, p, tail, patternTokens, NoSlots());
    var s := CaptureAll(copy, p, tail, patternTokens, NoSlots()).value;
    assert MatchTokens(copy, p, pathTokens, patternTokens) == AssembleDate(s);
    var d := s.yyyy.value + "-" + s.mm.value + "-" + s.dd.value;
    assert d[..4] == s.yyyy.value && d[5..7] == s.mm.value && d[8..] == s.dd.value;
  }

  /** On well-formed slots `valid_date_parts` always holds, so the "invalid date parts" error cannot occur. */
  lemma WellFormedSlotsAreValid(s: Slots)
    requires WellFormed(s) && s.yyyy.Some? && s.mm.Some? && s.dd.Some?
    ensures ValidDateParts(s.yyyy.value, s.mm.value, s.dd.value)
  {
    ValidDatePartsDigits(s.yyyy.value, s.mm.value, s.dd.value);
  }

  lemma {:induction false} CaptureAllCopiesAgree(p: DatePlaceholders, actuals: seq<string>, templates: seq<string>, s: Slots)
    requires |actuals| == |templates|
    ensures CaptureAll(RepoSync, p, actuals, templates, s) == CaptureAll(ImportZip, p, actuals, templates, s)
    decreases |templates|
  {
    if |templates| > 0 {
      CaptureCopiesAgree(p, actuals[0], templates[0], s);
      var r := Capture(RepoSync, p, actuals[0], templates[0], s);
      if r.Ok? {
        CaptureAllCopiesAgree(p, actuals[1..], templates[1..], r.value);
      }
    }
  }

  /** The matcher of repo_sync.rs and its copy in import_zip.rs agree on every path and pattern. */
  lemma MatchPathCopiesAgree(p: DatePlaceholders, path: string, pattern: string)
    ensures MatchPath(RepoSync, p, path, pattern) == MatchPath(ImportZip, p, path, pattern)
  {
    MatchTokensCopiesAgree(p, Split(path, '/'), Split(pattern, '/'));
  }

  lemma MatchTokensCopiesAgree(p: DatePlaceholders, pathTokens: seq<string>, patternTokens: seq<string>)
    ensures MatchTokens(RepoSync, p, pathTokens, patternTokens) == MatchTokens(ImportZip, p, pathTokens, patternTokens)
  {
    if |pathTokens| >= |patternTokens| {
      CaptureAllCopiesAgree(p, pathTokens[|pathTokens| - |patternTokens|..], patternTokens, NoSlots());
    }
  }

  /**
   * What `extract_date_from_path` computes: the date of the first pattern,
   * in order, that matches; otherwise every pattern's reason, in order.
   */
  function Extract(copy: Copy, p: DatePlaceholders, path: string, patterns: seq<string>): Result<string, seq<Reason>>
    decreases |patterns|
  {
    if |patterns| == 0 then Err([])
    else match MatchPath(copy, p, path, patterns[0])
      case Ok(d) => Ok(d)
      case Err(e) => Prepend([Reason(patterns[0], e)], Extract(copy, p, path, patterns[1..]))
  }

  /** Extraction succeeds exactly when some pattern matches. */
  lemma {:induction false} ExtractOkIff(copy: Copy, p: DatePlaceholders, path: string, patterns: seq<string>)
    ensures Extract(copy, p, path, patterns).Ok? <==>
      exists k :: 0 <= k < |patterns| && MatchPath(copy, p, path, patterns[k]).Ok?
    decreases |patterns|
  {
    if |patterns| > 0 {
      ExtractOkIff(copy, p, path, patterns[1..]);
      if MatchPath(copy, p, path, patterns[0]).Err? {
        if Extract(copy, p, path, patterns[1..]).Ok? {
          var k :| 0 <= k < |patterns| - 1 && MatchPath(copy, p, path, patterns[1..][k]).Ok?;
          assert patterns[k + 1] == patterns[1..][k];
        } else {
          forall k | 0 <= k < |patterns|
            ensures MatchPath(copy, p, path, patterns[k]).Err?
          {
            if k > 0 {
              assert patterns[k] == patterns[1..][k - 1];
            }
          }
        }
      }
    }
  }

  /** A successful extraction is the date of the first pattern that matches. */
  lemma {:induction false} ExtractFirstMatch(copy: Copy, p: DatePlaceholders, path: string, patterns: seq<string>)
    requires Extract(copy, p, path, patterns).Ok?
    ensures exists k ::
      && 0 <= k < |patterns|
      && MatchPath(copy, p, path, patterns[k]) == Ok(Extract(copy, p, path, patterns).value)
      && forall j :: 0 <= j < k ==> MatchPath(copy, p, path, patterns[j]).Err?
    decreases |patterns|
  {
    if MatchPath(copy, p, path, patterns[0]).Err? {
      var rest := Extract(copy, p, path, patterns[1..]);
      ExtractFirstMatch(copy, p, path, patterns[1..]);
      var k :| 0 <= k < |patterns| - 1 && MatchPath(copy, p, path, patterns[1..][k]) == Ok(rest.value)
        && forall j :: 0 <= j < k ==> MatchPath(copy, p, path, patterns[1..][j]).Err?;
      assert patterns[k + 1] == patterns[1..][k];
      forall j | 0 <= j < k + 1
        ensures MatchPath(copy, p, path, patterns[j]).Err?
      {
        if j > 0 {
          assert patterns[j] == patterns[1..][j - 1];
        }
      }
    }
  }

  /** A failed extraction lists, in pattern order, every pattern with the reason it did not match. */
  lemma {:induction false} ExtractReasons(copy: Copy, p: DatePlaceholders, path: string, patterns: seq<string>)
    requires Extract(copy, p, path, patterns).Err?
    ensures var rs := Extract(copy, p, path, patterns).error;
      |rs| == |patterns|
      && forall k :: 0 <= k < |patterns| ==>
           MatchPath(copy, p, path, patterns[k]).Err?
           && rs[k] == Reason(patterns[k], MatchPath(copy, p, path, patterns[k]).error)
    decreases |patterns|
  {
    if |patterns| > 0 {
      ExtractReasons(copy, p, path, patterns[1..]);
      var rs := Extract(copy, p, path, patterns).error;
      var rest := Extract(copy, p, path, patterns[1..]).error;
      assert rs == [Reason(patterns[0], MatchPath(copy, p, path, patterns[0]).error)] + rest;
      forall k | 1 <= k < |patterns|
        ensures MatchPath(copy, p, path, patterns[k]).Err?
          && rs[k] == Reason(patterns[k], MatchPath(copy, p, path, patterns[k]).error)
      {
        assert patterns[k] == patterns[1..][k - 1] && rs[k] == rest[k - 1];
      }
    }
  }

  /** Prepend the reasons gathered so far to the outcome of the remaining patterns. */
  function Prepend(reasons: seq<Reason>, r: Result<string, seq<Reason>>): Result<string, seq<Reason>> {
    match r
    case Ok(d) => Ok(d)
    case Err(rs) => Err(reasons + rs)
  }

  /** One step of `extract_date_from_path`: a failing pattern contributes its reason. */
  lemma ExtractStep(copy: Copy, p: DatePlaceholders, path: string, patterns: seq<string>, k: nat, reasons: seq<Reason>)
    requires k < |patterns| && MatchPath(copy, p, path, patterns[k]).Err?
    ensures Prepend(reasons, Extract(copy, p, path, patterns[k..]))
      == Prepend(reasons + [Reason(patterns[k], MatchPath(copy, p, path, patterns[k]).error)], Extract(copy, p, path, patterns[k + 1..]))
  {
    assert patterns[k..][1..] == patterns[k + 1..];
    var rest := Extract(copy, p, path, patterns[k + 1..]);
    if rest.Err? {
      var x := Reason(patterns[k], MatchPath(copy, p, path, patterns[k]).error);
      assert reasons + ([x] + rest.error) == (reasons + [x]) + rest.error;
    }
  }

  /** `extract_date_from_path`: try each pattern in turn, collecting the reasons. */
  method ExtractDateFromPath(copy: Copy, p: DatePlaceholders, path: string, patterns: seq<string>)
    returns (r: Result<string, seq<Reason>>)
    ensures r == Extract(copy, p, path, patterns)
  {
    var reasons: seq<Reason> := [];
    var k := 0;
    assert patterns[0..] == patterns;
    assert Prepend([], Extract(copy, p, path, patterns)) == Extract(copy, p, path, patterns) by {
      if Extract(copy, p, path, patterns).Err? {
        assert [] + Extract(copy, p, path, patterns).error == Extract(copy, p, path, patterns).error;
      }
    }
    while k < |patterns|
      invariant 0 <= k <= |patterns|
      invariant Prepend(reasons, Extract(copy, p, path, patterns[k..])) == Extract(copy, p, path, patterns)
    {
      var m := MatchPathWithPattern(copy, p, path, patterns[k]);
      if m.Ok? {
        assert patterns[k..][0] == patterns[k];
        return Ok(m.value);
      }
      ExtractStep(copy, p, path, patterns, k, reasons);
      reasons := reasons + [Reason(patterns[k], m.error)];
      k := k + 1;
    }
    assert patterns[k..] == [] && reasons + [] == reasons;
    r := Err(reasons);
  }

  lemma {:induction false} ExtractCopiesAgree(p: DatePlaceholders, path: string, patterns: seq<string>)
    ensures Extract(RepoSync, p, path, patterns) == Extract(ImportZip, p, path, patterns)
    decreases |patterns|
  {
    if |patterns| > 0 {
      MatchPathCopiesAgree(p, path, patterns[0]);
      ExtractCopiesAgree(p, path, patterns[1..]);
    }
  }

  /** A successful extraction is a well-formed `yyyy-MM-dd` date. */
  lemma ExtractIsoDate(copy: Copy, p: DatePlaceholders, path: string, patterns: seq<string>)
    requires Extract(copy, p, path, patterns).Ok?
    ensures IsoDate(Extract(copy, p, path, patterns).value)
  {
    ExtractFirstMatch(copy, p, path, patterns);
    var k :| 0 <= k < |patterns| && MatchPath(copy, p, path, patterns[k]) == Ok(Extract(copy, p, path, patterns).value);
    MatchPathIsoDate(copy, p, path, patterns[k]);
  }
}

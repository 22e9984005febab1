/**
 * The date placeholder schema of settings.rs: the eight configurable tokens,
 * their defaults, and `normalize_date_placeholders` (trim every token, demand
 * the `{xxx}` brace form, demand pairwise distinct tokens).
 */
module Placeholders {
  import opened Wrappers
  import opened Strings

  /** The eight tokens, in the field order of `DatePlaceholders`. */
  datatype DatePlaceholders = DatePlaceholders(
    yyyy: string, mm: string, m: string, dd: string, d: string,
    date: string, timestamp: string, count: string)

  /** The tokens in the order in which the settings code checks them. */
  function Tokens(p: DatePlaceholders): (ts: seq<string>)
    ensures |ts| == 8
  {
    [p.yyyy, p.mm, p.m, p.dd, p.d, p.date, p.timestamp, p.count]
  }

  /** The field names that the error messages report, in the same order. */
  function FieldNames(): (ns: seq<string>)
    ensures |ns| == 8
  {
    ["yyyy", "MM", "M", "dd", "d", "date", "timestamp", "count"]
  }

  /** `default_date_placeholders`. */
  function Default(): DatePlaceholders {
    DatePlaceholders("{yyyy}", "{MM}", "{M}", "{dd}", "{d}", "{date}", "{timestamp}", "{count}")
  }

  /**
   * `starts_with('{') && ends_with('}') && len() >= 3`. The byte length and
   * the character count agree on this test: a string that starts with `{`
   * and ends with `}` is at least three bytes long exactly when it has at
   * least three characters.
   */
  predicate BraceForm(t: string) {
    StartsWith(t, "{") && EndsWith(t, "}") && |t| >= 3
  }

  predicate Distinct(ts: seq<string>) {
    forall i, j :: 0 <= i < j < |ts| ==> ts[i] != ts[j]
  }

  datatype SchemaError =
    | EmptyField(name: string)
    | NotBraceForm(name: string)
    | DuplicateToken(token: string)

  function TrimAll(p: DatePlaceholders): DatePlaceholders {
    DatePlaceholders(Trim(p.yyyy), Trim(p.mm), Trim(p.m), Trim(p.dd), Trim(p.d),
                     Trim(p.date), Trim(p.timestamp), Trim(p.count))
  }

  /** The first field, in order, that is empty or not in brace form. */
  function FirstBadField(ts: seq<string>, names: seq<string>): (r: Option<SchemaError>)
    requires |ts| == |names|
    ensures r.None? <==> forall i :: 0 <= i < |ts| ==> BraceForm(ts[i])
    ensures r.Some? ==>
      exists i :: 0 <= i < |ts| && !BraceForm(ts[i])
        && (forall k :: 0 <= k < i ==> BraceForm(ts[k]))
        && r.value == (if ts[i] == [] then EmptyField(names[i]) else NotBraceForm(names[i]))
    decreases |ts|
  {
    if |ts| == 0 then None
    else if ts[0] == [] then Some(EmptyField(names[0]))
    else if !BraceForm(ts[0]) then Some(NotBraceForm(names[0]))
    else
      var r := FirstBadField(ts[1..], names[1..]);
      if r.Some? then
        var i :| 0 <= i < |ts| - 1 && !BraceForm(ts[1..][i])
          && (forall k :: 0 <= k < i ==> BraceForm(ts[1..][k]))
          && r.value == (if ts[1..][i] == [] then EmptyField(names[1..][i]) else NotBraceForm(names[1..][i]));
        assert ts[1..][i] == ts[i + 1] && names[1..][i] == names[i + 1];
        assert forall k :: 0 <= k < i + 1 ==> BraceForm(ts[k]) by {
          forall k | 1 <= k < i + 1 ensures BraceForm(ts[k]) {
            assert ts[k] == ts[1..][k - 1];
          }
        }
        r
      else
        assert forall k :: 1 <= k < |ts| ==> ts[k] == ts[1..][k - 1];
        r
  }

  /** The first token that repeats an earlier one (or one of `seen`), scanning in order. */
  function FirstRepeat(ts: seq<string>, seen: set<string>): Option<string>
    decreases |ts|
  {
    if |ts| == 0 then None
    else if ts[0] in seen then Some(ts[0])
    else FirstRepeat(ts[1..], seen + {ts[0]})
  }

  /** What `normalize_date_placeholders` computes. */
  function Normalize(input: DatePlaceholders): Result<DatePlaceholders, SchemaError> {
    var n := TrimAll(input);
    match FirstBadField(Tokens(n), FieldNames())
    case Some(e) => Err(e)
    case None =>
      match FirstRepeat(Tokens(n), {})
      case Some(t) => Err(DuplicateToken(t))
      case None => Ok(n)
  }

  /**
   * `normalize_date_placeholders`: a first pass rejects the first empty or
   * malformed field, a second pass inserts every token into a set and
   * rejects the first one already present.
   */
  method NormalizeDatePlaceholders(input: DatePlaceholders) returns (r: Result<DatePlaceholders, SchemaError>)
    ensures r == Normalize(input)
  {
    var normalized := TrimAll(input);
    var fields := Tokens(normalized);
    var names := FieldNames();
    var i := 0;
    while i < 8
      invariant 0 <= i <= 8
      invariant FirstBadField(fields[i..], names[i..]) == FirstBadField(fields, names)
    {
      assert fields[i..][1..] == fields[i + 1..] && names[i..][1..] == names[i + 1..];
      if fields[i] == [] {
        return Err(EmptyField(names[i]));
      }
      if !BraceForm(fields[i]) {
        return Err(NotBraceForm(names[i]));
      }
      i := i + 1;
    }
    var uniq: set<string> := {};
    i := 0;
    while i < 8
      invariant 0 <= i <= 8
      invariant FirstRepeat(fields[i..], uniq) == FirstRepeat(fields, {})
      invariant FirstBadField(fields, names).None?
    {
      assert fields[i..][1..] == fields[i + 1..];
      if fields[i] in uniq {
        return Err(DuplicateToken(fields[i]));
      }
      uniq := uniq + {fields[i]};
      i := i + 1;
    }
    assert fields[8..] == [];
    r := Ok(normalized);
  }

  lemma {:induction false} FirstRepeatNone(ts: seq<string>, seen: set<string>)
    ensures FirstRepeat(ts, seen).None? <==> Distinct(ts) && forall i :: 0 <= i < |ts| ==> ts[i] !in seen
    decreases |ts|
  {
    if |ts| > 0 {
      FirstRepeatNone(ts[1..], seen + {ts[0]});
      if ts[0] !in seen && FirstRepeat(ts[1..], seen + {ts[0]}).None? {
        forall i, j | 0 <= i < j < |ts|
          ensures ts[i] != ts[j]
        {
          if i > 0 {
            assert ts[i] == ts[1..][i - 1] && ts[j] == ts[1..][j - 1];
          } else {
            assert ts[j] == ts[1..][j - 1];
          }
        }
      }
      if Distinct(ts) && forall i :: 0 <= i < |ts| ==> ts[i] !in seen {
        forall i | 0 <= i < |ts| - 1
          ensures ts[1..][i] !in seen + {ts[0]}
        {
          assert ts[1..][i] == ts[i + 1];
        }
      }
    }
  }

  lemma {:induction false} FirstRepeatSome(ts: seq<string>, seen: set<string>) returns (i: nat)
    requires FirstRepeat(ts, seen).Some?
    ensures i < |ts| && ts[i] == FirstRepeat(ts, seen).value
    ensures ts[i] in seen || ts[i] in ts[..i]
    decreases |ts|
  {
    if ts[0] in seen {
      i := 0;
    } else {
      var k := FirstRepeatSome(ts[1..], seen + {ts[0]});
      i := k + 1;
      assert ts[i] == ts[1..][k];
      if ts[i] == ts[0] {
        assert ts[i] in ts[..i];
      } else if ts[i] in ts[1..][..k] {
        assert ts[1..][..k] == ts[1..i];
      }
    }
  }

  lemma FirstRepeatSomeEmpty(ts: seq<string>) returns (i: nat)
    requires FirstRepeat(ts, {}).Some?
    ensures i < |ts| && ts[i] == FirstRepeat(ts, {}).value && ts[i] in ts[..i]
  {
    i := FirstRepeatSome(ts, {});
  }

  /** Normalisation succeeds exactly on schemas whose trimmed tokens are all in brace form and pairwise distinct, and then returns the trimmed tokens. */
  lemma NormalizeOk(input: DatePlaceholders)
    ensures var ts := Tokens(TrimAll(input));
      Normalize(input).Ok? <==> (forall i :: 0 <= i < 8 ==> BraceForm(ts[i])) && Distinct(ts)
    ensures Normalize(input).Ok? ==> Normalize(input).value == TrimAll(input)
  {
    FirstRepeatNone(Tokens(TrimAll(input)), {});
  }

  /** A field error names the first field, in schema order, that is empty or malformed. */
  lemma NormalizeFieldError(input: DatePlaceholders)
    requires Normalize(input).Err? && !Normalize(input).error.DuplicateToken?
    ensures var ts := Tokens(TrimAll(input));
      exists i :: 0 <= i < 8 && !BraceForm(ts[i]) && (forall k :: 0 <= k < i ==> BraceForm(ts[k]))
        && Normalize(input).error == (if ts[i] == [] then EmptyField(FieldNames()[i]) else NotBraceForm(FieldNames()[i]))
  {
  }

  /** A duplicate error names the first token, in schema order, that repeats an earlier one; all tokens are then in brace form. */
  lemma NormalizeDuplicateError(input: DatePlaceholders) returns (i: nat)
    requires Normalize(input).Err? && Normalize(input).error.DuplicateToken?
    ensures var ts := Tokens(TrimAll(input));
      (forall k :: 0 <= k < 8 ==> BraceForm(ts[k]))
      && i < 8 && Normalize(input).error.token == ts[i] && ts[i] in ts[..i]
  {
    i := FirstRepeatSomeEmpty(Tokens(TrimAll(input)));
  }

  /** The default tokens pass normalisation unchanged. */
  lemma DefaultNormalizes()
    ensures Normalize(Default()) == Ok(Default())
  {
    var p := Default();
    DefaultTrimmed();
    DefaultWellFormed();
    NormalizeOk(p);
  }

  lemma DefaultTrimmed()
    ensures TrimAll(Default()) == Default()
  {
    var p := Default();
    TrimNoWs(p.yyyy); TrimNoWs(p.mm); TrimNoWs(p.m); TrimNoWs(p.dd);
    TrimNoWs(p.d); TrimNoWs(p.date); TrimNoWs(p.timestamp); TrimNoWs(p.count);
  }

  lemma DefaultWellFormed()
    ensures forall i :: 0 <= i < 8 ==> BraceForm(Tokens(Default())[i])
    ensures Distinct(Tokens(Default()))
  {
  }

  /** Normalising an already normalised schema returns it unchanged. */
  lemma NormalizeIdempotent(input: DatePlaceholders)
    requires Normalize(input).Ok?
    ensures Normalize(Normalize(input).value) == Normalize(input)
  {
    var p := Normalize(input).value;
    NormalizeOk(input);
    TrimIdempotent(input.yyyy); TrimIdempotent(input.mm); TrimIdempotent(input.m);
    TrimIdempotent(input.dd); TrimIdempotent(input.d); TrimIdempotent(input.date);
    TrimIdempotent(input.timestamp); TrimIdempotent(input.count);
    assert TrimAll(p) == p;
    NormalizeOk(p);
  }
}

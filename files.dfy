/**
 * The naming side of file uploads in file.rs: how a client-supplied name
 * is reduced to a safe base name (`sanitize_file_name`), how a stored name
 * is made unique with a timestamp and a process-wide counter
 * (`unique_file_name` with `FILE_SEQ`), and which directory a content type
 * selects (`resolve_target`). The clock is a parameter.
 */
module Files {
  import opened Wrappers
  import opened Strings
  import RepoScan
  import Config

  // ---------------------------------------------------------------------------
  // sanitize_file_name
  // ---------------------------------------------------------------------------

  predicate IsAsciiAlphanumeric(c: char) {
    '0' <= c <= '9' || 'a' <= c <= 'z' || 'A' <= c <= 'Z'
  }

  /** The characters a stored name may hold. */
  predicate AllowedChar(c: char) {
    IsAsciiAlphanumeric(c) || c == '.' || c == '-' || c == '_'
  }

  /** The per-character map: allowed characters stay, every other one becomes `_`. */
  function MapChar(c: char): (r: char)
    ensures AllowedChar(r)
    ensures r == '.' <==> c == '.'
    ensures AllowedChar(c) ==> r == c
  {
    if AllowedChar(c) then c else '_'
  }

  function Last<T>(xs: seq<T>): T
    requires |xs| > 0
  {
    xs[|xs| - 1]
  }

  /** `split('/').last()`: the text after the last `/` (the whole text when there is none). */
  function LastSegment(s: string): (r: string)
    ensures '/' !in r
  {
    Last(Split(s, '/'))
  }

  /** `replace("..", "")`. */
  function RemoveDotDot(s: string): string {
    ReplaceAll(s, "..", "")
  }

  /** No two adjacent dots. */
  predicate NoDotPair(s: string) {
    forall i :: 0 <= i < |s| - 1 ==> !(s[i] == '.' && s[i + 1] == '.')
  }

  /** The character map applied to every character. */
  function MapChars(t: string): (r: string)
    ensures |r| == |t| && forall i :: 0 <= i < |t| ==> r[i] == MapChar(t[i])
  {
    seq(|t|, i requires 0 <= i < |t| => MapChar(t[i]))
  }

  /** `sanitize_file_name`. */
  function SanitizeFileName(name: string): (r: string)
    ensures forall i :: 0 <= i < |r| ==> AllowedChar(r[i])
    ensures !Contains(r, "..")
  {
    var r := MapChars(Trim(RemoveDotDot(LastSegment(RepoScan.RelPath(name)))));
    SanitizeNoDotPair(name);
    NoDotPairNotContains(r);
    r
  }

  /** A string that does not start with a dot keeps its first character through the removal. */
  lemma {:induction false} RemoveDotDotHead(s: string)
    requires |s| > 0 && s[0] != '.'
    ensures |RemoveDotDot(s)| > 0 && RemoveDotDot(s)[0] == s[0]
  {
  }

  /**
   * Left-to-right removal leaves no two adjacent dots: a dot that survives
   * is not followed by another, or the scan would have removed the pair.
   */
  lemma {:induction false} RemoveDotDotNoPair(s: string)
    ensures NoDotPair(RemoveDotDot(s))
    decreases |s|
  {
    if StartsWith(s, "..") {
      RemoveDotDotNoPair(s[2..]);
    } else if |s| > 0 {
      RemoveDotDotNoPair(s[1..]);
      var rest := RemoveDotDot(s[1..]);
      var r := RemoveDotDot(s);
      assert r == [s[0]] + rest;
      if |s| > 1 && s[0] == '.' {
        assert s[1] != '.' by { assert s[..2] != ".."; }
        RemoveDotDotHead(s[1..]);
      }
      forall i | 0 <= i < |r| - 1 ensures !(r[i] == '.' && r[i + 1] == '.') {
        if i > 0 {
          assert r[i] == rest[i - 1] && r[i + 1] == rest[i];
        }
      }
    }
  }

  lemma {:induction false} SanitizeNoDotPair(name: string)
    ensures NoDotPair(MapChars(Trim(RemoveDotDot(LastSegment(RepoScan.RelPath(name))))))
  {
    var u := RemoveDotDot(LastSegment(RepoScan.RelPath(name)));
    RemoveDotDotNoPair(LastSegment(RepoScan.RelPath(name)));
    var a, b := TrimSlice(u);
    var t := Trim(u);
    assert forall k :: 0 <= k < |t| ==> t[k] == u[a + k];
  }

  lemma {:induction false} NoDotPairNotContains(s: string)
    requires NoDotPair(s)
    ensures !Contains(s, "..")
    decreases |s|
  {
    if |s| >= 2 {
      assert !(s[0] == '.' && s[1] == '.');
      assert s[..2] != "..";
    }
    if |s| > 0 {
      assert NoDotPair(s[1..]) by {
        forall i | 0 <= i < |s[1..]| - 1 ensures !(s[1..][i] == '.' && s[1..][i + 1] == '.') {
          assert s[1..][i] == s[i + 1] && s[1..][i + 1] == s[i + 2];
        }
      }
      NoDotPairNotContains(s[1..]);
    }
  }

  /** Splitting at the first separator. */
  lemma {:induction false} SplitFirst(s: string, c: char, k: nat)
    requires FindChar(s, c) == Some(k)
    ensures Split(s, c) == [s[..k]] + Split(s[k + 1..], c)
  {
  }

  /** A separator in the prefix is found there, whatever follows. */
  lemma {:induction false} FindCharPrefix(a: string, x: string, c: char)
    requires c in a
    ensures FindChar(a + x, c) == FindChar(a, c)
    decreases |a|
  {
    if a[0] != c {
      assert (a + x)[1..] == a[1..] + x;
      FindCharPrefix(a[1..], x, c);
    }
  }

  lemma {:induction false} SplitLastCons(x: string, rest: seq<string>)
    requires |rest| > 0
    ensures Last([x] + rest) == Last(rest)
  {
  }

  /** The last part of a split is whatever follows the last separator. */
  lemma {:induction false} SplitLastAfter(a: string, c: char, b: string)
    requires c !in b
    ensures Last(Split(a + [c] + b, c)) == b
    decreases |a|
  {
    if c !in a {
      SplitAt(a, c, b);
      SplitNoSeparator(b, c);
    } else {
      SplitLastAfterStep(a, c, b);
    }
  }

  lemma {:induction false} SplitLastAfterStep(a: string, c: char, b: string)
    requires c !in b && c in a
    ensures Last(Split(a + [c] + b, c)) == b
    decreases |a|, 0
  {
    var s := a + [c] + b;
    var k := FindChar(a, c).value;
    var t := a[k + 1..];
    assert s == a + ([c] + b);
    FindCharPrefix(a, [c] + b, c);
    SplitFirst(s, c, k);
    assert s[k + 1..] == t + [c] + b;
    SplitLastAfter(t, c, b);
    SplitLastCons(s[..k], Split(t + [c] + b, c));
  }

  /** Backslash normalisation commutes with appending a `/` and a backslash-free name. */
  lemma {:induction false} RelPathAppend(a: string, b: string)
    requires '\\' !in b
    ensures RepoScan.RelPath(a + "/" + b) == RepoScan.RelPath(a) + "/" + b
  {
    ReplaceOneChar(a + "/" + b, '\\', '/');
    ReplaceOneChar(a, '\\', '/');
    var lhs := RepoScan.RelPath(a + "/" + b);
    var rhs := RepoScan.RelPath(a) + "/" + b;
    assert |lhs| == |rhs|;
    forall i | 0 <= i < |lhs| ensures lhs[i] == rhs[i] {
      if i > |a| {
        assert (a + "/" + b)[i] == b[i - |a| - 1];
      }
    }
  }

  lemma {:induction false} RelPathFixed(s: string)
    requires '\\' !in s
    ensures RepoScan.RelPath(s) == s
  {
    ReplaceOneChar(s, '\\', '/');
  }

  /** The last segment of `dir/base` or of `dir` backslash `base` is `base`. */
  lemma {:induction false} LastSegmentAfterSeparator(dir: string, base: string)
    requires '/' !in base && '\\' !in base
    ensures LastSegment(RepoScan.RelPath(dir + "/" + base)) == base
    ensures LastSegment(RepoScan.RelPath(dir + "\\" + base)) == base
  {
    RelPathAppend(dir, base);
    SplitLastAfter(RepoScan.RelPath(dir), '/', base);
    RelPathSeparators(dir, base);
  }

  /** A backslash and a `/` normalise to the same path. */
  lemma {:induction false} RelPathSeparators(dir: string, base: string)
    ensures RepoScan.RelPath(dir + "\\" + base) == RepoScan.RelPath(dir + "/" + base)
  {
    var x := dir + "\\" + base;
    var y := dir + "/" + base;
    ReplaceOneChar(x, '\\', '/');
    ReplaceOneChar(y, '\\', '/');
    assert |x| == |y|;
    forall i | 0 <= i < |x| ensures (if x[i] == '\\' then '/' else x[i]) == (if y[i] == '\\' then '/' else y[i]) {
      if i != |dir| {
        assert x[i] == y[i];
      }
    }
  }

  /** Only the text after the last separator matters, whatever comes before it. */
  lemma {:induction false} SanitizeKeepsLastSegment(dir: string, base: string)
    requires '/' !in base && '\\' !in base
    ensures SanitizeFileName(dir + "/" + base) == SanitizeFileName(base)
    ensures SanitizeFileName(dir + "\\" + base) == SanitizeFileName(base)
  {
    LastSegmentAfterSeparator(dir, base);
    RelPathFixed(base);
    SplitNoSeparator(base, '/');
    assert LastSegment(RepoScan.RelPath(base)) == base;
  }

  /** Allowed characters are neither separators nor whitespace. */
  lemma {:induction false} AllowedIsPlain(r: string)
    requires forall i :: 0 <= i < |r| ==> AllowedChar(r[i])
    ensures '\\' !in r && '/' !in r
    ensures forall i :: 0 <= i < |r| ==> !IsWhitespace(r[i])
  {
    forall i | 0 <= i < |r| ensures r[i] != '\\' && r[i] != '/' && !IsWhitespace(r[i]) {
      assert AllowedChar(r[i]);
    }
  }

  /** A name of allowed characters without `..` is its own sanitised form. */
  lemma {:induction false} SanitizeFixed(r: string)
    requires forall i :: 0 <= i < |r| ==> AllowedChar(r[i])
    requires !Contains(r, "..")
    ensures SanitizeFileName(r) == r
  {
    AllowedIsPlain(r);
    RelPathFixed(r);
    SplitNoSeparator(r, '/');
    assert LastSegment(RepoScan.RelPath(r)) == r;
    ReplaceAbsent(r, "..", "");
    assert RemoveDotDot(r) == r;
    TrimNoWs(r);
    assert Trim(r) == r;
    assert MapChars(r) == r;
  }

  /** A sanitised name passes through sanitising unchanged. */
  lemma {:induction false} SanitizeIdempotent(name: string)
    ensures SanitizeFileName(SanitizeFileName(name)) == SanitizeFileName(name)
  {
    SanitizeFixed(SanitizeFileName(name));
  }

  // ---------------------------------------------------------------------------
  // unique_file_name
  // ---------------------------------------------------------------------------

  /** The position of the last occurrence of `c`. */
  function LastIndexOf(s: string, c: char): (r: Option<nat>)
    ensures r.Some? ==> r.value < |s| && s[r.value] == c && c !in s[r.value + 1..]
    ensures r.None? <==> c !in s
    decreases |s|
  {
    if |s| == 0 then None
    else if s[|s| - 1] == c then Some(|s| - 1)
    else
      assert forall x :: x in s <==> x in s[..|s| - 1] || x == s[|s| - 1] by {
        assert s == s[..|s| - 1] + [s[|s| - 1]];
      }
      match LastIndexOf(s[..|s| - 1], c)
      case None => None
      case Some(k) => assert s[k + 1..] == s[..|s| - 1][k + 1..] + [s[|s| - 1]]; Some(k)
  }

  /**
   * `rsplit_once('.')` kept only when both sides are non-empty: the base
   * and the extension with its dot, or the whole name and no extension.
   */
  function SplitExtension(name: string): (r: (string, string))
    ensures r.0 + r.1 == name
    ensures r.1 != [] ==> |r.0| > 0 && |r.1| >= 2 && r.1[0] == '.' && '.' !in r.1[1..]
  {
    match LastIndexOf(name, '.')
    case Some(k) =>
      if 0 < k && k < |name| - 1 then
        assert name[..k] + name[k..] == name;
        assert name[k..][1..] == name[k + 1..];
        (name[..k], name[k..])
      else (name, [])
    case None => (name, [])
  }

  /** The name `unique_file_name` builds from a timestamp in milliseconds and a counter value. */
  function UniqueName(name: string, ts: nat, n: nat): string {
    if name == [] then []
    else
      var (base, ext) := SplitExtension(name);
      base + Stamp(ts, n) + ext
  }

  /** The `_ts_seq` part inserted between the base and the extension. */
  function Stamp(ts: nat, n: nat): (r: string)
    ensures |r| > 0 && r[0] == '_'
  {
    "_" + NatToString(ts) + "_" + NatToString(n)
  }

  /** The stamp is made of digits and underscores. */
  lemma {:induction false} StampChars(ts: nat, n: nat)
    ensures var r := Stamp(ts, n); forall i :: 0 <= i < |r| ==> r[i] == '_' || IsDigit(r[i])
  {
    var a := NatToString(ts);
    var b := NatToString(n);
    var r := Stamp(ts, n);
    assert forall i :: 1 <= i < 1 + |a| ==> r[i] == a[i - 1];
    assert forall i :: 2 + |a| <= i < |r| ==> r[i] == b[i - 2 - |a|];
  }

  lemma {:induction false} AffixesOf(x: string, y: string)
    ensures StartsWith(x + y, x) && EndsWith(x + y, y)
  {
    assert (x + y)[..|x|] == x;
    assert (x + y)[|x|..] == y;
  }

  /** A non-empty name is its base, the stamp and its extension. */
  lemma {:induction false} UniqueNameShape(name: string, ts: nat, n: nat)
    requires name != []
    ensures UniqueName(name, ts, n) == SplitExtension(name).0 + Stamp(ts, n) + SplitExtension(name).1
  {
  }

  lemma {:induction false} SplitExtensionAt(name: string, k: nat)
    requires LastIndexOf(name, '.') == Some(k) && 0 < k < |name| - 1
    ensures SplitExtension(name) == (name[..k], name[k..])
  {
  }

  lemma {:induction false} StartsWithUnderscore(base: string, stamp: string, ext: string)
    requires |stamp| > 0 && stamp[0] == '_'
    ensures StartsWith(base + stamp + ext, base + "_")
  {
    var r := base + stamp + ext;
    assert r[..|base| + 1] == base + "_" by {
      forall i | 0 <= i < |base| + 1 ensures r[..|base| + 1][i] == (base + "_")[i] {
        if i == |base| {
          assert r[i] == stamp[0];
        }
      }
    }
  }

  /** The extension survives: the unique name ends with it and starts with the base and `_`. */
  lemma {:induction false} UniqueNameKeepsExtension(name: string, ts: nat, n: nat, k: nat)
    requires LastIndexOf(name, '.') == Some(k) && 0 < k < |name| - 1
    ensures EndsWith(UniqueName(name, ts, n), name[k..])
    ensures StartsWith(UniqueName(name, ts, n), name[..k] + "_")
  {
    SplitExtensionAt(name, k);
    UniqueNameShape(name, ts, n);
    AffixesOf(name[..k] + Stamp(ts, n), name[k..]);
    StartsWithUnderscore(name[..k], Stamp(ts, n), name[k..]);
  }

  /** Without a usable dot the whole name is the base and the counter ends the name. */
  lemma {:induction false} UniqueNameWithoutExtension(name: string, ts: nat, n: nat)
    requires name != [] && SplitExtension(name).1 == []
    ensures StartsWith(UniqueName(name, ts, n), name + "_")
    ensures EndsWith(UniqueName(name, ts, n), "_" + NatToString(n))
  {
    UniqueNameShape(name, ts, n);
    var stamp := Stamp(ts, n);
    assert name + stamp + [] == name + stamp;
    StartsWithUnderscore(name, stamp, []);
    assert stamp == ("_" + NatToString(ts)) + ("_" + NatToString(n));
    AffixesOf("_" + NatToString(ts), "_" + NatToString(n));
    EndsWithAppend(name, stamp, "_" + NatToString(n));
  }

  lemma {:induction false} EndsWithAppend(x: string, y: string, z: string)
    requires EndsWith(y, z)
    ensures EndsWith(x + y, z)
  {
    assert (x + y)[|x + y| - |z|..] == y[|y| - |z|..];
  }

  lemma {:induction false} ConcatCancel(pre: string, a: string, b: string, post: string)
    requires pre + a + post == pre + b + post
    ensures a == b
  {
    assert |a| == |b|;
    assert a == (pre + a + post)[|pre|..|pre| + |a|];
    assert b == (pre + b + post)[|pre|..|pre| + |b|];
  }

  /** Different counter values give different stamps. */
  lemma {:induction false} StampInjective(ts: nat, n1: nat, n2: nat)
    requires n1 != n2
    ensures Stamp(ts, n1) != Stamp(ts, n2)
  {
    var pre := "_" + NatToString(ts) + "_";
    if Stamp(ts, n1) == Stamp(ts, n2) {
      assert pre + NatToString(n1) + [] == pre + NatToString(n2) + [];
      ConcatCancel(pre, NatToString(n1), NatToString(n2), []);
      NatToStringInjective(n1, n2);
      assert false;
    }
  }

  /** For the same name and timestamp, different counter values give different names. */
  lemma {:induction false} UniqueNameInjective(name: string, ts: nat, n1: nat, n2: nat)
    requires name != [] && n1 != n2
    ensures UniqueName(name, ts, n1) != UniqueName(name, ts, n2)
  {
    var (base, ext) := SplitExtension(name);
    UniqueNameShape(name, ts, n1);
    UniqueNameShape(name, ts, n2);
    StampInjective(ts, n1, n2);
    if base + Stamp(ts, n1) + ext == base + Stamp(ts, n2) + ext {
      ConcatCancel(base, Stamp(ts, n1), Stamp(ts, n2), ext);
      assert false;
    }
  }

  /** A name made only of allowed characters stays so: the additions are digits and `_`. */
  lemma {:induction false} UniqueNameAllowed(name: string, ts: nat, n: nat)
    requires forall i :: 0 <= i < |name| ==> AllowedChar(name[i])
    ensures var r := UniqueName(name, ts, n); forall i :: 0 <= i < |r| ==> AllowedChar(r[i])
  {
    if name != [] {
      var (base, ext) := SplitExtension(name);
      var stamp := Stamp(ts, n);
      StampChars(ts, n);
      var r := UniqueName(name, ts, n);
      assert r == base + stamp + ext;
      forall i | 0 <= i < |r| ensures AllowedChar(r[i]) {
        if i < |base| {
          assert r[i] == name[i];
        } else if |r| - |ext| <= i {
          assert r[i] == ext[i - (|r| - |ext|)] == name[|base| + i - (|r| - |ext|)];
        } else {
          assert r[i] == stamp[i - |base|];
        }
      }
    }
  }

  const U64: nat := 0x1_0000_0000_0000_0000

  /** `FILE_SEQ`: an unsigned 64-bit counter; `fetch_add(1)` wraps around. */
  class FileSeq {
    var value: nat

    predicate Valid()
      reads this
    {
      value < U64
    }

    constructor()
      ensures Valid() && value == 0
    {
      value := 0;
    }

    /** `unique_file_name`: an empty name gives an empty result and leaves the counter alone. */
    method UniqueFileName(name: string, ts: nat) returns (r: string)
      requires Valid()
      modifies this
      ensures Valid()
      ensures r == UniqueName(name, ts, old(value))
      ensures value == if name == [] then old(value) else (old(value) + 1) % U64
    {
      if name == [] {
        return [];
      }
      var (base, ext) := SplitExtension(name);
      var n := value;
      value := (value + 1) % U64;
      r := base + Stamp(ts, n) + ext;
    }
  }

  /** Two names taken in a row for the same non-empty name and timestamp differ. */
  method TwoUniqueNamesDiffer(counter: FileSeq, name: string, ts: nat) returns (a: string, b: string)
    requires counter.Valid() && name != []
    modifies counter
    ensures a != b
  {
    a := counter.UniqueFileName(name, ts);
    b := counter.UniqueFileName(name, ts);
    UniqueNameInjective(name, ts, old(counter.value), (old(counter.value) + 1) % U64);
  }

  // ---------------------------------------------------------------------------
  // resolve_target
  // ---------------------------------------------------------------------------

  datatype SaveTarget = SaveTarget(kind: string, path: string, uriPrefix: string)

  /** `resolve_target`: images to the picture directory, videos to the media directory, the rest to files. */
  function ResolveTarget(cfg: Config.AppConfig, contentType: Option<string>): (r: SaveTarget)
    ensures r.kind == "picture" <==> contentType.Some? && StartsWith(contentType.value, "image/")
    ensures r.kind == "media" <==>
      contentType.Some? && !StartsWith(contentType.value, "image/") && StartsWith(contentType.value, "video/")
    ensures r.kind == "file" <==>
      contentType.None? || !(StartsWith(contentType.value, "image/") || StartsWith(contentType.value, "video/"))
    ensures r.kind == "picture" ==> r.path == Config.PicturePath(cfg)
    ensures r.kind == "media" ==> r.path == Config.MediaPath(cfg)
    ensures r.kind == "file" ==> r.path == Config.FilePath(cfg)
    ensures r.uriPrefix == "/files/" + r.kind
  {
    match contentType
    case Some(v) =>
      if StartsWith(v, "image/") then SaveTarget("picture", Config.PicturePath(cfg), "/files/picture")
      else if StartsWith(v, "video/") then SaveTarget("media", Config.MediaPath(cfg), "/files/media")
      else SaveTarget("file", Config.FilePath(cfg), "/files/file")
    case None => SaveTarget("file", Config.FilePath(cfg), "/files/file")
  }
}

/**
 * The string operations of the Rust standard library that the core relies on,
 * over `seq<char>`: ASCII digit tests, `u32`/`i32` parsing, decimal and two-digit zero-padded
 * formatting, `trim`, `to_ascii_lowercase`, `starts_with`/`ends_with`/`contains`,
 * `find(char)`, `split(char)` and `replace(&str, &str)`.
 */
module Strings {
  import opened Wrappers

  // ---------------------------------------------------------------------------
  // Digits and numbers
  // ---------------------------------------------------------------------------

  predicate IsDigit(c: char) { '0' <= c <= '9' }

  predicate AllDigits(s: string) {
    forall i :: 0 <= i < |s| ==> IsDigit(s[i])
  }

  function DigitChar(d: nat): (c: char)
    requires d < 10
    ensures IsDigit(c)
  {
    ('0' as int + d) as char
  }

  /** The value of a string of ASCII digits, read most significant first. */
  function DigitsValue(s: string): nat
    requires AllDigits(s)
    decreases |s|
  {
    if |s| == 0 then 0
    else DigitsValue(s[..|s| - 1]) * 10 + (s[|s| - 1] as int - '0' as int)
  }

  /** Rust's `n.to_string()` for an unsigned integer. */
  function NatToString(n: nat): (r: string)
    ensures |r| >= 1 && AllDigits(r)
    decreases n
  {
    if n < 10 then [DigitChar(n)] else NatToString(n / 10) + [DigitChar(n % 10)]
  }

  /** Rust's two-digit zero-padded formatting of an unsigned integer. */
  function ZeroPad2(n: nat): (r: string)
    ensures AllDigits(r)
  {
    if n < 10 then ['0'] + NatToString(n) else NatToString(n)
  }

  lemma {:induction false} NatToStringValue(n: nat)
    ensures DigitsValue(NatToString(n)) == n
    decreases n
  {
    var r := NatToString(n);
    if n >= 10 {
      NatToStringValue(n / 10);
      assert r[..|r| - 1] == NatToString(n / 10);
    }
  }

  lemma NatToStringInjective(a: nat, b: nat)
    requires NatToString(a) == NatToString(b)
    ensures a == b
  {
    NatToStringValue(a);
    NatToStringValue(b);
  }

  lemma NatToStringLength(n: nat)
    ensures n < 10 ==> |NatToString(n)| == 1
    ensures 10 <= n < 100 ==> |NatToString(n)| == 2
  {
  }

  function Pow10(n: nat): (r: nat)
    ensures r >= 1
  {
    if n == 0 then 1 else 10 * Pow10(n - 1)
  }

  lemma {:induction false} Pow10Monotone(a: nat, b: nat)
    requires a <= b
    ensures Pow10(a) <= Pow10(b)
    decreases b
  {
    if a < b {
      Pow10Monotone(a, b - 1);
    }
  }

  lemma {:induction false} DigitsValueBound(s: string)
    requires AllDigits(s)
    ensures DigitsValue(s) < Pow10(|s|)
    decreases |s|
  {
    if |s| > 0 {
      DigitsValueBound(s[..|s| - 1]);
      assert IsDigit(s[|s| - 1]);
    }
  }

  /** The two-digit padding of a number below 100 is exactly two digits and reads back as the number. */
  lemma ZeroPad2Small(n: nat)
    requires n < 100
    ensures |ZeroPad2(n)| == 2
    ensures DigitsValue(ZeroPad2(n)) == n
  {
    NatToStringValue(n);
    var r := ZeroPad2(n);
    if n < 10 {
      assert r[..1] == ['0'];
    }
  }

  /** A two-digit string is its own two-digit padding. */
  lemma ZeroPad2OfTwoDigits(s: string)
    requires |s| == 2 && AllDigits(s)
    ensures ZeroPad2(DigitsValue(s)) == s
  {
    var n := DigitsValue(s);
    var p := s[..1];
    assert p[..0] == [] && p[0] == s[0] && s[..|s| - 1] == p;
    assert DigitsValue(p) == s[0] as int - '0' as int;
    var a, b := s[0] as int - '0' as int, s[1] as int - '0' as int;
    assert n == a * 10 + b;
    assert DigitChar(a) == s[0] && DigitChar(b) == s[1];
    if n < 10 {
      assert a == 0 && s[0] == '0';
      assert ZeroPad2(n) == ['0', DigitChar(b)];
    } else {
      assert n / 10 == a && n % 10 == b;
      assert NatToString(n) == [DigitChar(a), DigitChar(b)];
    }
  }

  /** Rust's `str::parse::<u32>()`: an optional `+`, then at least one ASCII digit, value below 2^32. */
  function ParseU32(s: string): (r: Option<nat>)
    ensures r.Some? ==> r.value < 0x1_0000_0000
  {
    var digits := if |s| > 0 && s[0] == '+' then s[1..] else s;
    if |digits| > 0 && AllDigits(digits) && DigitsValue(digits) < 0x1_0000_0000
    then Some(DigitsValue(digits))
    else None
  }

  /** Rust's `str::parse::<i32>()`: an optional sign, then at least one ASCII digit, value in range. */
  function ParseI32(s: string): (r: Option<int>)
    ensures r.Some? ==> -0x8000_0000 <= r.value < 0x8000_0000
  {
    var negative := |s| > 0 && s[0] == '-';
    var digits := if |s| > 0 && (s[0] == '+' || s[0] == '-') then s[1..] else s;
    if |digits| > 0 && AllDigits(digits) then
      var v := if negative then -(DigitsValue(digits) as int) else DigitsValue(digits) as int;
      if -0x8000_0000 <= v < 0x8000_0000 then Some(v) else None
    else None
  }

  lemma ParseU32Digits(s: string)
    requires 0 < |s| <= 9 && AllDigits(s)
    ensures ParseU32(s) == Some(DigitsValue(s))
  {
    DigitsValueBound(s);
    Pow10Monotone(|s|, 9);
    assert s[0] != '+';
  }

  lemma ParseI32Digits(s: string)
    requires 0 < |s| <= 9 && AllDigits(s)
    ensures ParseI32(s) == Some(DigitsValue(s) as int)
  {
    DigitsValueBound(s);
    Pow10Monotone(|s|, 9);
    assert s[0] != '+' && s[0] != '-';
  }

  // ---------------------------------------------------------------------------
  // Whitespace, case, prefixes
  // ---------------------------------------------------------------------------

  /** Rust's `char::is_whitespace`: the Unicode White_Space property. */
  predicate IsWhitespace(c: char) {
    ('\t' <= c <= '\r') || c == ' ' || c == '\U{85}' || c == '\U{A0}' || c == '\U{1680}'
    || ('\U{2000}' <= c <= '\U{200A}') || c == '\U{2028}' || c == '\U{2029}'
    || c == '\U{202F}' || c == '\U{205F}' || c == '\U{3000}'
  }

  /** Number of leading whitespace characters. */
  function LeadingWs(s: string): (k: nat)
    ensures k <= |s|
    ensures forall i :: 0 <= i < k ==> IsWhitespace(s[i])
    ensures k < |s| ==> !IsWhitespace(s[k])
    decreases |s|
  {
    if |s| > 0 && IsWhitespace(s[0]) then 1 + LeadingWs(s[1..]) else 0
  }

  /** Length of `s` without its trailing whitespace. */
  function TrailingEnd(s: string): (k: nat)
    ensures k <= |s|
    ensures forall i :: k <= i < |s| ==> IsWhitespace(s[i])
    ensures 0 < k ==> !IsWhitespace(s[k - 1])
    decreases |s|
  {
    if |s| > 0 && IsWhitespace(s[|s| - 1]) then TrailingEnd(s[..|s| - 1]) else |s|
  }

  /** Rust's `str::trim`. */
  function Trim(s: string): (r: string)
    ensures |r| <= |s|
  {
    var t := s[LeadingWs(s)..];
    t[..TrailingEnd(t)]
  }

  /** `s.trim().is_empty()`. */
  predicate IsBlank(s: string) {
    Trim(s) == []
  }

  lemma TrimShape(s: string)
    ensures |Trim(s)| > 0 ==> !IsWhitespace(Trim(s)[0]) && !IsWhitespace(Trim(s)[|Trim(s)| - 1])
    ensures IsBlank(s) <==> forall i :: 0 <= i < |s| ==> IsWhitespace(s[i])
  {
    var k := LeadingWs(s);
    var t := s[k..];
    var e := TrailingEnd(t);
    if e == 0 {
      assert k == |s|;
    }
  }

  /** Trimming a string that has no leading or trailing whitespace changes nothing. */
  lemma TrimNoWs(s: string)
    requires |s| > 0 ==> !IsWhitespace(s[0]) && !IsWhitespace(s[|s| - 1])
    ensures Trim(s) == s
  {
    assert s[0..] == s;
  }

  lemma TrimIdempotent(s: string)
    ensures Trim(Trim(s)) == Trim(s)
  {
    TrimShape(s);
    TrimNoWs(Trim(s));
  }

  /** The trimmed string is a contiguous slice of the original. */
  lemma TrimSlice(s: string) returns (i: nat, j: nat)
    ensures i <= j <= |s| && Trim(s) == s[i..j]
  {
    i := LeadingWs(s);
    j := i + TrailingEnd(s[i..]);
    assert s[i..][..j - i] == s[i..j];
  }

  /** `iter().map(|v| v.trim().to_string()).filter(|v| !v.is_empty())`: trim every item and drop the empty ones, keeping order. */
  function TrimNonBlank(xs: seq<string>): (r: seq<string>)
    ensures |r| <= |xs|
    ensures forall i :: 0 <= i < |r| ==> |r[i]| > 0 && Trim(r[i]) == r[i]
    ensures |r| == 0 <==> forall i :: 0 <= i < |xs| ==> IsBlank(xs[i])
    decreases |xs|
  {
    if |xs| == 0 then []
    else
      var rest := TrimNonBlank(xs[1..]);
      assert forall i :: 1 <= i < |xs| ==> xs[i] == xs[1..][i - 1];
      TrimIdempotent(xs[0]);
      if IsBlank(xs[0]) then rest else [Trim(xs[0])] + rest
  }

  /** The kept items are exactly the trimmed non-blank inputs. */
  lemma {:induction false} TrimNonBlankMembers(xs: seq<string>, x: string)
    ensures x in TrimNonBlank(xs) <==> exists i :: 0 <= i < |xs| && !IsBlank(xs[i]) && x == Trim(xs[i])
    decreases |xs|
  {
    if |xs| > 0 {
      TrimNonBlankMembers(xs[1..], x);
      if exists i :: 0 <= i < |xs| && !IsBlank(xs[i]) && x == Trim(xs[i]) {
        var i :| 0 <= i < |xs| && !IsBlank(xs[i]) && x == Trim(xs[i]);
        if i > 0 {
          assert xs[1..][i - 1] == xs[i];
        }
      }
    }
  }

  /** Cleaning an already cleaned list changes nothing. */
  lemma {:induction false} TrimNonBlankIdempotent(xs: seq<string>)
    ensures TrimNonBlank(TrimNonBlank(xs)) == TrimNonBlank(xs)
    decreases |xs|
  {
    if |xs| > 0 {
      TrimNonBlankIdempotent(xs[1..]);
      var rest := TrimNonBlank(xs[1..]);
      if !IsBlank(xs[0]) {
        var r := [Trim(xs[0])] + rest;
        TrimIdempotent(xs[0]);
        assert r[1..] == rest;
        assert !IsBlank(r[0]);
      }
    }
  }

  predicate IsAsciiUpper(c: char) { 'A' <= c <= 'Z' }

  function ToAsciiLowerChar(c: char): char {
    if IsAsciiUpper(c) then (c as int + 32) as char else c
  }

  /** Rust's `to_ascii_lowercase`. */
  function ToAsciiLower(s: string): (r: string)
    ensures |r| == |s|
    ensures forall i :: 0 <= i < |s| ==> r[i] == ToAsciiLowerChar(s[i])
  {
    seq(|s|, i requires 0 <= i < |s| => ToAsciiLowerChar(s[i]))
  }

  predicate StartsWith(s: string, p: string) {
    |p| <= |s| && s[..|p|] == p
  }

  predicate EndsWith(s: string, p: string) {
    |p| <= |s| && s[|s| - |p|..] == p
  }

  /** Rust's `str::contains(&str)`: some position of `s` starts with `p`. */
  predicate Contains(s: string, p: string)
    decreases |s|
  {
    StartsWith(s, p) || (|s| > 0 && Contains(s[1..], p))
  }

  lemma {:induction false} ContainsMiddle(a: string, p: string, b: string)
    ensures Contains(a + p + b, p)
    decreases |a|
  {
    if |a| == 0 {
      assert (a + p + b)[..|p|] == p;
    } else {
      ContainsMiddle(a[1..], p, b);
      assert (a + p + b)[1..] == a[1..] + p + b;
    }
  }

  lemma {:induction false} ContainsAt(s: string, p: string, i: nat)
    requires i + |p| <= |s| && s[i..i + |p|] == p
    ensures Contains(s, p)
    decreases i
  {
    if i > 0 {
      assert s[1..][i - 1..i - 1 + |p|] == s[i..i + |p|];
      ContainsAt(s[1..], p, i - 1);
    }
  }

  lemma {:induction false} ContainsWitness(s: string, p: string) returns (i: nat)
    requires Contains(s, p)
    ensures i + |p| <= |s| && s[i..i + |p|] == p
    decreases |s|
  {
    if StartsWith(s, p) {
      i := 0;
    } else {
      var k := ContainsWitness(s[1..], p);
      i := k + 1;
      assert s[i..i + |p|] == s[1..][k..k + |p|];
    }
  }

  // ---------------------------------------------------------------------------
  // find, split
  // ---------------------------------------------------------------------------

  /** Rust's `str::find(char)`: index of the first occurrence. */
  function FindChar(s: string, c: char): (r: Option<nat>)
    ensures r.Some? ==> r.value < |s| && s[r.value] == c && c !in s[..r.value]
    ensures r.None? <==> c !in s
    decreases |s|
  {
    if |s| == 0 then None
    else if s[0] == c then Some(0)
    else match FindChar(s[1..], c)
      case None => None
      case Some(k) => assert s[1..][..k] == s[1..k + 1]; Some(k + 1)
  }

  lemma FindCharAfter(u: string, w: string, c: char)
    requires c !in u && |w| > 0 && w[0] == c
    ensures FindChar(u + w, c) == Some(|u|)
  {
    var r := FindChar(u + w, c);
    assert (u + w)[|u|] == c;
  }

  /** Rust's `str::split(char)`: always at least one part; separators are not kept. */
  function Split(s: string, c: char): (parts: seq<string>)
    ensures |parts| >= 1
    ensures forall k :: 0 <= k < |parts| ==> c !in parts[k]
    decreases |s|
  {
    match FindChar(s, c)
    case None => [s]
    case Some(k) => [s[..k]] + Split(s[k + 1..], c)
  }

  /** Rust's `join` with a one-character separator. */
  function Join(parts: seq<string>, c: char): string
    decreases |parts|
  {
    if |parts| == 0 then [] else if |parts| == 1 then parts[0] else parts[0] + [c] + Join(parts[1..], c)
  }

  lemma SplitNoSeparator(s: string, c: char)
    requires c !in s
    ensures Split(s, c) == [s]
  {
  }

  lemma SplitAt(a: string, c: char, b: string)
    requires c !in a
    ensures Split(a + [c] + b, c) == [a] + Split(b, c)
  {
    FindCharAfter(a, [c] + b, c);
    assert a + [c] + b == a + ([c] + b);
    assert (a + [c] + b)[..|a|] == a;
    assert (a + [c] + b)[|a| + 1..] == b;
  }

  lemma {:induction false} SplitJoin(parts: seq<string>, c: char)
    requires |parts| >= 1
    requires forall k :: 0 <= k < |parts| ==> c !in parts[k]
    ensures Split(Join(parts, c), c) == parts
    decreases |parts|
  {
    if |parts| == 1 {
      SplitNoSeparator(parts[0], c);
    } else {
      SplitJoin(parts[1..], c);
      SplitAt(parts[0], c, Join(parts[1..], c));
    }
  }

  lemma {:induction false} JoinSplit(s: string, c: char)
    ensures Join(Split(s, c), c) == s
    decreases |s|
  {
    var f := FindChar(s, c);
    if f.Some? {
      var k := f.value;
      var rest := Split(s[k + 1..], c);
      var parts := Split(s, c);
      assert parts == [s[..k]] + rest;
      assert parts[1..] == rest;
      JoinSplit(s[k + 1..], c);
      assert s == s[..k] + [c] + s[k + 1..];
    }
  }

  // ---------------------------------------------------------------------------
  // replace
  // ---------------------------------------------------------------------------

  /**
   * Rust's `str::replace(pat, rep)`: scans left to right and replaces every
   * non-overlapping occurrence; an empty pattern matches before every
   * character and at the end.
   */
  function ReplaceAll(s: string, pat: string, rep: string): string
    decreases |s|
  {
    if |pat| == 0 then
      (if |s| == 0 then rep else rep + [s[0]] + ReplaceAll(s[1..], pat, rep))
    else if StartsWith(s, pat) then rep + ReplaceAll(s[|pat|..], pat, rep)
    else if |s| == 0 then []
    else [s[0]] + ReplaceAll(s[1..], pat, rep)
  }

  /** A prefix free of the pattern's first character passes through unchanged. */
  lemma {:induction false} ReplaceSkip(u: string, x: string, pat: string, rep: string)
    requires |pat| > 0 && pat[0] !in u
    ensures ReplaceAll(u + x, pat, rep) == u + ReplaceAll(x, pat, rep)
    decreases |u|
  {
    if |u| > 0 {
      ReplaceSkip(u[1..], x, pat, rep);
      assert (u + x)[1..] == u[1..] + x;
      assert (u + x)[0] == u[0];
    } else {
      assert u + x == x;
    }
  }

  /** A string that does not contain the pattern is left as it is. */
  lemma {:induction false} ReplaceAbsent(s: string, pat: string, rep: string)
    requires |pat| > 0 && !Contains(s, pat)
    ensures ReplaceAll(s, pat, rep) == s
    decreases |s|
  {
    if |s| > 0 {
      ReplaceAbsent(s[1..], pat, rep);
    }
  }

  /** A string that does not start with the pattern keeps its first character. */
  lemma ReplaceNoMatchHead(s: string, pat: string, rep: string)
    requires |pat| > 0 && |s| > 0 && !StartsWith(s, pat)
    ensures ReplaceAll(s, pat, rep) == [s[0]] + ReplaceAll(s[1..], pat, rep)
  {
  }

  /** A string starting with the pattern has it replaced first. */
  lemma ReplaceHead(pat: string, x: string, rep: string)
    requires |pat| > 0
    ensures ReplaceAll(pat + x, pat, rep) == rep + ReplaceAll(x, pat, rep)
  {
    assert (pat + x)[..|pat|] == pat;
    assert (pat + x)[|pat|..] == x;
  }

  lemma {:induction false} ReplaceShrinks(s: string, pat: string, rep: string)
    requires |pat| > 0 && |rep| <= |pat|
    ensures |ReplaceAll(s, pat, rep)| <= |s|
    decreases |s|
  {
    if StartsWith(s, pat) {
      ReplaceShrinks(s[|pat|..], pat, rep);
    } else if |s| > 0 {
      ReplaceShrinks(s[1..], pat, rep);
    }
  }

  /** Replacing a pattern that ends in `c` with a replacement that ends in `c` keeps a final `c`. */
  lemma {:induction false} ReplaceKeepsLastChar(s: string, pat: string, rep: string, c: char)
    requires |pat| > 0 && |rep| > 0 && pat[|pat| - 1] == c && rep[|rep| - 1] == c
    requires |s| > 0 && s[|s| - 1] == c
    ensures var r := ReplaceAll(s, pat, rep); |r| > 0 && r[|r| - 1] == c
    decreases |s|
  {
    if StartsWith(s, pat) {
      if |s| > |pat| {
        ReplaceKeepsLastChar(s[|pat|..], pat, rep, c);
      } else {
        assert ReplaceAll(s[|pat|..], pat, rep) == [];
      }
    } else if |s| > 1 {
      ReplaceKeepsLastChar(s[1..], pat, rep, c);
    } else {
      assert ReplaceAll(s[1..], pat, rep) == [];
    }
  }

  /** Rust's `replace(char, &str)` with a one-character replacement: a per-character map. */
  lemma {:induction false} ReplaceOneChar(s: string, a: char, b: char)
    ensures ReplaceAll(s, [a], [b]) == seq(|s|, i requires 0 <= i < |s| => if s[i] == a then b else s[i])
    decreases |s|
  {
    if |s| > 0 {
      ReplaceOneChar(s[1..], a, b);
    }
  }

  // ---------------------------------------------------------------------------
  // Lexicographic order of strings (Rust's `Ord for String`)
  // ---------------------------------------------------------------------------

  predicate StrLe(a: string, b: string)
    decreases |a|
  {
    |a| == 0 || (|b| > 0 && (a[0] < b[0] || (a[0] == b[0] && StrLe(a[1..], b[1..]))))
  }

  predicate StrLt(a: string, b: string) {
    StrLe(a, b) && a != b
  }

  lemma {:induction false} StrLeTotal(a: string, b: string)
    ensures StrLe(a, b) || StrLe(b, a)
    decreases |a|
  {
    if |a| > 0 && |b| > 0 && a[0] == b[0] {
      StrLeTotal(a[1..], b[1..]);
    }
  }

  lemma {:induction false} StrLeAntisymmetric(a: string, b: string)
    requires StrLe(a, b) && StrLe(b, a)
    ensures a == b
    decreases |a|
  {
    if |a| > 0 {
      StrLeAntisymmetric(a[1..], b[1..]);
      assert a == [a[0]] + a[1..] && b == [b[0]] + b[1..];
    }
  }

  lemma {:induction false} StrLeTransitive(a: string, b: string, c: string)
    requires StrLe(a, b) && StrLe(b, c)
    ensures StrLe(a, c)
    decreases |a|
  {
    if |a| > 0 && a[0] == b[0] && b[0] == c[0] {
      StrLeTransitive(a[1..], b[1..], c[1..]);
    }
  }

  lemma {:induction false} StrLeReflexive(a: string)
    ensures StrLe(a, a)
    decreases |a|
  {
    if |a| > 0 {
      StrLeReflexive(a[1..]);
    }
  }
}

/**
 * A vocabulary for the text that the renderers work on: a template is a
 * sequence of pieces, each a literal character or one of the eight
 * placeholder tokens. `Text` spells the template out with the tokens of
 * the kinds in `done` already replaced by their values, so each step of a
 * `str::replace` chain moves one kind into `done` (lemma `ReplaceStep`).
 */
module Templates {
  import opened Strings
  import opened Placeholders

  datatype Kind = Year | Month2 | Month1 | Day2 | Day1 | DateKind | Timestamp | Count

  /** The configured token of a kind. */
  function TokenOf(p: DatePlaceholders, k: Kind): string {
    match k
    case Year => p.yyyy
    case Month2 => p.mm
    case Month1 => p.m
    case Day2 => p.dd
    case Day1 => p.d
    case DateKind => p.date
    case Timestamp => p.timestamp
    case Count => p.count
  }

  /** The replacement text of every kind. */
  datatype Values = Values(yyyy: string, mm: string, m: string, dd: string, d: string,
                           date: string, timestamp: string, count: string)

  function ValueOf(v: Values, k: Kind): string {
    match k
    case Year => v.yyyy
    case Month2 => v.mm
    case Month1 => v.m
    case Day2 => v.dd
    case Day1 => v.d
    case DateKind => v.date
    case Timestamp => v.timestamp
    case Count => v.count
  }

  datatype Piece = Lit(c: char) | Tok(kind: Kind)

  function PieceText(x: Piece, p: DatePlaceholders, v: Values, done: set<Kind>): string {
    match x
    case Lit(c) => [c]
    case Tok(k) => if k in done then ValueOf(v, k) else TokenOf(p, k)
  }

  /** The template `ps` with the kinds in `done` replaced by their values and the others left as tokens. */
  function Text(ps: seq<Piece>, p: DatePlaceholders, v: Values, done: set<Kind>): string
    decreases |ps|
  {
    if |ps| == 0 then [] else PieceText(ps[0], p, v, done) + Text(ps[1..], p, v, done)
  }

  /** `{key}` with a key free of braces. */
  predicate PlainToken(t: string) {
    |t| >= 3 && t[0] == '{' && t[|t| - 1] == '}' && '{' !in t[1..] && '}' !in t[..|t| - 1]
  }

  /** Every token is plain and the eight tokens are pairwise distinct. */
  predicate PlainTokens(p: DatePlaceholders) {
    (forall k :: PlainToken(TokenOf(p, k)))
    && (forall k, k' :: k != k' ==> TokenOf(p, k) != TokenOf(p, k'))
  }

  predicate BraceFreeValues(v: Values) {
    forall k :: '{' !in ValueOf(v, k)
  }

  /** No literal of the template opens a brace. */
  predicate BraceFreeLiterals(ps: seq<Piece>) {
    forall i :: 0 <= i < |ps| && ps[i].Lit? ==> ps[i].c != '{'
  }

  /** Every kind. */
  function AllKinds(): set<Kind> {
    {Year, Month2, Month1, Day2, Day1, DateKind, Timestamp, Count}
  }

  /** A plain token never starts with a different plain token. */
  lemma TokenNotPrefix(t: string, u: string, w: string)
    requires PlainToken(t) && PlainToken(u) && t != u
    ensures !StartsWith(u + w, t)
  {
    if |t| < |u| {
      assert u[..|u| - 1][|t| - 1] == u[|t| - 1];
      assert (u + w)[|t| - 1] != t[|t| - 1];
    } else if |t| > |u| {
      assert t[..|t| - 1][|u| - 1] == t[|u| - 1];
      assert |t| > |u + w| || (u + w)[|u| - 1] != t[|u| - 1];
    } else {
      assert |t| > |u + w| || (u + w)[..|t|] == u;
    }
  }

  /** A token of another kind passes through a replacement untouched. */
  lemma OtherTokenStep(u: string, pat: string, rep: string, w: string)
    requires PlainToken(u) && PlainToken(pat) && u != pat
    ensures ReplaceAll(u + w, pat, rep) == u + ReplaceAll(w, pat, rep)
  {
    var s := u + w;
    TokenNotPrefix(pat, u, w);
    ReplaceNoMatchHead(s, pat, rep);
    assert s[0] == u[0] && s[1..] == u[1..] + w;
    SkipAfterHead(u, pat, rep, w);
  }

  lemma SkipAfterHead(u: string, pat: string, rep: string, w: string)
    requires |u| > 0 && |pat| > 0 && pat[0] !in u[1..]
    requires ReplaceAll(u + w, pat, rep) == [u[0]] + ReplaceAll(u[1..] + w, pat, rep)
    ensures ReplaceAll(u + w, pat, rep) == u + ReplaceAll(w, pat, rep)
  {
    var tail := u[1..];
    ReplaceSkip(tail, w, pat, rep);
    assert u == [u[0]] + tail;
  }

  /** Replacing one kind's token in a piece followed by `w`: the piece is settled, the scan goes on in `w`. */
  lemma PieceStep(x: Piece, p: DatePlaceholders, v: Values, done: set<Kind>, k: Kind, w: string)
    requires PlainTokens(p) && BraceFreeValues(v) && (x.Lit? ==> x.c != '{')
    ensures ReplaceAll(PieceText(x, p, v, done) + w, TokenOf(p, k), ValueOf(v, k))
         == PieceText(x, p, v, done + {k}) + ReplaceAll(w, TokenOf(p, k), ValueOf(v, k))
  {
    var pat := TokenOf(p, k);
    var rep := ValueOf(v, k);
    assert PlainToken(pat);
    match x
    case Lit(c) =>
      ReplaceSkip([c], w, pat, rep);
    case Tok(j) =>
      if j in done {
        assert '{' !in ValueOf(v, j);
        ReplaceSkip(ValueOf(v, j), w, pat, rep);
      } else if j == k {
        ReplaceHead(pat, w, rep);
      } else {
        assert PlainToken(TokenOf(p, j)) && TokenOf(p, j) != pat;
        OtherTokenStep(TokenOf(p, j), pat, rep, w);
      }
  }

  /** One `str::replace` replaces exactly the tokens of its kind. */
  lemma {:induction false} ReplaceText(ps: seq<Piece>, p: DatePlaceholders, v: Values, done: set<Kind>, k: Kind)
    requires PlainTokens(p) && BraceFreeValues(v) && BraceFreeLiterals(ps)
    ensures ReplaceAll(Text(ps, p, v, done), TokenOf(p, k), ValueOf(v, k)) == Text(ps, p, v, done + {k})
    decreases |ps|
  {
    if |ps| == 0 {
      assert !StartsWith([], TokenOf(p, k));
    } else {
      assert BraceFreeLiterals(ps[1..]) by {
        forall i | 0 <= i < |ps[1..]| && ps[1..][i].Lit?
          ensures ps[1..][i].c != '{'
        {
          assert ps[1..][i] == ps[i + 1];
        }
      }
      ReplaceText(ps[1..], p, v, done, k);
      PieceStep(ps[0], p, v, done, k, Text(ps[1..], p, v, done));
    }
  }

  /** The text of a concatenation is the concatenation of the texts. */
  lemma {:induction false} TextAppend(a: seq<Piece>, b: seq<Piece>, p: DatePlaceholders, v: Values, done: set<Kind>)
    ensures Text(a + b, p, v, done) == Text(a, p, v, done) + Text(b, p, v, done)
    decreases |a|
  {
    if |a| == 0 {
      assert a + b == b;
    } else {
      assert (a + b)[1..] == a[1..] + b;
      TextAppend(a[1..], b, p, v, done);
    }
  }

  /** A chain of `str::replace` calls, one per kind, in the order of `ks`. */
  function ReplaceChain(s: string, p: DatePlaceholders, v: Values, ks: seq<Kind>): string
    decreases |ks|
  {
    if |ks| == 0 then s else ReplaceChain(ReplaceAll(s, TokenOf(p, ks[0]), ValueOf(v, ks[0])), p, v, ks[1..])
  }

  function KindSet(ks: seq<Kind>): set<Kind>
    decreases |ks|
  {
    if |ks| == 0 then {} else {ks[0]} + KindSet(ks[1..])
  }

  /** A replacement chain replaces exactly the tokens of the kinds it names, whatever the order. */
  lemma {:induction false} ReplaceChainText(ps: seq<Piece>, p: DatePlaceholders, v: Values, done: set<Kind>, ks: seq<Kind>)
    requires PlainTokens(p) && BraceFreeValues(v) && BraceFreeLiterals(ps)
    ensures ReplaceChain(Text(ps, p, v, done), p, v, ks) == Text(ps, p, v, done + KindSet(ks))
    decreases |ks|
  {
    if |ks| > 0 {
      ReplaceText(ps, p, v, done, ks[0]);
      ReplaceChainText(ps, p, v, done + {ks[0]}, ks[1..]);
      assert done + {ks[0]} + KindSet(ks[1..]) == done + KindSet(ks);
    } else {
      assert done + KindSet(ks) == done;
    }
  }
}

/**
 * Ordering by a string key, as Rust's `slice::sort` and SQLite's
 * `order by` with the binary collation produce it: insertion sort on the
 * lexicographic order of the key (comparing characters by code point,
 * which for UTF-8 text is the byte order), and `Vec::dedup`.
 */
module Sorting {
  import opened Strings

  /** The keys never decrease along the sequence. */
  predicate SortedBy<T>(xs: seq<T>, key: T -> string) {
    forall i, j :: 0 <= i < j < |xs| ==> StrLe(key(xs[i]), key(xs[j]))
  }

  /** Insert `x` before the first element whose key is not smaller. */
  function InsertBy<T>(x: T, xs: seq<T>, key: T -> string): (r: seq<T>)
    ensures multiset(r) == multiset(xs) + multiset{x}
    decreases |xs|
  {
    if |xs| == 0 then [x]
    else if StrLe(key(x), key(xs[0])) then [x] + xs
    else
      assert xs == [xs[0]] + xs[1..];
      [xs[0]] + InsertBy(x, xs[1..], key)
  }

  lemma {:induction false} InsertBySorted<T>(x: T, xs: seq<T>, key: T -> string)
    requires SortedBy(xs, key)
    ensures SortedBy(InsertBy(x, xs, key), key)
    decreases |xs|
  {
    var r := InsertBy(x, xs, key);
    if |xs| == 0 {
    } else if StrLe(key(x), key(xs[0])) {
      forall i, j | 0 <= i < j < |r| ensures StrLe(key(r[i]), key(r[j])) {
        if i == 0 {
          if j > 1 { StrLeTransitive(key(x), key(xs[0]), key(xs[j - 1])); }
        } else {
          assert r[i] == xs[i - 1] && r[j] == xs[j - 1];
        }
      }
    } else {
      StrLeTotal(key(x), key(xs[0]));
      assert forall k :: 0 <= k < |xs[1..]| ==> StrLe(key(xs[0]), key(xs[1..][k])) by {
        forall k | 0 <= k < |xs[1..]| ensures StrLe(key(xs[0]), key(xs[1..][k])) {
          assert xs[1..][k] == xs[k + 1];
        }
      }
      var rest := InsertBy(x, xs[1..], key);
      InsertBySorted(x, xs[1..], key);
      assert r == [xs[0]] + rest;
      InsertByLowerBound(xs[0], x, xs[1..], key);
      assert forall j :: 0 <= j < |rest| ==> StrLe(key(xs[0]), key(rest[j]));
      forall i, j | 0 <= i < j < |r| ensures StrLe(key(r[i]), key(r[j])) {
        if i == 0 {
          assert r[0] == xs[0] && r[j] == rest[j - 1];
        } else {
          assert r[i] == rest[i - 1] && r[j] == rest[j - 1];
        }
      }
    }
  }

  /** A key below `x` and below every key of `xs` is below every key after inserting `x`. */
  lemma InsertByLowerBound<T>(y: T, x: T, xs: seq<T>, key: T -> string)
    requires StrLe(key(y), key(x)) && forall k :: 0 <= k < |xs| ==> StrLe(key(y), key(xs[k]))
    ensures forall j :: 0 <= j < |InsertBy(x, xs, key)| ==> StrLe(key(y), key(InsertBy(x, xs, key)[j]))
  {
    var rest := InsertBy(x, xs, key);
    forall j | 0 <= j < |rest| ensures StrLe(key(y), key(rest[j])) {
      assert rest[j] in multiset(rest);
      if rest[j] != x {
        assert rest[j] in multiset(xs);
      }
    }
  }

  /** Insertion sort by key: stable, so elements with equal keys keep their order. */
  function SortBy<T>(xs: seq<T>, key: T -> string): (r: seq<T>)
    ensures multiset(r) == multiset(xs) && |r| == |xs|
    decreases |xs|
  {
    if |xs| == 0 then []
    else
      var init := xs[..|xs| - 1];
      var x := xs[|xs| - 1];
      assert xs == init + [x];
      assert multiset(xs) == multiset(init) + multiset{x};
      var sorted := SortBy(init, key);
      var r := InsertBy(x, sorted, key);
      assert multiset(r) == multiset(sorted) + multiset{x};
      assert |r| == |multiset(r)|;
      r
  }

  /** Sorting keeps exactly the elements it was given. */
  lemma SortByMembers<T>(xs: seq<T>, key: T -> string)
    ensures forall x :: x in SortBy(xs, key) <==> x in xs
  {
    var s := SortBy(xs, key);
    forall x ensures x in s <==> x in xs {
      assert x in s <==> x in multiset(s);
      assert x in xs <==> x in multiset(xs);
    }
  }

  /** The sorted sequence is ordered by key. */
  lemma {:induction false} SortBySorted<T>(xs: seq<T>, key: T -> string)
    ensures SortedBy(SortBy(xs, key), key)
    decreases |xs|
  {
    if |xs| > 0 {
      SortBySorted(xs[..|xs| - 1], key);
      InsertBySorted(xs[|xs| - 1], SortBy(xs[..|xs| - 1], key), key);
    }
  }

  /** `Vec::dedup`: drop every element equal to the one before it. */
  function Dedup(xs: seq<string>): (r: seq<string>)
    ensures |r| <= |xs|
    ensures forall x :: x in r <==> x in xs
    ensures |xs| > 0 ==> |r| > 0 && r[0] == xs[0]
    decreases |xs|
  {
    if |xs| <= 1 then xs
    else
      var rest := Dedup(xs[1..]);
      assert forall x :: x in xs <==> x == xs[0] || x in xs[1..];
      if xs[0] == xs[1] then rest else [xs[0]] + rest
  }

  /** The strings never decrease and no two are equal. */
  predicate StrictlyAscending(xs: seq<string>) {
    forall i, j :: 0 <= i < j < |xs| ==> StrLt(xs[i], xs[j])
  }

  function Id(s: string): string { s }

  /** After sorting, `dedup` leaves every string once, in strictly ascending order. */
  lemma {:induction false} DedupSortedAscending(xs: seq<string>)
    requires SortedBy(xs, Id)
    ensures StrictlyAscending(Dedup(xs))
    decreases |xs|
  {
    if |xs| > 1 {
      var rest := Dedup(xs[1..]);
      assert SortedBy(xs[1..], Id) by {
        forall i, j | 0 <= i < j < |xs[1..]| ensures StrLe(Id(xs[1..][i]), Id(xs[1..][j])) {
          assert xs[1..][i] == xs[i + 1] && xs[1..][j] == xs[j + 1];
        }
      }
      DedupSortedAscending(xs[1..]);
      if xs[0] != xs[1] {
        var r := [xs[0]] + rest;
        assert StrLe(Id(xs[0]), Id(xs[1]));
        forall j | 0 <= j < |rest| ensures StrLt(xs[0], rest[j]) {
          assert rest[j] in xs[1..];
          var k :| 0 <= k < |xs[1..]| && xs[1..][k] == rest[j];
          assert StrLe(Id(xs[0]), Id(xs[k + 1]));
          if xs[0] == rest[j] {
            StrLeAntisymmetric(xs[0], xs[1]);
            assert false;
          }
        }
        forall i, j | 0 <= i < j < |r| ensures StrLt(r[i], r[j]) {
          if i == 0 {
            assert r[j] == rest[j - 1];
          } else {
            assert r[i] == rest[i - 1] && r[j] == rest[j - 1];
          }
        }
      }
    }
  }
}

/**
 * The journal table of journal.rs, held in memory: the rows of the SQLite
 * `journal` table in rowid order, and the next id `autoincrement` hands out.
 * Create is an upsert by date, update refuses a date held by another row,
 * delete works by id, and list is a paged query in one of three orders.
 */
module Journals {
  import opened Wrappers
  import opened Strings
  import opened Sorting

  /** A row of the `journal` table. */
  datatype Journal = Journal(id: int, content: string, date: string, createTime: int, updateTime: int)

  /** The failures the handlers report (database failures are not modelled). */
  datatype JournalError = BadRequest(message: string) | NotFound

  /** The table: rows in ascending id order, and the id the next insert receives. */
  datatype Table = Table(rows: seq<Journal>, nextId: int)

  /** Ids are positive, strictly ascending and below `nextId`; no two rows share a date. */
  predicate Valid(t: Table) {
    1 <= t.nextId
    && (forall i :: 0 <= i < |t.rows| ==> 1 <= t.rows[i].id < t.nextId)
    && (forall i, j :: 0 <= i < j < |t.rows| ==> t.rows[i].id < t.rows[j].id)
    && OnePerDate(t.rows)
  }

  /** At most one journal per date. */
  predicate OnePerDate(rows: seq<Journal>) {
    forall i, j :: 0 <= i < j < |rows| ==> rows[i].date != rows[j].date
  }

  function EmptyTable(): (t: Table)
    ensures Valid(t)
  {
    Table([], 1)
  }

  /**
   * The first row, in rowid order, that satisfies `p`: the lookup behind
   * both `where date = ?` and `where id = ?`.
   */
  function IndexWhere(rows: seq<Journal>, p: Journal -> bool): (r: Option<nat>)
    ensures r.Some? ==> r.value < |rows| && p(rows[r.value])
    ensures r.Some? ==> forall i :: 0 <= i < r.value ==> !p(rows[i])
    ensures r.None? ==> forall i :: 0 <= i < |rows| ==> !p(rows[i])
    decreases |rows|
  {
    if |rows| == 0 then None
    else if p(rows[0]) then Some(0)
    else match IndexWhere(rows[1..], p)
      case None => None
      case Some(k) => Some(k + 1)
  }

  /** `select id from journal where date = ? limit 1`. */
  function IndexOfDate(rows: seq<Journal>, date: string): Option<nat> {
    IndexWhere(rows, (j: Journal) => j.date == date)
  }

  /** `where id = ?`. */
  function IndexOfId(rows: seq<Journal>, id: int): Option<nat> {
    IndexWhere(rows, (j: Journal) => j.id == id)
  }

  // ---------------------------------------------------------------------------
  // create_journal
  // ---------------------------------------------------------------------------

  /**
   * `create_journal` at time `ts`: a row that already has the date gets the
   * new content and update time; otherwise a row is inserted under the next id.
   */
  function CreateJournal(t: Table, content: string, date: string, ts: int): (Table, Journal) {
    match IndexOfDate(t.rows, date)
    case Some(k) =>
      var j := t.rows[k].(content := content, updateTime := ts);
      (Table(t.rows[k := j], t.nextId), j)
    case None =>
      var j := Journal(t.nextId, content, date, ts, ts);
      (Table(t.rows + [j], t.nextId + 1), j)
  }

  /** Create keeps the table valid, in particular one journal per date. */
  lemma CreateKeepsValid(t: Table, content: string, date: string, ts: int)
    requires Valid(t)
    ensures Valid(CreateJournal(t, content, date, ts).0)
  {
    var t' := CreateJournal(t, content, date, ts).0;
    if IndexOfDate(t.rows, date).Some? {
      var k := IndexOfDate(t.rows, date).value;
      assert t'.rows == t.rows[k := t.rows[k].(content := content, updateTime := ts)] && t'.nextId == t.nextId;
      assert forall i :: 0 <= i < |t'.rows| ==> t'.rows[i].id == t.rows[i].id && t'.rows[i].date == t.rows[i].date;
      forall i, j | 0 <= i < j < |t'.rows| ensures t'.rows[i].date != t'.rows[j].date && t'.rows[i].id < t'.rows[j].id {
        assert t.rows[i].date != t.rows[j].date;
      }
    } else {
      var inserted := Journal(t.nextId, content, date, ts, ts);
      assert t'.rows == t.rows + [inserted] && t'.nextId == t.nextId + 1;
      assert forall i :: 0 <= i < |t.rows| ==> t'.rows[i] == t.rows[i];
      assert t'.rows[|t.rows|] == inserted;
      forall i, j | 0 <= i < j < |t'.rows| ensures t'.rows[i].date != t'.rows[j].date {
        if j == |t.rows| {
          assert t'.rows[i] == t.rows[i];
        } else {
          assert t'.rows[i] == t.rows[i] && t'.rows[j] == t.rows[j];
        }
      }
    }
  }

  /**
   * When the date exists, only that row's content and update time change:
   * its id, date and create time, and every other row, stay as they were.
   */
  lemma CreateOverwrites(t: Table, content: string, date: string, ts: int, k: nat)
    requires k < |t.rows| && t.rows[k].date == date && OnePerDate(t.rows)
    ensures var (t', j) := CreateJournal(t, content, date, ts);
      j == Journal(t.rows[k].id, content, date, t.rows[k].createTime, ts)
      && t'.nextId == t.nextId && |t'.rows| == |t.rows| && t'.rows[k] == j
      && forall i :: 0 <= i < |t.rows| && i != k ==> t'.rows[i] == t.rows[i]
  {
    forall i | 0 <= i < |t.rows| && i != k ensures t.rows[i].date != date {
      if i < k { assert t.rows[i].date != t.rows[k].date; } else { assert t.rows[k].date != t.rows[i].date; }
    }
  }

  /** When the date is new, one row is appended with a fresh id and equal create and update times. */
  lemma CreateInserts(t: Table, content: string, date: string, ts: int)
    requires Valid(t) && forall i :: 0 <= i < |t.rows| ==> t.rows[i].date != date
    ensures var (t', j) := CreateJournal(t, content, date, ts);
      j == Journal(t.nextId, content, date, ts, ts)
      && (forall i :: 0 <= i < |t.rows| ==> t.rows[i].id != j.id)
      && t'.rows == t.rows + [j] && t'.nextId == t.nextId + 1
  {
  }

  /** After a create, looking the date up finds the returned journal. */
  lemma CreateThenFind(t: Table, content: string, date: string, ts: int)
    requires Valid(t)
    ensures var (t', j) := CreateJournal(t, content, date, ts);
      IndexOfDate(t'.rows, date).Some? && t'.rows[IndexOfDate(t'.rows, date).value] == j && j.content == content
  {
    var (t', j) := CreateJournal(t, content, date, ts);
    CreateKeepsValid(t, content, date, ts);
    var m := IndexOfDate(t'.rows, date);
    if IndexOfDate(t.rows, date).None? {
      assert t'.rows[|t.rows|].date == date;
    } else {
      assert t'.rows[IndexOfDate(t.rows, date).value].date == date;
    }
    var n :| 0 <= n < |t'.rows| && t'.rows[n] == j;
    forall i | 0 <= i < |t'.rows| && i != n ensures t'.rows[i].date != date {
      if i < n { assert t'.rows[i].date != t'.rows[n].date; } else { assert t'.rows[n].date != t'.rows[i].date; }
    }
  }

  // ---------------------------------------------------------------------------
  // update_journal
  // ---------------------------------------------------------------------------

  const NothingToUpdate: string := "content or date required"
  const DateTaken: string := "date already exists, one day only one journal"

  /** `select id from journal where date = ? and id <> ? limit 1` finds a row. */
  predicate DateHeldByOther(rows: seq<Journal>, date: string, id: int) {
    exists i :: 0 <= i < |rows| && rows[i].date == date && rows[i].id != id
  }

  /**
   * `update_journal` at time `ts`: refuse an empty request, refuse a date
   * held by another row (checked before the id is looked up), report a
   * missing id, otherwise overwrite the given fields and the update time.
   */
  function UpdateJournal(t: Table, id: int, content: Option<string>, date: Option<string>, ts: int)
    : Result<(Table, Journal), JournalError>
  {
    if content.None? && date.None? then Err(BadRequest(NothingToUpdate))
    else if date.Some? && DateHeldByOther(t.rows, date.value, id) then Err(BadRequest(DateTaken))
    else match IndexOfId(t.rows, id)
      case None => Err(NotFound)
      case Some(k) =>
        var old_ := t.rows[k];
        var j := old_.(content := content.GetOr(old_.content), date := date.GetOr(old_.date), updateTime := ts);
        Ok((Table(t.rows[k := j], t.nextId), j))
  }

  /** The error cases of update, in the order the handler checks them. */
  lemma UpdateErrors(t: Table, id: int, content: Option<string>, date: Option<string>, ts: int)
    ensures content.None? && date.None? ==> UpdateJournal(t, id, content, date, ts) == Err(BadRequest(NothingToUpdate))
    ensures date.Some? && DateHeldByOther(t.rows, date.value, id) ==>
      UpdateJournal(t, id, content, date, ts) == Err(BadRequest(DateTaken))
    ensures UpdateJournal(t, id, content, date, ts) == Err(NotFound) <==>
      (content.Some? || date.Some?) && !(date.Some? && DateHeldByOther(t.rows, date.value, id))
      && forall i :: 0 <= i < |t.rows| ==> t.rows[i].id != id
  {
  }

  /**
   * A successful update changes only the row with the id: absent fields keep
   * their value, id and create time are kept, the update time is `ts`.
   */
  lemma UpdateCoalesces(t: Table, id: int, content: Option<string>, date: Option<string>, ts: int)
    requires UpdateJournal(t, id, content, date, ts).Ok?
    ensures var (t', j) := UpdateJournal(t, id, content, date, ts).value;
      var k := IndexOfId(t.rows, id).value;
      j == Journal(id, content.GetOr(t.rows[k].content), date.GetOr(t.rows[k].date), t.rows[k].createTime, ts)
      && t'.rows == t.rows[k := j] && t'.nextId == t.nextId
  {
  }

  /** Update keeps the table valid: moving a row to a date another row holds is refused. */
  lemma UpdateKeepsValid(t: Table, id: int, content: Option<string>, date: Option<string>, ts: int)
    requires Valid(t) && UpdateJournal(t, id, content, date, ts).Ok?
    ensures Valid(UpdateJournal(t, id, content, date, ts).value.0)
  {
    var (t', j) := UpdateJournal(t, id, content, date, ts).value;
    var k := IndexOfId(t.rows, id).value;
    forall i | 0 <= i < |t.rows| && i != k ensures t.rows[i].id != id {
      if i < k { assert t.rows[i].id < t.rows[k].id; } else { assert t.rows[k].id < t.rows[i].id; }
    }
    forall i | 0 <= i < |t.rows| && i != k ensures t.rows[i].date != t'.rows[k].date {
      if date.Some? {
        assert t'.rows[k].date == date.value;
      } else if i < k {
        assert t.rows[i].date != t.rows[k].date;
      } else {
        assert t.rows[k].date != t.rows[i].date;
      }
    }
    forall a, b | 0 <= a < b < |t'.rows| ensures t'.rows[a].date != t'.rows[b].date {
      if a == k {
        assert t'.rows[b] == t.rows[b];
      } else if b == k {
        assert t'.rows[a] == t.rows[a];
      } else {
        assert t'.rows[a] == t.rows[a] && t'.rows[b] == t.rows[b];
      }
    }
  }

  // ---------------------------------------------------------------------------
  // delete_journal and get_journal
  // ---------------------------------------------------------------------------

  /** `delete_journal`: remove the row with the id, or report that there is none. */
  function DeleteJournal(t: Table, id: int): Result<Table, JournalError> {
    match IndexOfId(t.rows, id)
    case None => Err(NotFound)
    case Some(k) => Ok(Table(t.rows[..k] + t.rows[k + 1..], t.nextId))
  }

  /** Delete removes exactly the row with the id and keeps every other row, in order. */
  lemma DeleteExact(t: Table, id: int)
    requires Valid(t)
    ensures DeleteJournal(t, id).Err? <==> forall i :: 0 <= i < |t.rows| ==> t.rows[i].id != id
    ensures DeleteJournal(t, id).Ok? ==>
      var t' := DeleteJournal(t, id).value;
      |t'.rows| == |t.rows| - 1 && t'.nextId == t.nextId
      && (forall i :: 0 <= i < |t'.rows| ==> t'.rows[i].id != id)
      && forall r :: r in t.rows && r.id != id ==> r in t'.rows
  {
    if DeleteJournal(t, id).Ok? {
      var k := IndexOfId(t.rows, id).value;
      var t' := DeleteJournal(t, id).value;
      forall i | 0 <= i < |t'.rows| ensures t'.rows[i].id != id {
        if i < k {
          assert t'.rows[i] == t.rows[i] && t.rows[i].id < t.rows[k].id;
        } else {
          assert t'.rows[i] == t.rows[i + 1] && t.rows[k].id < t.rows[i + 1].id;
        }
      }
      forall r | r in t.rows && r.id != id ensures r in t'.rows {
        var i :| 0 <= i < |t.rows| && t.rows[i] == r;
        if i < k { assert t'.rows[i] == r; } else { assert i > k && t'.rows[i - 1] == r; }
      }
    }
  }

  /** Deleting keeps the table valid. */
  lemma DeleteKeepsValid(t: Table, id: int)
    requires Valid(t) && DeleteJournal(t, id).Ok?
    ensures Valid(DeleteJournal(t, id).value)
  {
    var k := IndexOfId(t.rows, id).value;
    var rs := DeleteJournal(t, id).value.rows;
    assert rs == t.rows[..k] + t.rows[k + 1..];
    forall a, b | 0 <= a < b < |rs|
      ensures rs[a].id < rs[b].id && rs[a].date != rs[b].date
    {
      var a', b' := if a < k then a else a + 1, if b < k then b else b + 1;
      assert rs[a] == t.rows[a'] && rs[b] == t.rows[b'] && a' < b';
    }
    forall a | 0 <= a < |rs| ensures 1 <= rs[a].id < t.nextId {
      assert rs[a] == t.rows[if a < k then a else a + 1];
    }
  }

  /** `get_journal`. */
  function GetJournal(t: Table, id: int): (r: Result<Journal, JournalError>)
    ensures r.Ok? <==> exists i :: 0 <= i < |t.rows| && t.rows[i].id == id
    ensures r.Ok? ==> r.value in t.rows && r.value.id == id
  {
    match IndexOfId(t.rows, id)
    case None => Err(NotFound)
    case Some(k) => Ok(t.rows[k])
  }

  // ---------------------------------------------------------------------------
  // list_journals
  // ---------------------------------------------------------------------------

  datatype ListQuery = ListQuery(date: Option<string>, page: Option<int>, size: Option<int>)

  /** Rust's `Ord::clamp`. */
  function Clamp(v: int, lo: int, hi: int): (r: int)
    requires lo <= hi
    ensures lo <= r <= hi && (lo <= v <= hi ==> r == v)
  {
    if v < lo then lo else if v > hi then hi else v
  }

  /** The number of bytes of the UTF-8 encoding: what `str::len` reports. */
  function Utf8Len(s: string): (n: nat)
    ensures n >= |s|
    decreases |s|
  {
    if |s| == 0 then 0
    else
      var c := s[0] as int;
      (if c < 0x80 then 1 else if c < 0x800 then 2 else if c < 0x10000 then 3 else 4) + Utf8Len(s[1..])
  }

  /** On ASCII text the byte length is the character count. */
  lemma {:induction false} Utf8LenAscii(s: string)
    requires forall i :: 0 <= i < |s| ==> s[i] as int < 0x80
    ensures Utf8Len(s) == |s|
    decreases |s|
  {
    if |s| > 0 {
      Utf8LenAscii(s[1..]);
    }
  }

  /**
   * SQLite's `LIKE` with its defaults: `%` matches any run of characters,
   * `_` any one character, other characters match ignoring ASCII case, and
   * there is no escape character.
   */
  predicate Like(s: string, pat: string)
    decreases |s| + |pat|
  {
    if |pat| == 0 then |s| == 0
    else if pat[0] == '%' then Like(s, pat[1..]) || (|s| > 0 && Like(s[1..], pat))
    else if pat[0] == '_' then |s| > 0 && Like(s[1..], pat[1..])
    else |s| > 0 && ToAsciiLowerChar(s[0]) == ToAsciiLowerChar(pat[0]) && Like(s[1..], pat[1..])
  }

  lemma {:induction false} LikeAnything(s: string)
    ensures Like(s, "%")
    decreases |s|
  {
    assert "%"[1..] == [];
    if |s| > 0 {
      LikeAnything(s[1..]);
    }
  }

  /** Equal ignoring ASCII case. */
  predicate SameIgnoringCase(a: string, b: string) {
    |a| == |b| && forall i :: 0 <= i < |a| ==> ToAsciiLowerChar(a[i]) == ToAsciiLowerChar(b[i])
  }

  /** Without wildcards in `d`, `LIKE d-%` is a prefix test ignoring ASCII case. */
  lemma {:induction false} LikeMonthPrefix(s: string, d: string)
    requires '%' !in d && '_' !in d
    ensures Like(s, d + "-%") <==> |s| > |d| && SameIgnoringCase(s[..|d| + 1], d + "-")
    decreases |d|
  {
    var pat := d + "-%";
    if |d| == 0 {
      assert pat == "-%" && pat[1..] == "%";
      if |s| > 0 { LikeAnything(s[1..]); }
    } else {
      assert pat[0] == d[0] && pat[1..] == d[1..] + "-%";
      if |s| > 0 {
        LikeMonthPrefix(s[1..], d[1..]);
        if |s| > |d| {
          var a := s[..|d| + 1];
          var b := d + "-";
          assert s[1..][..|d[1..]| + 1] == a[1..];
          assert d[1..] + "-" == b[1..];
          if SameIgnoringCase(a, b) {
            assert SameIgnoringCase(a[1..], b[1..]) by {
              forall i | 0 <= i < |a[1..]| ensures ToAsciiLowerChar(a[1..][i]) == ToAsciiLowerChar(b[1..][i]) {
                assert a[1..][i] == a[i + 1] && b[1..][i] == b[i + 1];
              }
            }
            assert a[0] == s[0] && b[0] == d[0];
          }
          if ToAsciiLowerChar(s[0]) == ToAsciiLowerChar(d[0]) && SameIgnoringCase(a[1..], b[1..]) {
            forall i | 0 <= i < |a| ensures ToAsciiLowerChar(a[i]) == ToAsciiLowerChar(b[i]) {
              if i > 0 { assert a[1..][i - 1] == a[i] && b[1..][i - 1] == b[i]; }
            }
          }
        }
      }
    }
  }

  /** `limit size offset off`. */
  function Page<T>(xs: seq<T>, off: nat, size: nat): (r: seq<T>)
    ensures |r| <= size
    ensures forall i :: 0 <= i < |r| ==> off + i < |xs| && r[i] == xs[off + i]
  {
    var lo := if off < |xs| then off else |xs|;
    var hi := if off + size < |xs| then off + size else |xs|;
    xs[lo..hi]
  }

  function Filter(rows: seq<Journal>, f: Journal -> bool): (r: seq<Journal>)
    ensures forall x :: x in r <==> x in rows && f(x)
    ensures forall x :: multiset(r)[x] <= multiset(rows)[x]
    ensures |r| <= |rows|
    decreases |rows|
  {
    if |rows| == 0 then []
    else
      var rest := Filter(rows[1..], f);
      assert forall x :: x in rows <==> x == rows[0] || x in rows[1..];
      assert rows == [rows[0]] + rows[1..];
      if f(rows[0]) then [rows[0]] + rest else rest
  }

  function Reverse<T>(xs: seq<T>): (r: seq<T>)
    ensures |r| == |xs| && forall i :: 0 <= i < |xs| ==> r[i] == xs[|xs| - 1 - i]
    ensures multiset(r) == multiset(xs)
    decreases |xs|
  {
    if |xs| == 0 then []
    else
      assert xs == [xs[0]] + xs[1..];
      Reverse(xs[1..]) + [xs[0]]
  }

  function DateOf(j: Journal): string { j.date }

  /** The page size and number after clamping, and the rows skipped. */
  function PageSize(q: ListQuery): int { Clamp(q.size.GetOr(10), 1, 100) }
  function PageNumber(q: ListQuery): int { Clamp(q.page.GetOr(1), 1, 1000) }
  function Offset(q: ListQuery): nat { (PageNumber(q) - 1) * PageSize(q) }

  /** The rows of the query before paging, in the query's order. */
  function Selected(t: Table, q: ListQuery): seq<Journal> {
    match q.date
    case None => t.rows
    case Some(raw) =>
      var d := Trim(raw);
      if Utf8Len(d) == 7 then SortBy(Filter(t.rows, (j: Journal) => Like(j.date, d + "-%")), DateOf)
      else Reverse(Filter(t.rows, (j: Journal) => j.date == d))
  }

  /** `list_journals`. */
  function ListJournals(t: Table, q: ListQuery): seq<Journal> {
    Page(Selected(t, q), Offset(q), PageSize(q))
  }

  /** A page holds between none and a hundred rows, all from the table, starting at `(page-1)*size`. */
  lemma ListPaging(t: Table, q: ListQuery)
    ensures var r := ListJournals(t, q);
      1 <= PageSize(q) <= 100 && 1 <= PageNumber(q) <= 1000 && |r| <= PageSize(q)
      && Offset(q) == (PageNumber(q) - 1) * PageSize(q)
      && forall i :: 0 <= i < |r| ==> r[i] == Selected(t, q)[Offset(q) + i]
  {
  }

  /** With no date, the rows come in ascending id order. */
  lemma ListAllById(t: Table, q: ListQuery)
    requires Valid(t) && q.date.None?
    ensures var r := ListJournals(t, q);
      forall a, b :: 0 <= a < b < |r| ==> r[a].id < r[b].id
  {
    var r := ListJournals(t, q);
    forall a, b | 0 <= a < b < |r| ensures r[a].id < r[b].id {
      assert r[a] == t.rows[Offset(q) + a] && r[b] == t.rows[Offset(q) + b];
    }
  }

  /**
   * A seven-byte date selects the rows whose date matches `date-%`, ordered
   * by date; in a valid table no two of them share a date, so the order is
   * strictly ascending.
   */
  lemma ListMonth(t: Table, q: ListQuery)
    requires Valid(t) && q.date.Some? && Utf8Len(Trim(q.date.value)) == 7
    ensures var d := Trim(q.date.value); var s := Selected(t, q);
      (forall x :: x in s <==> x in t.rows && Like(x.date, d + "-%"))
      && SortedBy(s, DateOf)
      && forall a, b :: 0 <= a < b < |s| ==> s[a].date != s[b].date
  {
    var d := Trim(q.date.value);
    var f := Filter(t.rows, (j: Journal) => Like(j.date, d + "-%"));
    SortedSelection(t.rows, f);
  }

  /** Sorting a selection of rows by date keeps its members and, with one journal per date, orders the dates strictly. */
  lemma SortedSelection(rows: seq<Journal>, f: seq<Journal>)
    requires OnePerDate(rows) && forall x :: multiset(f)[x] <= multiset(rows)[x]
    ensures var s := SortBy(f, DateOf);
      (forall x :: x in s <==> x in f)
      && SortedBy(s, DateOf)
      && forall a, b :: 0 <= a < b < |s| ==> s[a].date != s[b].date
  {
    var s := SortBy(f, DateOf);
    SortBySorted(f, DateOf);
    forall x ensures x in s <==> x in f {
      assert x in s <==> x in multiset(s);
      assert x in f <==> x in multiset(f);
    }
    forall a, b | 0 <= a < b < |s| ensures s[a].date != s[b].date {
      NoTwoSameDate(rows, s, a, b);
    }
  }

  /** In rows with one journal per date no row occurs twice. */
  lemma {:induction false} RowsOnce(rows: seq<Journal>)
    requires OnePerDate(rows)
    ensures forall x :: multiset(rows)[x] <= 1
    decreases |rows|
  {
    if |rows| > 0 {
      var rest := rows[1..];
      assert OnePerDate(rest) by {
        forall i, j | 0 <= i < j < |rest| ensures rest[i].date != rest[j].date {
          assert rest[i] == rows[i + 1] && rest[j] == rows[j + 1];
        }
      }
      RowsOnce(rest);
      assert rows == [rows[0]] + rest;
      assert rows[0] !in rest by {
        forall k | 0 <= k < |rest| ensures rest[k] != rows[0] {
          assert rest[k] == rows[k + 1];
        }
      }
    }
  }

  /** An element counted once cannot sit at two positions. */
  lemma CountedOnceDistinct<T>(s: seq<T>, a: nat, b: nat)
    requires a < b < |s| && multiset(s)[s[a]] <= 1
    ensures s[a] != s[b]
  {
    assert s == s[..b] + s[b..];
    assert s[..b][a] == s[a];
    assert multiset(s[..b])[s[a]] >= 1;
    assert multiset(s[b..])[s[a]] == 0;
    assert s[b..][0] == s[b];
  }

  /** A selection from rows with one journal per date, each row taken at most as often as it occurs, has distinct dates. */
  lemma NoTwoSameDate(rows: seq<Journal>, s: seq<Journal>, a: nat, b: nat)
    requires OnePerDate(rows) && (forall x :: multiset(s)[x] <= multiset(rows)[x])
    requires a < b < |s|
    ensures s[a].date != s[b].date
  {
    RowsOnce(rows);
    var x, y := s[a], s[b];
    assert multiset(s)[x] <= 1;
    CountedOnceDistinct(s, a, b);
    assert x in multiset(s) && y in multiset(s);
    assert x in multiset(rows) && y in multiset(rows);
    var i :| 0 <= i < |rows| && rows[i] == x;
    var j :| 0 <= j < |rows| && rows[j] == y;
    if i < j {
      assert rows[i].date != rows[j].date;
    } else {
      assert rows[j].date != rows[i].date;
    }
  }

  /** Any other date selects the rows with exactly that date, newest id first; a valid table has at most one. */
  lemma ListExactDate(t: Table, q: ListQuery)
    requires Valid(t) && q.date.Some? && Utf8Len(Trim(q.date.value)) != 7
    ensures var d := Trim(q.date.value); var s := Selected(t, q);
      (forall x :: x in s <==> x in t.rows && x.date == d) && |s| <= 1
  {
    var d := Trim(q.date.value);
    var f := Filter(t.rows, (j: Journal) => j.date == d);
    var s := Reverse(f);
    assert s == Selected(t, q);
    forall x ensures x in s <==> x in t.rows && x.date == d {
      assert x in s <==> x in multiset(s);
      assert x in f <==> x in multiset(f);
    }
    if |s| >= 2 {
      assert s[0] in s && s[1] in s;
      assert s[0].date == d && s[1].date == d;
      NoTwoSameDate(t.rows, s, 0, 1);
      assert false;
    }
  }

  /**
   * The table as a mutable store. Its invariant is `Valid`: in particular
   * one journal per date, which create (an upsert) and update (which
   * refuses a taken date) both keep.
   */
  class JournalStore {
    var rows: seq<Journal>
    var nextId: int

    function State(): Table
      reads this
    {
      Table(rows, nextId)
    }

    predicate Invariant()
      reads this
    {
      Valid(State())
    }

    /** A fresh, empty table: the first insert receives id 1. */
    constructor()
      ensures State() == EmptyTable() && Invariant()
    {
      rows := [];
      nextId := 1;
    }

    /** `create_journal`. */
    method Create(content: string, date: string, ts: int) returns (j: Journal)
      requires Invariant()
      modifies this
      ensures Invariant()
      ensures (State(), j) == CreateJournal(old(State()), content, date, ts)
    {
      CreateKeepsValid(State(), content, date, ts);
      var existed := IndexOfDate(rows, date);
      if existed.Some? {
        j := rows[existed.value].(content := content, updateTime := ts);
        rows := rows[existed.value := j];
      } else {
        j := Journal(nextId, content, date, ts, ts);
        rows := rows + [j];
        nextId := nextId + 1;
      }
    }

    /** `update_journal`: on an error nothing changes. */
    method Update(id: int, content: Option<string>, date: Option<string>, ts: int)
      returns (r: Result<Journal, JournalError>)
      requires Invariant()
      modifies this
      ensures Invariant()
      ensures var spec := UpdateJournal(old(State()), id, content, date, ts);
        if spec.Ok? then r == Ok(spec.value.1) && State() == spec.value.0
        else r == Err(spec.error) && State() == old(State())
    {
      var spec := UpdateJournal(State(), id, content, date, ts);
      if content.None? && date.None? {
        return Err(BadRequest(NothingToUpdate));
      }
      if date.Some? && DateHeldByOther(rows, date.value, id) {
        return Err(BadRequest(DateTaken));
      }
      var found := IndexOfId(rows, id);
      if found.None? {
        return Err(NotFound);
      }
      UpdateKeepsValid(State(), id, content, date, ts);
      var k := found.value;
      var j := rows[k].(content := content.GetOr(rows[k].content), date := date.GetOr(rows[k].date), updateTime := ts);
      rows := rows[k := j];
      r := Ok(j);
    }

    /** `delete_journal`: on `NotFound` nothing changes. */
    method Delete(id: int) returns (r: Result<(), JournalError>)
      requires Invariant()
      modifies this
      ensures Invariant()
      ensures var spec := DeleteJournal(old(State()), id);
        if spec.Ok? then r == Ok(()) && State() == spec.value
        else r == Err(NotFound) && State() == old(State())
    {
      var found := IndexOfId(rows, id);
      if found.None? {
        return Err(NotFound);
      }
      DeleteKeepsValid(State(), id);
      var k := found.value;
      rows := rows[..k] + rows[k + 1..];
      r := Ok(());
    }
  }
}

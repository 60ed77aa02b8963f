/** Cursor pagination shared by session and message listing: the cursor
    is the id of the last row seen; it is resolved to that row's compound
    key, and the next page holds the in-scope rows strictly after that key
    in the chosen direction, ordered and cut to the limit. */
module Paging {
  import opened Wrappers
  import opened Seqs
  import opened Sorting
  import opened Schema

  /** The full ordered listing a client pages through. */
  function Ordered<T(!new)>(rows: seq<T>, scope: T -> bool, key: T -> Key, desc: bool): seq<T> {
    SortBy(Filter(rows, scope), key, desc)
  }

  /** The cursor a client holds after reading the first `k` rows of `f`. */
  function CursorAt<T>(f: seq<T>, id: T -> string, k: nat): Option<string>
    requires k <= |f|
  {
    if k == 0 then None else Some(id(f[k - 1]))
  }

  /** The cursor row, looked up among all rows; an empty cursor is none. */
  function ResolveCursor<T(!new)>(rows: seq<T>, id: T -> string, cursor: Option<string>): Option<T> {
    if Truthy(cursor) then FindById(rows, id, cursor.value) else None
  }

  /** A key ending in the row's id. */
  ghost predicate KeyEndsWithId<T(!new)>(key: T -> Key, id: T -> string) {
    forall r :: key(r).minor == id(r)
  }

  /** The `where` of a page: in scope and strictly after the cursor row, if any. */
  function PageScope<T>(scope: T -> bool, key: T -> Key, desc: bool, c: Option<T>): T -> bool {
    x => scope(x) && (c.None? || StrictlyBefore(key(c.value), key(x), desc))
  }

  /** One page: in-scope rows strictly after the resolved cursor, ordered, at most `limit`. */
  function Page<T(!new)>(rows: seq<T>, scope: T -> bool, key: T -> Key, id: T -> string,
                         desc: bool, limit: nat, cursor: Option<string>): (r: seq<T>)
    ensures |r| <= limit
    ensures Sorted(r, key, desc)
    ensures forall x :: x in r ==> x in rows && scope(x)
    ensures ResolveCursor(rows, id, cursor).Some? ==>
              forall x :: x in r ==> StrictlyBefore(key(ResolveCursor(rows, id, cursor).value), key(x), desc)
  {
    var c := ResolveCursor(rows, id, cursor);
    var f := Filter(rows, PageScope(scope, key, desc, c));
    var s := SortBy(f, key, desc);
    SortByMembers(f, key, desc);
    var r := Take(s, limit);
    assert forall x :: x in r ==> x in s;
    assert Sorted(r, key, desc) by {
      forall i, j | 0 <= i < j < |r|
        ensures Before(key(r[i]), key(r[j]), desc)
      {
        assert r[i] == s[i] && r[j] == s[j];
      }
    }
    r
  }

  lemma UniqueKeysFromIds<T(!new)>(rows: seq<T>, key: T -> Key, id: T -> string)
    requires IdsValid(rows, id) && KeyEndsWithId(key, id)
    ensures UniqueKeys(rows, key)
  {
    forall i, j | 0 <= i < j < |rows|
      ensures key(rows[i]) != key(rows[j])
    {
      assert key(rows[i]).minor == id(rows[i]);
      assert key(rows[j]).minor == id(rows[j]);
    }
  }

  /** No id occurs twice in the ordered listing. */
  lemma OrderedIdsDistinct<T(!new)>(rows: seq<T>, scope: T -> bool, key: T -> Key, id: T -> string, desc: bool)
    requires IdsValid(rows, id)
    ensures var f := Ordered(rows, scope, key, desc);
            forall i, j :: 0 <= i < j < |f| ==> id(f[i]) != id(f[j])
  {
    var f := Ordered(rows, scope, key, desc);
    var idKey := (r: T) => Key(0, id(r));
    assert UniqueKeys(rows, idKey);
    UniqueKeysFilter(rows, scope, idKey);
    UniqueKeysPermutation(Filter(rows, scope), f, idKey);
  }

  /** The page at cursor position k of the ordered listing is exactly the
      next `limit` rows of that listing: nothing skipped, nothing repeated. */
  lemma PageAt<T(!new)>(rows: seq<T>, scope: T -> bool, key: T -> Key, id: T -> string,
                        desc: bool, limit: nat, k: nat)
    requires IdsValid(rows, id) && KeyEndsWithId(key, id)
    requires k <= |Ordered(rows, scope, key, desc)|
    ensures var f := Ordered(rows, scope, key, desc);
            Page(rows, scope, key, id, desc, limit, CursorAt(f, id, k)) == Take(f[k..], limit)
  {
    var g := Filter(rows, scope);
    var f := SortBy(g, key, desc);
    var cursor := CursorAt(f, id, k);
    var c := ResolveCursor(rows, id, cursor);
    var q := PageScope(scope, key, desc, c);
    UniqueKeysFromIds(rows, key, id);
    UniqueKeysDistinct(rows, key);
    if k == 0 {
      assert c.None?;
      FilterExt(rows, q, scope);
    } else {
      var last := f[k - 1];
      assert last in f;
      SortByMembers(g, key, desc);
      assert last in rows;
      assert id(last) != "" by {
        var m :| 0 <= m < |rows| && rows[m] == last;
      }
      FindByIdMember(rows, id, last);
      assert c == Some(last);
      var after := x => StrictlyBefore(key(last), key(x), desc);
      FilterExt(rows, q, x => scope(x) && after(x));
      FilterFilter(rows, scope, after);
      KeysDistinctFilter(rows, scope, key);
      SortFilterCommute(g, after, key, desc);
      UniqueKeysFilter(rows, scope, key);
      UniqueKeysPermutation(g, f, key);
      AfterCursorIsSuffix(f, k, key, desc);
    }
  }

  /** The client protocol over any page source: fetch a page, and while it
      is full, fetch the next one with the last id seen as cursor; at most
      `pages` requests. */
  function Browse<T>(page: Option<string> -> seq<T>, id: T -> string, limit: nat,
                     cursor: Option<string>, pages: nat): seq<T>
    decreases pages
  {
    if pages == 0 then []
    else
      var p := page(cursor);
      if p == [] || |p| < limit then p
      else p + Browse(page, id, limit, Some(id(p[|p| - 1])), pages - 1)
  }

  /** A product bound, kept out of the main proof. */
  lemma PagesBound(pages: nat, limit: nat, rest: int)
    requires limit > 0 && pages * limit > rest && rest >= 0
    ensures pages > 0 && (pages - 1) * limit > rest - limit
  {
    assert (pages - 1) * limit == pages * limit - limit;
  }

  /** A page source that serves position k of `f` at cursor k. */
  ghost predicate ServesSlices<T>(page: Option<string> -> seq<T>, id: T -> string, limit: nat, f: seq<T>) {
    forall k: nat :: k <= |f| ==> page(CursorAt(f, id, k)) == Take(f[k..], limit)
  }

  lemma {:induction false} BrowseFrom<T>(page: Option<string> -> seq<T>, id: T -> string, limit: nat,
                                         f: seq<T>, k: nat, pages: nat)
    requires ServesSlices(page, id, limit, f)
    requires limit > 0 && k <= |f|
    requires pages * limit > |f| - k
    ensures Browse(page, id, limit, CursorAt(f, id, k), pages) == f[k..]
    decreases pages
  {
    PagesBound(pages, limit, |f| - k);
    assert page(CursorAt(f, id, k)) == Take(f[k..], limit);
    if |f| - k >= limit {
      BrowseFrom(page, id, limit, f, k + limit, pages - 1);
      BrowseFullPage(page, id, limit, f, k, pages);
    } else {
      BrowseShortPage(page, id, limit, f, k, pages);
    }
  }

  /** A full page read at position `k` leads on to the next cursor. */
  lemma BrowseFullPage<T>(page: Option<string> -> seq<T>, id: T -> string, limit: nat,
                          f: seq<T>, k: nat, pages: nat)
    requires limit > 0 && k + limit <= |f| && pages > 0
    requires page(CursorAt(f, id, k)) == Take(f[k..], limit)
    requires Browse(page, id, limit, CursorAt(f, id, k + limit), pages - 1) == f[k + limit..]
    ensures Browse(page, id, limit, CursorAt(f, id, k), pages) == f[k..]
  {
    var c := CursorAt(f, id, k);
    var p := page(c);
    assert p == f[k..k + limit];
    var next := CursorAt(f, id, k + limit);
    assert next == Some(id(p[|p| - 1]));
    assert Browse(page, id, limit, c, pages) == p + Browse(page, id, limit, next, pages - 1);
    SplitAt(f, k, limit);
  }

  /** The suffix from `a` is its next `n` elements followed by the rest. */
  lemma SplitAt<T>(s: seq<T>, a: nat, n: nat)
    requires a + n <= |s|
    ensures s[a..] == s[a..a + n] + s[a + n..]
  {
  }

  /** A short page read at position `k` ends the listing. */
  lemma BrowseShortPage<T>(page: Option<string> -> seq<T>, id: T -> string, limit: nat,
                           f: seq<T>, k: nat, pages: nat)
    requires k <= |f| < k + limit && pages > 0
    requires page(CursorAt(f, id, k)) == Take(f[k..], limit)
    ensures Browse(page, id, limit, CursorAt(f, id, k), pages) == f[k..]
  {
    var c := CursorAt(f, id, k);
    assert Browse(page, id, limit, c, pages) == page(c);
  }

  /** Two successive pages share no id. */
  lemma NextPageDisjoint<T>(page: Option<string> -> seq<T>, id: T -> string, limit: nat, f: seq<T>)
    requires ServesSlices(page, id, limit, f)
    requires forall i, j :: 0 <= i < j < |f| ==> id(f[i]) != id(f[j])
    requires page(None) != []
    ensures var p1 := page(None);
            var p2 := page(Some(id(p1[|p1| - 1])));
            forall i, j :: 0 <= i < |p1| && 0 <= j < |p2| ==> id(p1[i]) != id(p2[j])
  {
    assert page(CursorAt(f, id, 0)) == Take(f[0..], limit);
    var p1 := page(None);
    var n := |p1|;
    assert f[0..] == f && p1 == f[..n];
    assert CursorAt(f, id, n) == Some(id(p1[n - 1]));
    var p2 := page(Some(id(p1[n - 1])));
    assert p2 == Take(f[n..], limit);
    forall i, j | 0 <= i < |p1| && 0 <= j < |p2|
      ensures id(p1[i]) != id(p2[j])
    {
      assert p1[i] == f[i] && p2[j] == f[n + j];
    }
  }

  /** Paging from the first page until a short page yields the whole
      ordered listing: every in-scope row exactly once, in order. */
  lemma BrowseComplete<T(!new)>(rows: seq<T>, scope: T -> bool, key: T -> Key, id: T -> string,
                                desc: bool, limit: nat, pages: nat)
    requires IdsValid(rows, id) && KeyEndsWithId(key, id)
    requires limit > 0 && pages * limit > |Filter(rows, scope)|
    ensures var b := Browse(c => Page(rows, scope, key, id, desc, limit, c), id, limit, None, pages);
            b == Ordered(rows, scope, key, desc) &&
            multiset(b) == multiset(Filter(rows, scope)) &&
            Sorted(b, key, desc)
  {
    var f := Ordered(rows, scope, key, desc);
    var page := c => Page(rows, scope, key, id, desc, limit, c);
    forall k: nat | k <= |f|
      ensures page(CursorAt(f, id, k)) == Take(f[k..], limit)
    {
      PageAt(rows, scope, key, id, desc, limit, k);
    }
    BrowseFrom(page, id, limit, f, 0, pages);
  }

  // ----- offset listing (the admin pages) -----

  /** A row at or after the cursor row in the ordering. */
  function AtOrAfter<T>(key: T -> Key, desc: bool, c: T): T -> bool {
    x => Before(key(c), key(x), desc)
  }

  /** Prisma `findMany` with `where`, `orderBy`, `cursor`, `skip` and `take`:
      the rows in `where`, ordered; with a non-empty cursor, only those at
      or after the cursor row, and none when no row has that id; then `skip`
      rows dropped and `take` kept. */
  function FindMany<T(!new)>(rows: seq<T>, where: T -> bool, key: T -> Key, desc: bool, id: T -> string,
                             cursor: Option<string>, skip: nat, take: nat): seq<T>
  {
    var ordered := Ordered(rows, where, key, desc);
    if !Truthy(cursor) then Take(Drop(ordered, skip), take)
    else match FindById(rows, id, cursor.value)
      case None => []
      case Some(c) => Take(Drop(Filter(ordered, AtOrAfter(key, desc, c)), skip), take)
  }

  /** A slice of a sorted sequence is sorted. */
  lemma SliceSorted<T>(s: seq<T>, key: T -> Key, desc: bool, skip: nat, take: nat)
    requires Sorted(s, key, desc)
    ensures Sorted(Take(Drop(s, skip), take), key, desc)
    ensures forall x :: x in Take(Drop(s, skip), take) ==> x in s
  {
    var d := Drop(s, skip);
    var t := Take(d, take);
    assert t == d[..|t|];
    forall i, j | 0 <= i < j < |t|
      ensures Before(key(t[i]), key(t[j]), desc)
    {
      assert t[i] == s[|s| - |d| + i] && t[j] == s[|s| - |d| + j];
    }
    forall x | x in t
      ensures x in s
    {
      var i :| 0 <= i < |t| && t[i] == x;
      assert x == s[|s| - |d| + i];
    }
  }

  /** At most `take` rows, each a row of the table in `where`, in order. */
  lemma FindManyShape<T(!new)>(rows: seq<T>, where: T -> bool, key: T -> Key, desc: bool, id: T -> string,
                               cursor: Option<string>, skip: nat, take: nat)
    ensures var r := FindMany(rows, where, key, desc, id, cursor, skip, take);
      |r| <= take && Sorted(r, key, desc) && forall x :: x in r ==> x in rows && where(x)
  {
    var f := Filter(rows, where);
    var ordered := Ordered(rows, where, key, desc);
    SortByMembers(f, key, desc);
    if !Truthy(cursor) {
      SliceSorted(ordered, key, desc, skip, take);
    } else if FindById(rows, id, cursor.value).Some? {
      var c := FindById(rows, id, cursor.value).value;
      FilterSorted(ordered, AtOrAfter(key, desc, c), key, desc);
      SliceSorted(Filter(ordered, AtOrAfter(key, desc, c)), key, desc, skip, take);
    }
  }

  /** Pages 1 to `p` of `limit` rows each, without a cursor. */
  function OffsetPages<T(!new)>(rows: seq<T>, where: T -> bool, key: T -> Key, desc: bool, id: T -> string,
                                limit: nat, p: nat): seq<T>
    decreases p
  {
    if p == 0 then []
    else OffsetPages(rows, where, key, desc, id, limit, p - 1) +
         FindMany(rows, where, key, desc, id, None, Offset(p, limit), limit)
  }

  /** Pages 1 to `p` of `limit` elements each, cut from an ordered listing. */
  function Slices<T>(o: seq<T>, limit: nat, p: nat): seq<T> {
    if p == 0 then [] else Slices(o, limit, p - 1) + Take(Drop(o, Offset(p, limit)), limit)
  }

  /** Browsing pages 1 to `p` reads the ordered listing page by page. */
  lemma OffsetPagesSlices<T(!new)>(rows: seq<T>, where: T -> bool, key: T -> Key, desc: bool,
                                   id: T -> string, limit: nat, p: nat)
    ensures OffsetPages(rows, where, key, desc, id, limit, p) == Slices(Ordered(rows, where, key, desc), limit, p)
  {
    var i := 0;
    while i < p
      invariant i <= p
      invariant OffsetPages(rows, where, key, desc, id, limit, i) == Slices(Ordered(rows, where, key, desc), limit, i)
    {
      i := i + 1;
      OffsetPagesNext(rows, where, key, desc, id, limit, i);
    }
  }

  /** Without a cursor, `findMany` is a plain slice of the ordered listing,
      so one more page extends both sides alike. */
  lemma OffsetPagesNext<T(!new)>(rows: seq<T>, where: T -> bool, key: T -> Key, desc: bool,
                                 id: T -> string, limit: nat, p: nat)
    requires p > 0
    requires OffsetPages(rows, where, key, desc, id, limit, p - 1) == Slices(Ordered(rows, where, key, desc), limit, p - 1)
    ensures OffsetPages(rows, where, key, desc, id, limit, p) == Slices(Ordered(rows, where, key, desc), limit, p)
  {
    var o := Ordered(rows, where, key, desc);
    assert FindMany(rows, where, key, desc, id, None, Offset(p, limit), limit) == Take(Drop(o, Offset(p, limit)), limit);
  }

  /** Consecutive slices tile the listing: `p` pages are its first
      `Offset(p + 1, limit)` elements. */
  lemma {:induction false} SlicesTile<T>(o: seq<T>, limit: nat, p: nat)
    ensures Slices(o, limit, p) == Take(o, Offset(p + 1, limit))
    decreases p
  {
    if p > 0 {
      SlicesTile(o, limit, p - 1);
      TakeThenNext(o, Offset(p, limit), limit);
      OffsetNext(p, limit);
    }
  }

  /** Page `p` starts where page `p - 1` ended: the first `p` pages are the
      rows of the ordered listing before page `p + 1`, with nothing skipped
      or repeated. */
  lemma OffsetPagesTile<T(!new)>(rows: seq<T>, where: T -> bool, key: T -> Key, desc: bool,
                                 id: T -> string, limit: nat, p: nat)
    ensures OffsetPages(rows, where, key, desc, id, limit, p) ==
            Take(Ordered(rows, where, key, desc), Offset(p + 1, limit))
  {
    OffsetPagesSlices(rows, where, key, desc, id, limit, p);
    SlicesTile(Ordered(rows, where, key, desc), limit, p);
  }

  /** The first `a` elements followed by the `n` after them are the first `a + n`. */
  lemma TakeThenNext<T>(o: seq<T>, a: nat, n: nat)
    ensures Take(o, a) + Take(Drop(o, a), n) == Take(o, a + n)
  {
    if a + n <= |o| {
      assert Take(Drop(o, a), n) == o[a..a + n];
      assert o[..a] + o[a..a + n] == o[..a + n];
    } else if a <= |o| {
      assert Take(Drop(o, a), n) == o[a..];
      assert o[..a] + o[a..] == o;
    }
  }

  /** Every page is shown and no row is left over exactly when the listing
      has no more than `p * limit` rows. */
  lemma OffsetPagesComplete<T(!new)>(rows: seq<T>, where: T -> bool, key: T -> Key, desc: bool,
                                     id: T -> string, limit: nat, p: nat)
    ensures OffsetPages(rows, where, key, desc, id, limit, p) == Ordered(rows, where, key, desc) <==>
            |Filter(rows, where)| <= p * limit
  {
    OffsetPagesTile(rows, where, key, desc, id, limit, p);
    assert Offset(p + 1, limit) == p * limit;
  }

  /** In a sorted listing with unique keys, the rows at or after the row at
      position `k` are the suffix from `k`. */
  lemma AtOrAfterIsSuffix<T(!new)>(f: seq<T>, k: int, key: T -> Key, desc: bool)
    requires Sorted(f, key, desc) && UniqueKeys(f, key)
    requires 0 <= k < |f|
    ensures Filter(f, AtOrAfter(key, desc, f[k])) == f[k..]
  {
    var p := AtOrAfter(key, desc, f[k]);
    assert f == f[..k] + f[k..];
    FilterConcat(f[..k], f[k..], p);
    NoneBeforeCursorRow(f, k, key, desc);
    AllFromCursorRow(f, k, key, desc);
  }

  lemma NoneBeforeCursorRow<T(!new)>(f: seq<T>, k: int, key: T -> Key, desc: bool)
    requires Sorted(f, key, desc) && UniqueKeys(f, key)
    requires 0 <= k < |f|
    ensures Filter(f[..k], AtOrAfter(key, desc, f[k])) == []
  {
    var p := AtOrAfter(key, desc, f[k]);
    forall x | x in f[..k]
      ensures !p(x)
    {
      var m :| 0 <= m < k && f[m] == x;
      BeforeCursorRow(f, k, key, desc, m);
    }
    FilterNone(f[..k], p);
  }

  lemma AllFromCursorRow<T(!new)>(f: seq<T>, k: int, key: T -> Key, desc: bool)
    requires Sorted(f, key, desc)
    requires 0 <= k < |f|
    ensures Filter(f[k..], AtOrAfter(key, desc, f[k])) == f[k..]
  {
    var p := AtOrAfter(key, desc, f[k]);
    forall x | x in f[k..]
      ensures p(x)
    {
      var m :| k <= m < |f| && f[m] == x;
      FromCursorRow(f, k, key, desc, m);
    }
    FilterAll(f[k..], p);
  }

  /** No row before the cursor row is at or after it. */
  lemma BeforeCursorRow<T>(f: seq<T>, k: int, key: T -> Key, desc: bool, m: int)
    requires Sorted(f, key, desc) && UniqueKeys(f, key) && 0 <= m < k < |f|
    ensures !Before(key(f[k]), key(f[m]), desc)
  {
    if Before(key(f[k]), key(f[m]), desc) {
      BeforeAntisymmetric(key(f[m]), key(f[k]), desc);
    }
  }

  /** Every row from the cursor row on is at or after it. */
  lemma FromCursorRow<T>(f: seq<T>, k: int, key: T -> Key, desc: bool, m: int)
    requires Sorted(f, key, desc) && 0 <= k <= m < |f|
    ensures Before(key(f[k]), key(f[m]), desc)
  {
    if m == k {
      BeforeTotal(key(f[k]), key(f[k]), desc);
    }
  }

  /** With ids as the key's tie-break, a cursor naming a row of the
      listing starts the page at that row, and `skip` counts from it. */
  lemma FindManyAtCursor<T(!new)>(rows: seq<T>, where: T -> bool, key: T -> Key, desc: bool,
                                  id: T -> string, skip: nat, take: nat, k: nat)
    requires IdsValid(rows, id) && KeyEndsWithId(key, id)
    requires 0 < k <= |Ordered(rows, where, key, desc)|
    ensures var f := Ordered(rows, where, key, desc);
      FindMany(rows, where, key, desc, id, Some(id(f[k - 1])), skip, take) == Take(Drop(f[k - 1..], skip), take)
  {
    var g := Filter(rows, where);
    var f := SortBy(g, key, desc);
    var last := f[k - 1];
    assert last in f;
    SortByMembers(g, key, desc);
    assert last in rows;
    assert id(last) != "" by {
      var m :| 0 <= m < |rows| && rows[m] == last;
    }
    FindByIdMember(rows, id, last);
    UniqueKeysFromIds(rows, key, id);
    UniqueKeysFilter(rows, where, key);
    UniqueKeysPermutation(g, f, key);
    AtOrAfterIsSuffix(f, k - 1, key, desc);
    assert Truthy(Some(id(last)));
    assert FindMany(rows, where, key, desc, id, Some(id(last)), skip, take) ==
           Take(Drop(Filter(f, AtOrAfter(key, desc, last)), skip), take);
  }

  /** A cursor naming the last row read and a skip of one (the cursor row
      itself) give the rows right after it: cursor pages neither skip nor
      repeat a row. */
  lemma FindManyAfterCursor<T(!new)>(rows: seq<T>, where: T -> bool, key: T -> Key, desc: bool,
                                     id: T -> string, take: nat, k: nat)
    requires IdsValid(rows, id) && KeyEndsWithId(key, id)
    requires 0 < k <= |Ordered(rows, where, key, desc)|
    ensures var f := Ordered(rows, where, key, desc);
      FindMany(rows, where, key, desc, id, Some(id(f[k - 1])), 1, take) == Take(f[k..], take)
  {
    var f := Ordered(rows, where, key, desc);
    FindManyAtCursor(rows, where, key, desc, id, 1, take, k);
    assert Drop(f[k - 1..], 1) == f[k..];
  }

  // ----- request parameters of the admin listings -----

  /** The page size when the request gives none. */
  const DEFAULT_LIMIT: nat := 20

  /** `value || fallback` on an optional count: a missing or zero count
      takes the fallback. */
  function OrDefault(n: Option<nat>, fallback: nat): nat {
    if n.Some? && n.value != 0 then n.value else fallback
  }

  /** Where page `page` (counted from 1) of `limit` rows starts. */
  function Offset(page: nat, limit: nat): nat {
    if page == 0 then 0 else (page - 1) * limit
  }

  /** Consecutive pages are adjacent: the next page starts where this one ends. */
  lemma OffsetNext(page: nat, limit: nat)
    requires page >= 1
    ensures Offset(page + 1, limit) == Offset(page, limit) + limit
  {
    assert page * limit == (page - 1) * limit + limit;
  }

  /** An id filter that is set and is not the "all" choice. */
  predicate Selected(id: Option<string>) {
    Truthy(id) && id.value != "all"
  }

  /** A date query parameter: left empty, read as an instant, or a string
      `new Date` cannot read (an invalid date, which the query rejects). */
  datatype DateParam = NoDate | At(instant: int) | BadDate

  function ReadDate(s: Option<string>, parseDate: string -> Option<int>): (r: DateParam)
    ensures r.NoDate? <==> !Truthy(s)
    ensures r.BadDate? <==> Truthy(s) && parseDate(s.value).None?
    ensures r.At? ==> Truthy(s) && parseDate(s.value) == Some(r.instant)
  {
    if !Truthy(s) then NoDate
    else match parseDate(s.value)
      case Some(t) => At(t)
      case None => BadDate
  }

  /** The statistics range of the admin listings: a missing start is the
      epoch and a missing end is now; `None` when a given date cannot be
      read. */
  function EpochToNow(from: Option<string>, to: Option<string>, now: int,
                      parseDate: string -> Option<int>): Option<(int, int)>
  {
    var f := ReadDate(from, parseDate);
    var t := ReadDate(to, parseDate);
    if f.BadDate? || t.BadDate? then None
    else Some((if f.At? then f.instant else 0, if t.At? then t.instant else now))
  }

  /** The range is missing exactly when a given date cannot be read;
      otherwise each end is the date given, or the epoch and now. */
  lemma EpochToNowSpec(from: Option<string>, to: Option<string>, now: int, parseDate: string -> Option<int>)
    ensures var range := EpochToNow(from, to, now, parseDate);
      (range.None? <==> (Truthy(from) && parseDate(from.value).None?) ||
                        (Truthy(to) && parseDate(to.value).None?)) &&
      (range.Some? ==>
        range.value.0 == (if Truthy(from) then parseDate(from.value).value else 0) &&
        range.value.1 == (if Truthy(to) then parseDate(to.value).value else now))
  {
  }

  /** The page after a full one is empty exactly when the listing ends
      at or before that page's end. */
  lemma NextPageEmpty<T>(o: seq<T>, skip: nat, limit: nat)
    requires limit > 0
    ensures Take(Drop(o, skip + limit), limit) != [] <==> |o| > skip + limit
  {
  }
}

/** Ordering of query results: a Prisma `orderBy` (or a JavaScript
    `Array.prototype.sort`, which is stable) over a key made of an integer
    field and a string tie-break. */
module Sorting {
  import opened Text
  import opened Seqs

  /** A compound sort key: `major` is a timestamp or count, `minor` an id or
      name (the tie-break). */
  datatype Key = Key(major: int, minor: string)

  predicate KeyLe(a: Key, b: Key) {
    a.major < b.major || (a.major == b.major && LessEq(a.minor, b.minor))
  }

  /** `a` may come before `b` in ascending (`desc == false`) or descending order. */
  predicate Before(a: Key, b: Key, desc: bool) {
    if desc then KeyLe(b, a) else KeyLe(a, b)
  }

  lemma BeforeTotal(a: Key, b: Key, desc: bool)
    ensures Before(a, b, desc) || Before(b, a, desc)
  {
    LessTotal(a.minor, b.minor);
  }

  lemma BeforeTransitive(a: Key, b: Key, c: Key, desc: bool)
    requires Before(a, b, desc) && Before(b, c, desc)
    ensures Before(a, c, desc)
  {
    if a.minor != b.minor && b.minor != c.minor && a.minor != c.minor {
      if desc {
        if c.major == b.major == a.major {
          LessTransitive(c.minor, b.minor, a.minor);
        }
      } else if a.major == b.major == c.major {
        LessTransitive(a.minor, b.minor, c.minor);
      }
    } else if a.minor == c.minor && a.major == b.major == c.major && a.minor != b.minor {
      LessAsymmetric(a.minor, b.minor);
      LessAsymmetric(b.minor, a.minor);
    }
  }

  lemma BeforeAntisymmetric(a: Key, b: Key, desc: bool)
    requires Before(a, b, desc) && Before(b, a, desc)
    ensures a == b
  {
    if a.minor != b.minor {
      if Less(a.minor, b.minor) {
        LessAsymmetric(a.minor, b.minor);
      } else {
        LessAsymmetric(b.minor, a.minor);
      }
    }
  }

  /** Every element may come before every later one. */
  predicate Sorted<T>(s: seq<T>, key: T -> Key, desc: bool) {
    forall i, j :: 0 <= i < j < |s| ==> Before(key(s[i]), key(s[j]), desc)
  }

  /** No two distinct elements share a key (ids are unique). */
  predicate KeysDistinct<T(==)>(s: seq<T>, key: T -> Key) {
    forall i, j :: 0 <= i < |s| && 0 <= j < |s| && key(s[i]) == key(s[j]) ==> s[i] == s[j]
  }

  function Insert<T>(x: T, s: seq<T>, key: T -> Key, desc: bool): (r: seq<T>)
    ensures |r| == |s| + 1
    ensures multiset(r) == multiset(s) + multiset{x}
    ensures Sorted(s, key, desc) ==> Sorted(r, key, desc)
  {
    if s == [] then [x]
    else if Before(key(x), key(s[0]), desc) then
      InsertFrontSorted(x, s, key, desc);
      [x] + s
    else
      var t := Insert(x, s[1..], key, desc);
      BeforeTotal(key(x), key(s[0]), desc);
      assert s == [s[0]] + s[1..];
      InsertBehindSorted(s[0], x, s[1..], t, key, desc);
      [s[0]] + t
  }

  lemma InsertFrontSorted<T>(x: T, s: seq<T>, key: T -> Key, desc: bool)
    requires s != [] && Before(key(x), key(s[0]), desc)
    ensures Sorted(s, key, desc) ==> Sorted([x] + s, key, desc)
  {
    if Sorted(s, key, desc) {
      forall j | 0 < j < |s|
        ensures Before(key(x), key(s[j]), desc)
      {
        BeforeTransitive(key(x), key(s[0]), key(s[j]), desc);
      }
    }
  }

  lemma InsertBehindSorted<T>(h: T, x: T, s: seq<T>, t: seq<T>, key: T -> Key, desc: bool)
    requires Before(key(h), key(x), desc)
    requires multiset(t) == multiset(s) + multiset{x}
    requires Sorted(s, key, desc) ==> Sorted(t, key, desc)
    ensures Sorted([h] + s, key, desc) ==> Sorted([h] + t, key, desc)
  {
    if Sorted([h] + s, key, desc) {
      assert Sorted(s, key, desc) by {
        forall i, j | 0 <= i < j < |s|
          ensures Before(key(s[i]), key(s[j]), desc)
        {
          assert ([h] + s)[i + 1] == s[i] && ([h] + s)[j + 1] == s[j];
        }
      }
      forall j | 0 <= j < |t|
        ensures Before(key(h), key(t[j]), desc)
      {
        assert t[j] in multiset(t);
        if t[j] != x {
          assert t[j] in multiset(s);
          var k :| 0 <= k < |s| && s[k] == t[j];
          assert ([h] + s)[0] == h && ([h] + s)[k + 1] == s[k];
          assert Before(key(([h] + s)[0]), key(([h] + s)[k + 1]), desc);
        }
      }
    }
  }

  /** Stable insertion sort: the model of `orderBy` and of `.sort`. */
  function SortBy<T>(s: seq<T>, key: T -> Key, desc: bool): (r: seq<T>)
    ensures |r| == |s|
    ensures multiset(r) == multiset(s)
    ensures Sorted(r, key, desc)
  {
    if s == [] then []
    else
      assert s == [s[0]] + s[1..];
      Insert(s[0], SortBy(s[1..], key, desc), key, desc)
  }

  lemma SortByMembers<T>(s: seq<T>, key: T -> Key, desc: bool)
    ensures forall x :: x in SortBy(s, key, desc) <==> x in s
  {
    var r := SortBy(s, key, desc);
    forall x
      ensures x in r <==> x in s
    {
      assert x in r <==> x in multiset(r);
      assert x in s <==> x in multiset(s);
    }
  }

  /** Distinct keys are inherited by a sequence with the same elements. */
  lemma KeysDistinctPermutation<T>(a: seq<T>, b: seq<T>, key: T -> Key)
    requires multiset(a) == multiset(b)
    requires KeysDistinct(a, key)
    ensures KeysDistinct(b, key)
  {
    forall i, j | 0 <= i < |b| && 0 <= j < |b| && key(b[i]) == key(b[j])
      ensures b[i] == b[j]
    {
      assert b[i] in multiset(a) && b[j] in multiset(a);
      var i' :| 0 <= i' < |a| && a[i'] == b[i];
      var j' :| 0 <= j' < |a| && a[j'] == b[j];
    }
  }

  /** Two sorted arrangements of the same elements with distinct keys
      start with the same element. */
  lemma SortedSameHead<T>(a: seq<T>, b: seq<T>, key: T -> Key, desc: bool)
    requires a != [] && b != []
    requires Sorted(a, key, desc) && Sorted(b, key, desc)
    requires multiset(a) == multiset(b)
    requires KeysDistinct(a, key)
    ensures a[0] == b[0]
  {
    assert a[0] in multiset(b) && b[0] in multiset(a);
    var i :| 0 <= i < |b| && b[i] == a[0];
    var j :| 0 <= j < |a| && a[j] == b[0];
    if j > 0 {
      assert Before(key(a[0]), key(a[j]), desc);
    }
    if i > 0 {
      assert Before(key(b[0]), key(b[i]), desc);
    }
    BeforeAntisymmetric(key(a[0]), key(b[0]), desc);
  }

  lemma KeysDistinctTail<T>(s: seq<T>, key: T -> Key)
    requires s != [] && KeysDistinct(s, key)
    ensures KeysDistinct(s[1..], key)
  {
    forall p, q | 0 <= p < |s[1..]| && 0 <= q < |s[1..]| && key(s[1..][p]) == key(s[1..][q])
      ensures s[1..][p] == s[1..][q]
    {
      assert s[1..][p] == s[p + 1] && s[1..][q] == s[q + 1];
    }
  }

  lemma MultisetTail<T>(a: seq<T>, b: seq<T>)
    requires a != [] && b != [] && a[0] == b[0]
    requires multiset(a) == multiset(b)
    ensures multiset(a[1..]) == multiset(b[1..])
  {
    assert a == [a[0]] + a[1..] && b == [b[0]] + b[1..];
    calc {
      multiset(a[1..]);
      multiset(a) - multiset{a[0]};
      multiset(b) - multiset{b[0]};
      multiset(b[1..]);
    }
  }

  /** With distinct keys there is exactly one sorted arrangement. */
  lemma {:induction false} SortedUnique<T>(a: seq<T>, b: seq<T>, key: T -> Key, desc: bool)
    requires Sorted(a, key, desc) && Sorted(b, key, desc)
    requires multiset(a) == multiset(b)
    requires KeysDistinct(a, key)
    ensures a == b
    decreases |a|
  {
    assert |a| == |multiset(a)| == |multiset(b)| == |b|;
    if a != [] {
      SortedSameHead(a, b, key, desc);
      MultisetTail(a, b);
      KeysDistinctTail(a, key);
      SortedTail(a, key, desc);
      SortedTail(b, key, desc);
      SortedUnique(a[1..], b[1..], key, desc);
      assert a == [a[0]] + a[1..] && b == [b[0]] + b[1..];
    }
  }

  lemma SortedTail<T>(s: seq<T>, key: T -> Key, desc: bool)
    requires s != [] && Sorted(s, key, desc)
    ensures Sorted(s[1..], key, desc)
  {
    forall i, j | 0 <= i < j < |s[1..]|
      ensures Before(key(s[1..][i]), key(s[1..][j]), desc)
    {
      assert s[1..][i] == s[i + 1] && s[1..][j] == s[j + 1];
    }
  }

  /** `a` comes strictly before `b`: the lexicographic strict inequality of a
      cursor boundary (`lt`/`gt` on the first field, or equal and `lt`/`gt`
      on the id). */
  predicate StrictlyBefore(a: Key, b: Key, desc: bool) {
    Before(a, b, desc) && a != b
  }

  /** No two positions hold the same key (ids are unique in a table). */
  predicate UniqueKeys<T>(s: seq<T>, key: T -> Key) {
    forall i, j :: 0 <= i < j < |s| ==> key(s[i]) != key(s[j])
  }

  lemma UniqueKeysDistinct<T>(s: seq<T>, key: T -> Key)
    requires UniqueKeys(s, key)
    ensures KeysDistinct(s, key)
  {
  }

  lemma DuplicateCount<T>(s: seq<T>, i: int, j: int)
    requires 0 <= i < j < |s| && s[i] == s[j]
    ensures multiset(s)[s[i]] >= 2
  {
    assert s == s[..j] + s[j..];
    assert s[..j][i] == s[i];
    assert s[j..][0] == s[i];
    assert s[i] in multiset(s[..j]) && s[i] in multiset(s[j..]);
  }

  lemma CountTwoGivesDuplicate<T>(s: seq<T>, x: T) returns (i: int, j: int)
    requires multiset(s)[x] >= 2
    ensures 0 <= i < j < |s| && s[i] == x && s[j] == x
  {
    assert x in multiset(s);
    var k :| 0 <= k < |s| && s[k] == x;
    assert s == s[..k] + [s[k]] + s[k + 1..];
    var rest := s[..k] + s[k + 1..];
    assert multiset(rest)[x] >= 1 by {
      assert multiset(s) == multiset(s[..k]) + multiset{x} + multiset(s[k + 1..]);
    }
    assert x in multiset(rest);
    var m :| 0 <= m < |rest| && rest[m] == x;
    if m < k {
      assert rest[m] == s[m];
      i, j := m, k;
    } else {
      assert rest[m] == s[m + 1];
      i, j := k, m + 1;
    }
  }

  lemma UniqueKeysPermutation<T>(a: seq<T>, b: seq<T>, key: T -> Key)
    requires multiset(a) == multiset(b)
    requires UniqueKeys(a, key)
    ensures UniqueKeys(b, key)
  {
    UniqueKeysDistinct(a, key);
    KeysDistinctPermutation(a, b, key);
    forall i, j | 0 <= i < j < |b|
      ensures key(b[i]) != key(b[j])
    {
      if key(b[i]) == key(b[j]) {
        assert b[i] == b[j];
        DuplicateCount(b, i, j);
        var i', j' := CountTwoGivesDuplicate(a, b[i]);
        assert false;
      }
    }
  }

  lemma {:induction false} UniqueKeysFilter<T(!new)>(s: seq<T>, p: T -> bool, key: T -> Key)
    requires UniqueKeys(s, key)
    ensures UniqueKeys(Filter(s, p), key)
  {
    if s != [] {
      var t := s[1..];
      assert UniqueKeys(t, key) by {
        forall i, j | 0 <= i < j < |t|
          ensures key(t[i]) != key(t[j])
        {
          assert t[i] == s[i + 1] && t[j] == s[j + 1];
        }
      }
      UniqueKeysFilter(t, p, key);
      if p(s[0]) {
        var r := [s[0]] + Filter(t, p);
        forall i, j | 0 <= i < j < |r|
          ensures key(r[i]) != key(r[j])
        {
          if i == 0 {
            assert r[j] in Filter(t, p);
            var m :| 0 <= m < |t| && t[m] == r[j];
            assert s[m + 1] == r[j];
          } else {
            assert r[i] == Filter(t, p)[i - 1] && r[j] == Filter(t, p)[j - 1];
          }
        }
      }
    }
  }

  lemma KeysDistinctFilter<T(!new)>(s: seq<T>, p: T -> bool, key: T -> Key)
    requires KeysDistinct(s, key)
    ensures KeysDistinct(Filter(s, p), key)
  {
    var r := Filter(s, p);
    forall i, j | 0 <= i < |r| && 0 <= j < |r| && key(r[i]) == key(r[j])
      ensures r[i] == r[j]
    {
      assert r[i] in s && r[j] in s;
      var i' :| 0 <= i' < |s| && s[i'] == r[i];
      var j' :| 0 <= j' < |s| && s[j'] == r[j];
    }
  }

  /** Filtering keeps the order: a filtered sorted sequence is sorted. */
  lemma {:induction false} FilterSorted<T(!new)>(s: seq<T>, p: T -> bool, key: T -> Key, desc: bool)
    requires Sorted(s, key, desc)
    ensures Sorted(Filter(s, p), key, desc)
  {
    if s != [] {
      SortedTail(s, key, desc);
      FilterSorted(s[1..], p, key, desc);
      if p(s[0]) {
        var f := Filter(s[1..], p);
        var r := [s[0]] + f;
        forall i, j | 0 <= i < j < |r|
          ensures Before(key(r[i]), key(r[j]), desc)
        {
          if i == 0 {
            assert r[j] in s[1..];
            var m :| 0 <= m < |s[1..]| && s[1..][m] == r[j];
            assert s[m + 1] == r[j];
          } else {
            assert r[i] == f[i - 1] && r[j] == f[j - 1];
          }
        }
      }
    }
  }

  /** Sorting then filtering is filtering then sorting (a `where` commutes
      with an `orderBy` on a unique key). */
  lemma SortFilterCommute<T(!new)>(s: seq<T>, p: T -> bool, key: T -> Key, desc: bool)
    requires KeysDistinct(s, key)
    ensures SortBy(Filter(s, p), key, desc) == Filter(SortBy(s, key, desc), p)
  {
    var a := SortBy(Filter(s, p), key, desc);
    var b := Filter(SortBy(s, key, desc), p);
    FilterSorted(SortBy(s, key, desc), p, key, desc);
    FilterPermutation(s, SortBy(s, key, desc), p);
    KeysDistinctFilter(s, p, key);
    KeysDistinctPermutation(Filter(s, p), a, key);
    SortedUnique(a, b, key, desc);
  }

  /** In a sorted sequence with unique keys, the elements strictly after the
      element at position k - 1 are exactly the suffix from position k. */
  lemma AfterCursorIsSuffix<T(!new)>(f: seq<T>, k: int, key: T -> Key, desc: bool)
    requires Sorted(f, key, desc) && UniqueKeys(f, key)
    requires 0 < k <= |f|
    ensures Filter(f, x => StrictlyBefore(key(f[k - 1]), key(x), desc)) == f[k..]
  {
    var p := x => StrictlyBefore(key(f[k - 1]), key(x), desc);
    assert f == f[..k] + f[k..];
    FilterConcat(f[..k], f[k..], p);
    forall x | x in f[..k]
      ensures !p(x)
    {
      var m :| 0 <= m < k && f[m] == x;
      NotAfterCursor(f, k, key, desc, m);
    }
    FilterNone(f[..k], p);
    forall x | x in f[k..]
      ensures p(x)
    {
      var m :| k <= m < |f| && f[m] == x;
      AfterCursor(f, k, key, desc, m);
    }
    FilterAll(f[k..], p);
  }

  /** Nothing up to the cursor comes strictly after it. */
  lemma NotAfterCursor<T>(f: seq<T>, k: int, key: T -> Key, desc: bool, m: int)
    requires Sorted(f, key, desc) && 0 <= m < k <= |f|
    ensures !StrictlyBefore(key(f[k - 1]), key(f[m]), desc)
  {
    if m < k - 1 && StrictlyBefore(key(f[k - 1]), key(f[m]), desc) {
      assert Before(key(f[m]), key(f[k - 1]), desc);
      BeforeAntisymmetric(key(f[m]), key(f[k - 1]), desc);
    }
  }

  /** Everything past the cursor comes strictly after it. */
  lemma AfterCursor<T>(f: seq<T>, k: int, key: T -> Key, desc: bool, m: int)
    requires Sorted(f, key, desc) && UniqueKeys(f, key) && 0 < k <= m < |f|
    ensures StrictlyBefore(key(f[k - 1]), key(f[m]), desc)
  {
  }

  /** The first `n` of a sorting (`orderBy` then `take: n`): at most `n`
      elements of the input, in order, and whatever is left out may come
      after everything kept. */
  lemma TopN<T>(s: seq<T>, key: T -> Key, desc: bool, n: nat)
    ensures var t := Take(SortBy(s, key, desc), n);
      |t| == (if n < |s| then n else |s|) &&
      (forall x :: x in t ==> x in s) && Sorted(t, key, desc) &&
      (forall x :: x in s && x !in t ==> forall a :: a in t ==> Before(key(a), key(x), desc))
  {
    var r := SortBy(s, key, desc);
    var t := Take(r, n);
    assert t == r[..|t|];
    SortByMembers(s, key, desc);
    PrefixSorted(r, key, desc, |t|);
    forall x | x in s && x !in t
      ensures forall a :: a in t ==> Before(key(a), key(x), desc)
    {
      PrefixBeforeRest(r, key, desc, |t|, x);
    }
  }

  lemma PrefixSorted<T>(r: seq<T>, key: T -> Key, desc: bool, m: nat)
    requires Sorted(r, key, desc) && m <= |r|
    ensures Sorted(r[..m], key, desc)
  {
    forall i, j | 0 <= i < j < m
      ensures Before(key(r[..m][i]), key(r[..m][j]), desc)
    {
      assert r[..m][i] == r[i] && r[..m][j] == r[j];
    }
  }

  /** In a sorted sequence, every element of a prefix comes before every
      element outside it. */
  lemma PrefixBeforeRest<T>(r: seq<T>, key: T -> Key, desc: bool, m: nat, x: T)
    requires Sorted(r, key, desc) && m <= |r| && x in r && x !in r[..m]
    ensures forall a :: a in r[..m] ==> Before(key(a), key(x), desc)
  {
    var k :| 0 <= k < |r| && r[k] == x;
    forall a | a in r[..m]
      ensures Before(key(a), key(x), desc)
    {
      var i :| 0 <= i < m && r[..m][i] == a;
      assert r[i] == a;
    }
  }

}

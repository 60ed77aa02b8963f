/** A JavaScript object or `Map` used as a dictionary: its entries in
    insertion order. The aggregations of the analytics code all build one
    with a `forEach` or `reduce` that, for each item, reads the entry under
    the item's key (or a blank one), updates it and writes it back. */
module Dicts {
  import opened Wrappers
  import opened Seqs

  datatype Entry<K, V> = Entry(key: K, val: V)

  function KeysOf<K, V>(d: seq<Entry<K, V>>): (r: seq<K>)
    ensures |r| == |d| && forall i :: 0 <= i < |d| ==> r[i] == d[i].key
  {
    seq(|d|, i requires 0 <= i < |d| => d[i].key)
  }

  /** `Object.values(d)`. */
  function ValuesOf<K, V>(d: seq<Entry<K, V>>): (r: seq<V>)
    ensures |r| == |d| && forall i :: 0 <= i < |d| ==> r[i] == d[i].val
  {
    seq(|d|, i requires 0 <= i < |d| => d[i].val)
  }

  predicate DistinctKeys<K(==), V>(d: seq<Entry<K, V>>) {
    forall i, j :: 0 <= i < j < |d| ==> d[i].key != d[j].key
  }

  /** `d[k]`, `undefined` being `None`. */
  function Get<K(==), V>(d: seq<Entry<K, V>>, k: K): (r: Option<V>)
    ensures r.None? <==> k !in KeysOf(d)
    ensures r.Some? ==> Entry(k, r.value) in d
  {
    if d == [] then None
    else if d[0].key == k then Some(d[0].val)
    else
      assert KeysOf(d) == [d[0].key] + KeysOf(d[1..]);
      Get(d[1..], k)
  }

  /** `d[k] ?? blank`. */
  function GetOr<K(==), V>(d: seq<Entry<K, V>>, k: K, blank: V): V {
    match Get(d, k)
    case Some(v) => v
    case None => blank
  }

  /** `d[k] = v`: an existing key keeps its place, a new key goes last. */
  function Put<K(==), V>(d: seq<Entry<K, V>>, k: K, v: V): seq<Entry<K, V>> {
    if d == [] then [Entry(k, v)]
    else if d[0].key == k then [Entry(k, v)] + d[1..]
    else [d[0]] + Put(d[1..], k, v)
  }

  lemma {:induction false} PutKeys<K, V>(d: seq<Entry<K, V>>, k: K, v: V)
    ensures KeysOf(Put(d, k, v)) == if k in KeysOf(d) then KeysOf(d) else KeysOf(d) + [k]
    decreases |d|
  {
    if d != [] {
      assert d == [d[0]] + d[1..];
      KeysOfCons(d[0], d[1..]);
      if d[0].key == k {
        KeysOfCons(Entry(k, v), d[1..]);
      } else {
        var rest := Put(d[1..], k, v);
        PutKeys(d[1..], k, v);
        KeysOfCons(d[0], rest);
        assert k in KeysOf(d) <==> k in KeysOf(d[1..]);
      }
    }
  }

  lemma KeysOfCons<K, V>(e: Entry<K, V>, rest: seq<Entry<K, V>>)
    ensures KeysOf([e] + rest) == [e.key] + KeysOf(rest)
  {
  }

  /** Reading back what was written, and nothing else changed. */
  lemma {:induction false} GetPut<K, V>(d: seq<Entry<K, V>>, k: K, v: V, k': K)
    ensures Get(Put(d, k, v), k') == if k' == k then Some(v) else Get(d, k')
    decreases |d|
  {
    if d != [] && d[0].key != k {
      GetPut(d[1..], k, v, k');
    }
  }

  /** Writing keeps the keys distinct. */
  lemma PutDistinct<K, V>(d: seq<Entry<K, V>>, k: K, v: V)
    requires DistinctKeys(d)
    ensures DistinctKeys(Put(d, k, v))
  {
    var r := Put(d, k, v);
    PutKeys(d, k, v);
    forall i, j | 0 <= i < j < |r|
      ensures r[i].key != r[j].key
    {
      assert KeysOf(r)[i] == r[i].key && KeysOf(r)[j] == r[j].key;
      if j < |d| {
        assert KeysOf(d)[i] == d[i].key && KeysOf(d)[j] == d[j].key;
      } else {
        assert KeysOf(d)[i] in KeysOf(d);
      }
    }
  }

  /** A left fold, last item last: `items.reduce(step, acc)`. */
  function FoldLeft<T, V>(acc: V, xs: seq<T>, step: (V, T) -> V): V
    decreases |xs|
  {
    if xs == [] then acc else step(FoldLeft(acc, xs[..|xs| - 1], step), xs[|xs| - 1])
  }

  /** The items whose key is `k`. */
  function KeyIs<T, K(==)>(key: T -> K, k: K): T -> bool {
    (x: T) => key(x) == k
  }

  /** The dictionary built by handling each item in turn:
      `acc[key(x)] = step(acc[key(x)] ?? blank(key(x)), x)`. */
  function GroupFold<T(!new), K(==), V>(xs: seq<T>, key: T -> K, blank: K -> V, step: (V, T) -> V): seq<Entry<K, V>>
    decreases |xs|
  {
    if xs == [] then []
    else
      var d := GroupFold(xs[..|xs| - 1], key, blank, step);
      var x := xs[|xs| - 1];
      Put(d, key(x), step(GetOr(d, key(x), blank(key(x))), x))
  }

  /** Folding one more element puts its group's next value. */
  lemma GroupFoldStep<T(!new), K, V>(xs: seq<T>, i: int, key: T -> K, blank: K -> V, step: (V, T) -> V)
    requires 0 <= i < |xs|
    ensures var d := GroupFold(xs[..i], key, blank, step);
      GroupFold(xs[..i + 1], key, blank, step) == Put(d, key(xs[i]), step(GetOr(d, key(xs[i]), blank(key(xs[i]))), xs[i]))
  {
    assert xs[..i + 1][..i] == xs[..i];
  }

  /** The keys in the order of their first occurrence. */
  function FirstOccurrences<K(==, !new)>(ks: seq<K>): (r: seq<K>)
    ensures forall k :: k in r <==> k in ks
    decreases |ks|
  {
    if ks == [] then []
    else
      var r := FirstOccurrences(ks[..|ks| - 1]);
      var k := ks[|ks| - 1];
      assert ks == ks[..|ks| - 1] + [k];
      if k in r then r else r + [k]
  }

  /** `groupBy` on one field yields one row per distinct value. */
  lemma {:induction false} FirstOccurrencesCount<K(!new)>(ks: seq<K>)
    ensures |FirstOccurrences(ks)| == |set k | k in ks|
    decreases |ks|
  {
    if ks != [] {
      var p := ks[..|ks| - 1];
      var k := ks[|ks| - 1];
      assert ks == p + [k];
      FirstOccurrencesCount(p);
      var seen := set x | x in p;
      assert (set x | x in ks) == seen + {k};
      if k in p {
        assert FirstOccurrences(ks) == FirstOccurrences(p);
        assert seen + {k} == seen;
      } else {
        assert FirstOccurrences(ks) == FirstOccurrences(p) + [k];
        assert k !in seen;
        assert |seen + {k}| == |seen| + 1;
      }
    }
  }

  /** What the grouping fold builds: one entry per distinct key, in the
      order each key first occurs, holding the fold of `step` over exactly
      the items with that key, in their order. */
  lemma GroupFoldSpec<T(!new), K(!new), V>(xs: seq<T>, key: T -> K, blank: K -> V, step: (V, T) -> V)
    ensures var d := GroupFold(xs, key, blank, step);
      DistinctKeys(d) && KeysOf(d) == FirstOccurrences(Map(xs, key)) &&
      forall k :: Get(d, k) ==
        if Filter(xs, KeyIs(key, k)) == [] then None
        else Some(FoldLeft(blank(k), Filter(xs, KeyIs(key, k)), step))
  {
    GroupFoldKeys(xs, key, blank, step);
    forall k
      ensures Get(GroupFold(xs, key, blank, step), k) ==
        if Filter(xs, KeyIs(key, k)) == [] then None
        else Some(FoldLeft(blank(k), Filter(xs, KeyIs(key, k)), step))
    {
      GroupFoldGet(xs, key, blank, step, k);
    }
  }

  lemma {:induction false} GroupFoldKeys<T(!new), K(!new), V>(xs: seq<T>, key: T -> K, blank: K -> V, step: (V, T) -> V)
    ensures var d := GroupFold(xs, key, blank, step);
      DistinctKeys(d) && KeysOf(d) == FirstOccurrences(Map(xs, key))
    decreases |xs|
  {
    if xs != [] {
      var p := xs[..|xs| - 1];
      var x := xs[|xs| - 1];
      GroupFoldKeys(p, key, blank, step);
      var d := GroupFold(p, key, blank, step);
      var v := step(GetOr(d, key(x), blank(key(x))), x);
      PutDistinct(d, key(x), v);
      PutKeys(d, key(x), v);
      var ks := Map(xs, key);
      assert ks[..|ks| - 1] == Map(p, key);
    }
  }

  lemma {:induction false} GroupFoldGet<T(!new), K, V>(xs: seq<T>, key: T -> K, blank: K -> V, step: (V, T) -> V, k: K)
    ensures Get(GroupFold(xs, key, blank, step), k) ==
      if Filter(xs, KeyIs(key, k)) == [] then None
      else Some(FoldLeft(blank(k), Filter(xs, KeyIs(key, k)), step))
    decreases |xs|
  {
    if xs != [] {
      var p := xs[..|xs| - 1];
      var x := xs[|xs| - 1];
      assert xs == p + [x];
      GroupFoldGet(p, key, blank, step, key(x));
      GroupFoldGet(p, key, blank, step, k);
      var d := GroupFold(p, key, blank, step);
      var v := step(GetOr(d, key(x), blank(key(x))), x);
      GetPut(d, key(x), v, k);
      FilterConcat(p, [x], KeyIs(key, k));
      var f := Filter(p, KeyIs(key, k));
      if key(x) == k {
        assert Filter(xs, KeyIs(key, k)) == f + [x];
        assert (f + [x])[..|f|] == f;
      } else {
        assert Filter(xs, KeyIs(key, k)) == f;
      }
    }
  }

  /** The entry of an item's key exists. */
  lemma GroupFoldHasKey<T(!new), K(!new), V>(xs: seq<T>, key: T -> K, blank: K -> V, step: (V, T) -> V, x: T)
    requires x in xs
    ensures Get(GroupFold(xs, key, blank, step), key(x)).Some?
  {
    GroupFoldSpec(xs, key, blank, step);
    assert x in Filter(xs, KeyIs(key, key(x)));
  }

  /** `e => m(e.val)`. */
  function ValMeasure<K, V>(m: V -> int): Entry<K, V> -> int {
    (e: Entry<K, V>) => m(e.val)
  }

  /** How a write changes a sum over the entries. */
  lemma {:induction false} PutSum<K, V>(d: seq<Entry<K, V>>, k: K, v: V, m: V -> int)
    requires DistinctKeys(d)
    ensures SumBy(Put(d, k, v), ValMeasure(m)) ==
      SumBy(d, ValMeasure(m)) + m(v) - (if Get(d, k).Some? then m(Get(d, k).value) else 0)
    decreases |d|
  {
    if d == [] {
    } else if d[0].key == k {
      assert Put(d, k, v)[1..] == d[1..];
    } else {
      PutSum(d[1..], k, v, m);
      assert Put(d, k, v)[1..] == Put(d[1..], k, v);
    }
  }

  /** When `m` of a blank entry is 0 and `step` adds `w(x)` to `m`, the
      entries' `m` sum to the items' `w`: grouping loses and doubles nothing. */
  lemma {:induction false} GroupFoldSum<T(!new), K(!new), V>(xs: seq<T>, key: T -> K, blank: K -> V, step: (V, T) -> V,
                                                           m: V -> int, w: T -> int)
    requires forall k :: m(blank(k)) == 0
    requires forall v, x :: m(step(v, x)) == m(v) + w(x)
    ensures SumBy(GroupFold(xs, key, blank, step), ValMeasure(m)) == SumBy(xs, w)
    decreases |xs|
  {
    if xs != [] {
      var p := xs[..|xs| - 1];
      var x := xs[|xs| - 1];
      assert xs == p + [x];
      GroupFoldSum(p, key, blank, step, m, w);
      GroupFoldSpec(p, key, blank, step);
      var d := GroupFold(p, key, blank, step);
      PutSum(d, key(x), step(GetOr(d, key(x), blank(key(x))), x), m);
      SumByConcat(p, [x], w);
    }
  }

  /** The fold of an additive step adds up the items. */
  lemma {:induction false} FoldLeftSum<T, V>(acc: V, xs: seq<T>, step: (V, T) -> V, m: V -> int, w: T -> int)
    requires forall v, x :: m(step(v, x)) == m(v) + w(x)
    ensures m(FoldLeft(acc, xs, step)) == m(acc) + SumBy(xs, w)
    decreases |xs|
  {
    if xs != [] {
      var p := xs[..|xs| - 1];
      assert xs == p + [xs[|xs| - 1]];
      FoldLeftSum(acc, p, step, m, w);
      SumByConcat(p, [xs[|xs| - 1]], w);
    }
  }

  /** With distinct keys, an entry is what its key reads. */
  lemma {:induction false} GetDistinct<K, V>(d: seq<Entry<K, V>>, i: int)
    requires DistinctKeys(d) && 0 <= i < |d|
    ensures Get(d, d[i].key) == Some(d[i].val)
    decreases |d|
  {
    if i > 0 {
      GetDistinct(d[1..], i - 1);
    }
  }

  /** Every entry of the grouping fold is the fold over the items with its key. */
  lemma GroupFoldEntry<T(!new), K(!new), V>(xs: seq<T>, key: T -> K, blank: K -> V, step: (V, T) -> V, i: int)
    requires 0 <= i < |GroupFold(xs, key, blank, step)|
    ensures var e := GroupFold(xs, key, blank, step)[i];
      Filter(xs, KeyIs(key, e.key)) != [] && e.val == FoldLeft(blank(e.key), Filter(xs, KeyIs(key, e.key)), step)
  {
    var d := GroupFold(xs, key, blank, step);
    GroupFoldKeys(xs, key, blank, step);
    GetDistinct(d, i);
    GroupFoldGet(xs, key, blank, step, d[i].key);
  }

  /** A property every step keeps holds of the fold. */
  lemma {:induction false} FoldLeftInvariant<T, V>(acc: V, xs: seq<T>, step: (V, T) -> V, inv: V -> bool)
    requires inv(acc)
    requires forall v, x :: inv(v) ==> inv(step(v, x))
    ensures inv(FoldLeft(acc, xs, step))
    decreases |xs|
  {
    if xs != [] {
      FoldLeftInvariant(acc, xs[..|xs| - 1], step, inv);
    }
  }

  /** Summing `Object.values(d)` sums the entries. */
  lemma {:induction false} SumValues<K, V>(d: seq<Entry<K, V>>, m: V -> int)
    ensures SumBy(ValuesOf(d), m) == SumBy(d, ValMeasure(m))
    decreases |d|
  {
    if d != [] {
      assert ValuesOf(d)[1..] == ValuesOf(d[1..]);
      SumValues(d[1..], m);
    }
  }

  /** The fold of a step that takes a maximum is that maximum. */
  lemma {:induction false} FoldLeftMax<T, V>(acc: V, xs: seq<T>, step: (V, T) -> V, m: V -> int, w: T -> int)
    requires forall v, x :: m(step(v, x)) == Max(m(v), w(x))
    ensures m(FoldLeft(acc, xs, step)) == MaxFrom(m(acc), xs, w)
    decreases |xs|
  {
    if xs != [] {
      FoldLeftMax(acc, xs[..|xs| - 1], step, m, w);
    }
  }

  /** When every value records its own key (the blank one for a key
      does, and a step keeps it), each value sits under its own key. */
  lemma GroupFoldValuesKeyed<T(!new), K(!new), V>(xs: seq<T>, key: T -> K, blank: K -> V, step: (V, T) -> V, keyOf: V -> K)
    requires forall k :: keyOf(blank(k)) == k
    requires forall v, x :: keyOf(step(v, x)) == keyOf(v)
    ensures var d := GroupFold(xs, key, blank, step);
      forall i :: 0 <= i < |d| ==> keyOf(ValuesOf(d)[i]) == d[i].key
  {
    var d := GroupFold(xs, key, blank, step);
    forall i | 0 <= i < |d|
      ensures keyOf(ValuesOf(d)[i]) == d[i].key
    {
      GroupFoldEntry(xs, key, blank, step, i);
      FoldLeftInvariant(blank(d[i].key), Filter(xs, KeyIs(key, d[i].key)), step, KeyIs(keyOf, d[i].key));
    }
  }

  /** A fold whose step appends one item's image to a list collects the
      images of all items, in order. */
  lemma {:induction false} FoldLeftCollect<T, V, U>(acc: V, xs: seq<T>, step: (V, T) -> V, m: V -> seq<U>, w: T -> U)
    requires forall v, x :: m(step(v, x)) == m(v) + [w(x)]
    ensures m(FoldLeft(acc, xs, step)) == m(acc) + Map(xs, w)
    decreases |xs|
  {
    if xs != [] {
      var init := xs[..|xs| - 1];
      FoldLeftCollect(acc, init, step, m, w);
      assert Map(xs, w) == Map(init, w) + [w(xs[|xs| - 1])];
    }
  }

  /** Writing a new key appends its entry. */
  lemma {:induction false} PutAbsent<K, V>(d: seq<Entry<K, V>>, k: K, v: V)
    requires k !in KeysOf(d)
    ensures Put(d, k, v) == d + [Entry(k, v)]
    decreases |d|
  {
    if d != [] {
      assert KeysOf(d) == [d[0].key] + KeysOf(d[1..]);
      PutAbsent(d[1..], k, v);
    }
  }

  /** With distinct keys, writing an existing key replaces its entry in place. */
  lemma {:induction false} PutAt<K, V>(d: seq<Entry<K, V>>, j: int, v: V)
    requires DistinctKeys(d) && 0 <= j < |d|
    ensures Put(d, d[j].key, v) == d[j := Entry(d[j].key, v)]
    decreases |d|
  {
    if j > 0 {
      PutAt(d[1..], j - 1, v);
    }
  }
}

/** Plain JavaScript objects with string keys: an ordered list of entries
    in which a key occurs at most once. Assigning to an existing key keeps
    its position; a new key goes last. */
module Records {
  import opened Wrappers
  import opened Seqs

  /** A property value: a string, a number, `null`, or any other value,
      of which only a description is kept. */
  datatype Value = Str(s: string) | Num(n: int) | Null | NonString(repr: string)

  type Entries = seq<(string, Value)>

  /** The keys in order, as `Object.keys` lists them. */
  function Keys(o: Entries): (r: seq<string>)
    ensures |r| == |o| && forall i :: 0 <= i < |o| ==> r[i] == o[i].0
  {
    seq(|o|, (i: int) requires 0 <= i < |o| => o[i].0)
  }

  predicate KeysUnique(o: Entries) {
    forall i, j :: 0 <= i < j < |o| ==> o[i].0 != o[j].0
  }

  /** `o[k]`, or `undefined`. */
  function Lookup(o: Entries, k: string): Option<Value> {
    if o == [] then None
    else if o[0].0 == k then Some(o[0].1)
    else Lookup(o[1..], k)
  }

  /** A lookup finds the first entry with that key, and fails exactly when
      there is none. */
  lemma {:induction false} LookupFinds(o: Entries, k: string)
    ensures Lookup(o, k).None? <==> k !in Keys(o)
    ensures Lookup(o, k).Some? ==> exists i :: 0 <= i < |o| && o[i] == (k, Lookup(o, k).value)
    decreases |o|
  {
    if o != [] {
      LookupFinds(o[1..], k);
      assert Keys(o) == [o[0].0] + Keys(o[1..]);
      if o[0].0 != k && Lookup(o, k).Some? {
        var i :| 0 <= i < |o[1..]| && o[1..][i] == (k, Lookup(o, k).value);
        assert o[i + 1] == o[1..][i];
      }
    }
  }

  /** `o[k] = v`. */
  function Assign(o: Entries, k: string, v: Value): (r: Entries)
    ensures Lookup(r, k) == Some(v)
    ensures forall k' :: k' != k ==> Lookup(r, k') == Lookup(o, k')
  {
    if o == [] then [(k, v)]
    else if o[0].0 == k then [(k, v)] + o[1..]
    else [o[0]] + Assign(o[1..], k, v)
  }

  /** An assignment keeps every key in its place: it replaces the value of
      an existing key, or appends a new key. */
  lemma {:induction false} AssignKeys(o: Entries, k: string, v: Value)
    ensures Keys(Assign(o, k, v)) == if Lookup(o, k).Some? then Keys(o) else Keys(o) + [k]
    decreases |o|
  {
    if o == [] {
      assert Keys([(k, v)]) == [k];
    } else if o[0].0 == k {
      assert Keys(Assign(o, k, v)) == Keys(o);
    } else {
      AssignKeys(o[1..], k, v);
      KeysCons(o);
      KeysCons(Assign(o, k, v));
    }
  }

  lemma KeysCons(o: Entries)
    requires o != []
    ensures Keys(o) == [o[0].0] + Keys(o[1..])
  {
  }

  /** An assignment never duplicates a key. */
  lemma AssignKeepsKeysUnique(o: Entries, k: string, v: Value)
    ensures KeysUnique(o) ==> KeysUnique(Assign(o, k, v))
  {
    var r := Assign(o, k, v);
    AssignKeys(o, k, v);
    LookupFinds(o, k);
    if KeysUnique(o) {
      var ks := Keys(r);
      forall i, j | 0 <= i < j < |r|
        ensures r[i].0 != r[j].0
      {
        assert ks[i] == r[i].0 && ks[j] == r[j].0;
        if j < |o| {
          assert ks[i] == o[i].0 && ks[j] == o[j].0;
        } else {
          assert ks[j] == k && ks[i] == Keys(o)[i];
        }
      }
    }
  }

  /** Assigning the entries of `es` one after another, as a spread
      `{ ...o, ...es }` or a `reduce` that assigns does. */
  function AssignAll(o: Entries, es: Entries): Entries
    decreases |es|
  {
    if es == [] then o
    else AssignAll(Assign(o, es[0].0, es[0].1), es[1..])
  }

  /** Assigning several entries keeps every key of `o` in its place and
      never duplicates a key. */
  lemma {:induction false} AssignAllKeepsKeys(o: Entries, es: Entries)
    ensures |AssignAll(o, es)| >= |o|
    ensures forall i :: 0 <= i < |o| ==> AssignAll(o, es)[i].0 == o[i].0
    ensures KeysUnique(o) ==> KeysUnique(AssignAll(o, es))
    decreases |es|
  {
    if es != [] {
      var o' := Assign(o, es[0].0, es[0].1);
      AssignKeys(o, es[0].0, es[0].1);
      AssignKeepsKeysUnique(o, es[0].0, es[0].1);
      AssignAllKeepsKeys(o', es[1..]);
      forall i | 0 <= i < |o|
        ensures o'[i].0 == o[i].0
      {
        assert Keys(o')[i] == Keys(o)[i];
      }
    }
  }

  /** Assigning one more entry at the end of the list is one more
      assignment. */
  lemma {:induction false} AssignAllSnoc(o: Entries, es: Entries, k: string, v: Value)
    ensures AssignAll(o, es + [(k, v)]) == Assign(AssignAll(o, es), k, v)
    decreases |es|
  {
    if es == [] {
      assert es + [(k, v)] == [(k, v)];
    } else {
      assert (es + [(k, v)])[1..] == es[1..] + [(k, v)];
      AssignAllSnoc(Assign(o, es[0].0, es[0].1), es[1..], k, v);
    }
  }

  /** Assigning distinct new keys appends them in order. */
  lemma {:induction false} AssignAllKeys(o: Entries, es: Entries)
    requires KeysUnique(es)
    requires forall i :: 0 <= i < |es| ==> es[i].0 !in Keys(o)
    ensures Keys(AssignAll(o, es)) == Keys(o) + Keys(es)
    decreases |es|
  {
    if es != [] {
      var k, v := es[0].0, es[0].1;
      var o' := Assign(o, k, v);
      AssignOneNewKey(o, k, v);
      KeysUniqueTail(es);
      NewKeysTail(o, es);
      AssignAllKeys(o', es[1..]);
      KeysCons(es);
      assert AssignAll(o, es) == AssignAll(o', es[1..]);
      assert Keys(o) + Keys(es) == Keys(o) + [k] + Keys(es[1..]);
    }
  }

  lemma NewKeysTail(o: Entries, es: Entries)
    requires es != [] && KeysUnique(es)
    requires forall i :: 0 <= i < |es| ==> es[i].0 !in Keys(o)
    ensures forall i :: 0 <= i < |es[1..]| ==> es[1..][i].0 !in Keys(o) + [es[0].0]
  {
    forall i | 0 <= i < |es[1..]|
      ensures es[1..][i].0 !in Keys(o) + [es[0].0]
    {
      assert es[1..][i] == es[i + 1];
    }
  }

  lemma AssignOneNewKey(o: Entries, k: string, v: Value)
    requires k !in Keys(o)
    ensures Keys(Assign(o, k, v)) == Keys(o) + [k]
  {
    LookupFinds(o, k);
    AssignKeys(o, k, v);
  }

  lemma KeysUniqueTail(es: Entries)
    requires es != [] && KeysUnique(es)
    ensures KeysUnique(es[1..])
  {
    forall i, j | 0 <= i < j < |es[1..]|
      ensures es[1..][i].0 != es[1..][j].0
    {
      assert es[1..][i] == es[i + 1] && es[1..][j] == es[j + 1];
    }
  }

  /** With distinct keys in `es`, each of its keys ends up with its value
      and every other key keeps the value it had. */
  lemma {:induction false} LookupAssignAll(o: Entries, es: Entries, k: string)
    requires KeysUnique(es)
    ensures Lookup(AssignAll(o, es), k) == if Lookup(es, k).Some? then Lookup(es, k) else Lookup(o, k)
    decreases |es|
  {
    if es != [] {
      assert KeysUnique(es[1..]) by {
        forall i, j | 0 <= i < j < |es[1..]|
          ensures es[1..][i].0 != es[1..][j].0
        {
          assert es[1..][i] == es[i + 1] && es[1..][j] == es[j + 1];
        }
      }
      LookupAssignAll(Assign(o, es[0].0, es[0].1), es[1..], k);
      if k == es[0].0 {
        LookupFinds(es[1..], k);
        assert k !in Keys(es[1..]) by {
          forall i | 0 <= i < |es[1..]|
            ensures Keys(es[1..])[i] != k
          {
            assert es[1..][i] == es[i + 1];
          }
        }
      }
    }
  }

  /** Destructuring `{ a, b, ...rest }`: the entries without those keys,
      in order. */
  function Omit(o: Entries, ks: set<string>): Entries {
    Filter(o, (e: (string, Value)) => e.0 !in ks)
  }

  /** The omitted keys are gone and every other key keeps its value. */
  lemma {:induction false} LookupOmit(o: Entries, ks: set<string>, k: string)
    ensures Lookup(Omit(o, ks), k) == if k in ks then None else Lookup(o, k)
    decreases |o|
  {
    if o != [] {
      LookupOmit(o[1..], ks, k);
    }
  }

  /** Omitting two key sets that agree on the keys present gives the same list. */
  lemma {:induction false} OmitAgree(o: Entries, ks: set<string>, ks': set<string>)
    requires forall i :: 0 <= i < |o| ==> (o[i].0 in ks <==> o[i].0 in ks')
    ensures Omit(o, ks) == Omit(o, ks')
    decreases |o|
  {
    if o != [] {
      OmitAgree(o[1..], ks, ks');
    }
  }
}

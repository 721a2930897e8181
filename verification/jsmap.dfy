/** A JavaScript `Map` with numeric keys. Iteration follows the order in which keys
    were first set; setting an existing key keeps its place, deleting drops it. */
module JsMap {
  import opened Wrappers
  import opened Seqs

  datatype OrderedMap<V(==)> = OrderedMap(keys: seq<int>, entries: map<int, V>) {

    /** Each key is listed once, and the listed keys are exactly the keys with an entry. */
    ghost predicate Valid() {
      && Distinct(keys)
      && (forall k :: k in entries ==> k in keys)
      && (forall k :: k in keys ==> k in entries)
    }

    /** `map.has(k)` */
    predicate Has(k: int) {
      k in entries
    }

    /** `map.get(k)` */
    function Get(k: int): Option<V> {
      if k in entries then Some(entries[k]) else None
    }

    /** `map.set(k, v)` */
    function Set(k: int, v: V): (m: OrderedMap<V>)
      ensures Valid() ==> m.Valid()
      ensures m.Get(k) == Some(v)
      ensures forall k' :: k' != k ==> m.Get(k') == Get(k')
      ensures k in keys ==> m.keys == keys
      ensures k !in keys ==> m.keys == keys + [k]
    {
      OrderedMap(if k in keys then keys else keys + [k], entries[k := v])
    }

    /** `map.delete(k)`; whether `k` was there is `Has(k)` beforehand. */
    function Delete(k: int): (m: OrderedMap<V>)
      ensures Valid() ==> m.Valid()
      ensures m.Get(k) == None
      ensures forall k' :: k' != k ==> m.Get(k') == Get(k')
    {
      FilterDistinct(keys, Other(k));
      OrderedMap(Filter(keys, Other(k)), entries - {k})
    }

    /** `Array.from(map.values())` */
    function Values(): (r: seq<V>)
    {
      ValuesOf(keys, entries)
    }
  }

  /** With a valid map, every stored value is listed. */
  lemma ValuesComplete<V>(m: OrderedMap<V>)
    requires m.Valid()
    ensures forall k :: k in m.entries ==> m.entries[k] in m.Values()
  {
  }

  /** Every listed value is stored under its own key, when values carry their key. */
  lemma ValuesSound<V>(m: OrderedMap<V>, key: V -> int)
    requires forall k :: k in m.entries ==> key(m.entries[k]) == k
    ensures forall v :: v in m.Values() ==> key(v) in m.entries && m.entries[key(v)] == v
  {
    ValuesOfSound(m.keys, m.entries, key);
  }

  lemma {:induction false} ValuesOfSound<V>(ks: seq<int>, m: map<int, V>, key: V -> int)
    requires forall k :: k in m ==> key(m[k]) == k
    ensures forall v :: v in ValuesOf(ks, m) ==> key(v) in m && m[key(v)] == v
  {
    if ks != [] {
      ValuesOfSound(ks[1..], m, key);
    }
  }

  function Empty<V(==)>(): (m: OrderedMap<V>)
    ensures m.Valid() && m.Values() == []
  {
    OrderedMap([], map[])
  }

  function Other(k: int): int -> bool {
    x => x != k
  }

  /** The entries of `m` under the keys `ks`, in that order. */
  function ValuesOf<V(==)>(ks: seq<int>, m: map<int, V>): (r: seq<V>)
    ensures forall k :: k in ks && k in m ==> m[k] in r
  {
    if ks == [] then []
    else (if ks[0] in m then [m[ks[0]]] else []) + ValuesOf(ks[1..], m)
  }

  lemma {:induction false} ValuesOfAppend<V>(ks: seq<int>, k: int, m: map<int, V>)
    requires k in m
    ensures ValuesOf(ks + [k], m) == ValuesOf(ks, m) + [m[k]]
  {
    if ks == [] {
      assert [] + [k] == [k];
    } else {
      assert (ks + [k])[1..] == ks[1..] + [k];
      ValuesOfAppend(ks[1..], k, m);
    }
  }

  lemma {:induction false} ValuesOfIgnores<V>(ks: seq<int>, k: int, v: V, m: map<int, V>)
    requires k !in ks
    ensures ValuesOf(ks, m[k := v]) == ValuesOf(ks, m)
  {
    if ks != [] {
      ValuesOfIgnores(ks[1..], k, v, m);
    }
  }

  /** Setting a new key appends its value. */
  lemma SetNewValues<V>(m: OrderedMap<V>, k: int, v: V)
    requires !m.Has(k) && m.Valid()
    ensures m.Set(k, v).Values() == m.Values() + [v]
  {
    ValuesOfIgnores(m.keys, k, v, m.entries);
    ValuesOfAppend(m.keys, k, m.entries[k := v]);
  }

  /** `s` with every element that `at` selects replaced by `v`. */
  function ReplaceWhere<V>(s: seq<V>, at: V -> bool, v: V): (r: seq<V>)
    ensures |r| == |s|
    ensures forall i :: 0 <= i < |s| ==> r[i] == if at(s[i]) then v else s[i]
  {
    if s == [] then [] else [if at(s[0]) then v else s[0]] + ReplaceWhere(s[1..], at, v)
  }

  lemma {:induction false} ValuesOfReplace<V>(ks: seq<int>, m: map<int, V>, k: int, v: V, at: V -> bool)
    requires k in m
    requires forall key :: key in m ==> at(m[key]) == (key == k)
    ensures ValuesOf(ks, m[k := v]) == ReplaceWhere(ValuesOf(ks, m), at, v)
  {
    if ks != [] {
      ValuesOfReplace(ks[1..], m, k, v, at);
      var head := if ks[0] in m then [m[ks[0]]] else [];
      ReplaceAppend(head, ValuesOf(ks[1..], m), at, v);
    }
  }

  lemma ReplaceAppend<V>(a: seq<V>, b: seq<V>, at: V -> bool, v: V)
    ensures ReplaceWhere(a + b, at, v) == ReplaceWhere(a, at, v) + ReplaceWhere(b, at, v)
  {
    var l, r := ReplaceWhere(a + b, at, v), ReplaceWhere(a, at, v) + ReplaceWhere(b, at, v);
    assert |l| == |r|;
    forall i | 0 <= i < |l| ensures l[i] == r[i] {
      if i >= |a| {
        assert (a + b)[i] == b[i - |a|];
      }
    }
  }

  /** Setting an existing key replaces its value where it stands. `at` picks out the
      value stored under `k` (for records, the one whose id is `k`). */
  lemma SetExistingValues<V>(m: OrderedMap<V>, k: int, v: V, at: V -> bool)
    requires m.Has(k) && m.Valid()
    requires forall key :: key in m.entries ==> at(m.entries[key]) == (key == k)
    ensures m.Set(k, v).Values() == ReplaceWhere(m.Values(), at, v)
  {
    ValuesOfReplace(m.keys, m.entries, k, v, at);
  }

  lemma {:induction false} ValuesOfConcat<V>(a: seq<int>, b: seq<int>, m: map<int, V>)
    ensures ValuesOf(a + b, m) == ValuesOf(a, m) + ValuesOf(b, m)
  {
    if a == [] {
      assert a + b == b;
    } else {
      assert (a + b)[0] == a[0];
      assert (a + b)[1..] == a[1..] + b;
      ValuesOfConcat(a[1..], b, m);
    }
  }

  lemma ValuesOfDeleteOne<V>(k0: int, m: map<int, V>, k: int, keep: V -> bool)
    requires forall key :: key in m ==> keep(m[key]) == (key != k)
    ensures ValuesOf(Filter([k0], Other(k)), m - {k}) == Filter(ValuesOf([k0], m), keep)
  {
    assert [k0][1..] == [];
    FilterSingleton(k0, Other(k));
    if k0 in m {
      assert ValuesOf([k0], m) == [m[k0]];
      FilterSingleton(m[k0], keep);
    } else {
      assert ValuesOf([k0], m) == [];
    }
  }

  lemma {:induction false} ValuesOfDelete<V>(ks: seq<int>, m: map<int, V>, k: int, keep: V -> bool)
    requires forall key :: key in m ==> keep(m[key]) == (key != k)
    ensures ValuesOf(Filter(ks, Other(k)), m - {k}) == Filter(ValuesOf(ks, m), keep)
  {
    if ks != [] {
      var k0, t := ks[0], ks[1..];
      assert ks == [k0] + t;
      ValuesOfDelete(t, m, k, keep);
      FilterAppend([k0], t, Other(k));
      ValuesOfConcat(Filter([k0], Other(k)), Filter(t, Other(k)), m - {k});
      ValuesOfConcat([k0], t, m);
      FilterAppend(ValuesOf([k0], m), ValuesOf(t, m), keep);
      ValuesOfDeleteOne(k0, m, k, keep);
    }
  }

  /** Deleting a key drops its value and keeps the order of the rest. `keep` holds of
      every stored value except the one under `k`. */
  lemma DeleteValues<V>(m: OrderedMap<V>, k: int, keep: V -> bool)
    requires forall key :: key in m.entries ==> keep(m.entries[key]) == (key != k)
    ensures m.Delete(k).Values() == Filter(m.Values(), keep)
  {
    ValuesOfDelete(m.keys, m.entries, k, keep);
  }
}

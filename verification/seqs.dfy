/** The array idioms the source leans on: `filter`, `find` and `filter(...).length`. */
module Seqs {
  import opened Wrappers

  /** `s.filter(f)`: the elements satisfying `f`, in their original order. */
  function Filter<T>(s: seq<T>, f: T -> bool): (r: seq<T>)
    ensures |r| <= |s|
    ensures forall x :: x in r ==> x in s && f(x)
    ensures forall x :: x in s && f(x) ==> x in r
  {
    if s == [] then []
    else
      assert s == [s[0]] + s[1..];
      (if f(s[0]) then [s[0]] else []) + Filter(s[1..], f)
  }

  /** `s.filter(f).length`. */
  function Count<T>(s: seq<T>, f: T -> bool): nat {
    |Filter(s, f)|
  }

  /** `s.find(f)`: the first element satisfying `f`, if any. */
  function Find<T>(s: seq<T>, f: T -> bool): (r: Option<T>)
    ensures r.None? <==> Filter(s, f) == []
    ensures r.Some? ==> r.value == Filter(s, f)[0]
  {
    if s == [] then None
    else
      assert Filter(s, f) == (if f(s[0]) then [s[0]] else []) + Filter(s[1..], f);
      if f(s[0]) then Some(s[0]) else Find(s[1..], f)
  }

  /** The key strictly increases along `s`. */
  ghost predicate IncreasingBy<T>(s: seq<T>, key: T -> int) {
    forall i, j :: 0 <= i < j < |s| ==> key(s[i]) < key(s[j])
  }

  lemma FilterSingleton<T>(x: T, f: T -> bool)
    ensures Filter([x], f) == if f(x) then [x] else []
  {
    assert [x][1..] == [];
  }

  lemma {:induction false} FilterAppend<T>(a: seq<T>, b: seq<T>, f: T -> bool)
    ensures Filter(a + b, f) == Filter(a, f) + Filter(b, f)
  {
    if a == [] {
      assert a + b == b;
    } else {
      var ab := a + b;
      assert ab[0] == a[0];
      assert ab[1..] == a[1..] + b;
      FilterAppend(a[1..], b, f);
      var head := if f(a[0]) then [a[0]] else [];
      assert Filter(ab, f) == head + Filter(a[1..] + b, f);
      assert Filter(a, f) == head + Filter(a[1..], f);
    }
  }

  /** A filter every element passes keeps everything. */
  lemma {:induction false} FilterAll<T>(s: seq<T>, f: T -> bool)
    requires forall x :: x in s ==> f(x)
    ensures Filter(s, f) == s
  {
    if s != [] {
      FilterAll(s[1..], f);
      assert s == [s[0]] + s[1..];
    }
  }

  /** Two tests that agree on every element select the same elements. */
  lemma {:induction false} FilterCongruent<T>(s: seq<T>, f: T -> bool, g: T -> bool)
    requires forall x :: x in s ==> f(x) == g(x)
    ensures Filter(s, f) == Filter(s, g)
  {
    if s != [] {
      FilterCongruent(s[1..], f, g);
    }
  }

  /** Filtering twice is filtering once by the conjunction. */
  lemma {:induction false} FilterFilter<T>(s: seq<T>, f: T -> bool, g: T -> bool, h: T -> bool)
    requires forall x :: x in s ==> h(x) == (f(x) && g(x))
    ensures Filter(Filter(s, f), g) == Filter(s, h)
  {
    if s != [] {
      var x, t := s[0], s[1..];
      assert s == [x] + t;
      FilterFilter(t, f, g, h);
      FilterAppend([x], t, f);
      FilterAppend([x], t, h);
      FilterAppend(Filter([x], f), Filter(t, f), g);
      FilterSingleton(x, f);
      FilterSingleton(x, h);
      if f(x) {
        FilterSingleton(x, g);
      }
    }
  }

  /** Two filters commute. */
  lemma FilterCommute<T>(s: seq<T>, f: T -> bool, g: T -> bool)
    ensures Filter(Filter(s, f), g) == Filter(Filter(s, g), f)
  {
    var both := x => f(x) && g(x);
    FilterFilter(s, f, g, both);
    FilterFilter(s, g, f, both);
  }

  /** Tests that no element passes together select at most `|s|` elements in all. */
  lemma {:induction false} CountDisjoint<T>(s: seq<T>, f: T -> bool, g: T -> bool)
    requires forall x :: x in s ==> !(f(x) && g(x))
    ensures Count(s, f) + Count(s, g) <= |s|
  {
    if s != [] {
      CountDisjoint(s[1..], f, g);
    }
  }

  /** A filter keeps the order of what it keeps. */
  lemma {:induction false} FilterIncreasing<T>(s: seq<T>, f: T -> bool, key: T -> int)
    requires IncreasingBy(s, key)
    ensures IncreasingBy(Filter(s, f), key)
  {
    if s != [] {
      var rest := Filter(s[1..], f);
      FilterIncreasing(s[1..], f, key);
      if f(s[0]) {
        forall j | 0 <= j < |rest| ensures key(s[0]) < key(rest[j]) {
          assert rest[j] in s[1..];
        }
      }
    }
  }

  /** The elements of `s` are pairwise distinct. */
  ghost predicate Distinct<T>(s: seq<T>) {
    forall i, j :: 0 <= i < j < |s| ==> s[i] != s[j]
  }

  /** A filter of distinct elements has distinct elements. */
  lemma {:induction false} FilterDistinct<T>(s: seq<T>, f: T -> bool)
    ensures Distinct(s) ==> Distinct(Filter(s, f))
  {
    if s != [] && Distinct(s) {
      var rest := Filter(s[1..], f);
      FilterDistinct(s[1..], f);
      if f(s[0]) {
        forall j | 0 <= j < |rest| ensures s[0] != rest[j] {
          assert rest[j] in s[1..];
        }
      }
    }
  }
}

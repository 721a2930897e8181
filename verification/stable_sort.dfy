/** A stable sort by an integer key, the behaviour of `Array.prototype.sort` with a
    comparator that subtracts keys: elements with equal keys keep their order. */
module StableSort {
  import opened Seqs

  /** `a` comes before `b`: a smaller key, or the same key and a smaller id. */
  ghost predicate LexBefore<T>(a: T, b: T, key: T -> int, id: T -> int) {
    key(a) < key(b) || (key(a) == key(b) && id(a) < id(b))
  }

  /** Ordered by `key`, ties broken by `id`. */
  ghost predicate LexSorted<T>(s: seq<T>, key: T -> int, id: T -> int) {
    forall i, j :: 0 <= i < j < |s| ==> LexBefore(s[i], s[j], key, id)
  }

  /** A head that comes before every element of a sorted tail gives a sorted sequence. */
  lemma LexSortedCons<T>(h: T, t: seq<T>, key: T -> int, id: T -> int)
    requires LexSorted(t, key, id)
    requires forall y :: y in t ==> LexBefore(h, y, key, id)
    ensures LexSorted([h] + t, key, id)
  {
    var r := [h] + t;
    forall i, j | 0 <= i < j < |r| ensures LexBefore(r[i], r[j], key, id) {
      assert r[j] == t[j - 1];
      if i > 0 {
        assert r[i] == t[i - 1];
      }
    }
  }

  /** Puts `x` in front of the first element whose key is not below its own. */
  function Insert<T>(x: T, s: seq<T>, key: T -> int): (r: seq<T>)
    ensures multiset(r) == multiset(s) + multiset{x}
  {
    if s == [] then [x]
    else if key(x) <= key(s[0]) then [x] + s
    else
      assert s == [s[0]] + s[1..];
      [s[0]] + Insert(x, s[1..], key)
  }

  /** Insertion sort from the back: the head goes in front of every later element
      with the same key. */
  function SortBy<T>(s: seq<T>, key: T -> int): (r: seq<T>)
    ensures multiset(r) == multiset(s)
  {
    if s == [] then []
    else
      assert s == [s[0]] + s[1..];
      Insert(s[0], SortBy(s[1..], key), key)
  }

  lemma {:induction false} InsertLexSorted<T>(x: T, s: seq<T>, key: T -> int, id: T -> int)
    requires LexSorted(s, key, id)
    requires forall y :: y in s ==> id(x) < id(y)
    ensures LexSorted(Insert(x, s, key), key, id)
  {
    if s == [] {
    } else if key(x) <= key(s[0]) {
      forall y | y in s ensures LexBefore(x, y, key, id) {
        var k :| 0 <= k < |s| && s[k] == y;
        if k > 0 {
          assert LexBefore(s[0], s[k], key, id);
        }
      }
      LexSortedCons(x, s, key, id);
    } else {
      var tail := Insert(x, s[1..], key);
      LexSortedTail(s, key, id);
      InsertLexSorted(x, s[1..], key, id);
      forall y | y in tail ensures LexBefore(s[0], y, key, id) {
        assert y in multiset(tail);
        if y != x {
          assert y in multiset(s[1..]);
          var k :| 0 <= k < |s[1..]| && s[1..][k] == y;
          assert s[k + 1] == y;
        }
      }
      LexSortedCons(s[0], tail, key, id);
    }
  }

  /** Sorting a sequence whose ids increase orders it by key and, among equal keys,
      by id: the stable order. */
  lemma {:induction false} SortByStable<T>(s: seq<T>, key: T -> int, id: T -> int)
    requires IncreasingBy(s, id)
    ensures LexSorted(SortBy(s, key), key, id)
  {
    if s != [] {
      var rest := SortBy(s[1..], key);
      SortByStable(s[1..], key, id);
      forall y | y in rest ensures id(s[0]) < id(y) {
        assert y in multiset(s[1..]);
        var k :| 0 <= k < |s[1..]| && s[1..][k] == y;
        assert s[k + 1] == y;
      }
      InsertLexSorted(s[0], rest, key, id);
    }
  }

  /** Two sequences with the same elements that are both in the stable order are
      equal: every stable sort gives the same result. */
  lemma {:induction false} LexSortedUnique<T>(a: seq<T>, b: seq<T>, key: T -> int, id: T -> int)
    requires multiset(a) == multiset(b)
    requires LexSorted(a, key, id) && LexSorted(b, key, id)
    ensures a == b
  {
    if a != [] {
      LexSortedSameHead(a, b, key, id);
      var x := a[0];
      assert a == [x] + a[1..] && b == [x] + b[1..];
      assert multiset(a[1..]) == multiset(b[1..]) by {
        assert multiset(a) == multiset{x} + multiset(a[1..]);
        assert multiset(b) == multiset{x} + multiset(b[1..]);
        forall y ensures multiset(a[1..])[y] == multiset(b[1..])[y] {
          assert multiset(a)[y] == multiset(b)[y];
        }
      }
      LexSortedTail(a, key, id);
      LexSortedTail(b, key, id);
      LexSortedUnique(a[1..], b[1..], key, id);
    }
  }

  lemma LexSortedSameHead<T>(a: seq<T>, b: seq<T>, key: T -> int, id: T -> int)
    requires multiset(a) == multiset(b) && a != []
    requires LexSorted(a, key, id) && LexSorted(b, key, id)
    ensures b != [] && a[0] == b[0]
  {
    assert |b| == |multiset(b)| == |multiset(a)| == |a|;
    assert a[0] in multiset(b) && b[0] in multiset(a);
    var i :| 0 <= i < |b| && b[i] == a[0];
    var j :| 0 <= j < |a| && a[j] == b[0];
  }

  lemma LexSortedTail<T>(s: seq<T>, key: T -> int, id: T -> int)
    requires LexSorted(s, key, id) && s != []
    ensures LexSorted(s[1..], key, id)
  {
    forall i, j | 0 <= i < j < |s[1..]| ensures LexBefore(s[1..][i], s[1..][j], key, id) {
      assert s[1..][i] == s[i + 1] && s[1..][j] == s[j + 1];
    }
  }
}

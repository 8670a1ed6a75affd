/**
 * `Array.prototype.sort` with a numeric comparator `(a, b) => key(a) - key(b)`.
 * ECMAScript requires the sort to be stable, and a stable sort's result is
 * determined by its input: it is insertion sort's result, which is what is
 * modelled here.
 */
module Sorting {

  ghost predicate Sorted<T>(s: seq<T>, key: T -> int)
  {
    forall i, j :: 0 <= i < j < |s| ==> key(s[i]) <= key(s[j])
  }

  /** No element of `s` has a key below `b`. */
  ghost predicate AtLeast<T>(b: int, s: seq<T>, key: T -> int)
  {
    forall y | y in s :: b <= key(y)
  }

  /** Put `x` in front of the first element whose key is not smaller than its own. */
  function Insert<T>(x: T, s: seq<T>, key: T -> int): (r: seq<T>)
    ensures multiset(r) == multiset(s) + multiset{x}
  {
    if s == [] || key(x) <= key(s[0]) then [x] + s
    else
      assert s == [s[0]] + s[1..];
      [s[0]] + Insert(x, s[1..], key)
  }

  lemma InsertPast<T>(x: T, s: seq<T>, key: T -> int)
    requires s != [] && key(s[0]) < key(x)
    ensures Insert(x, s, key) == [s[0]] + Insert(x, s[1..], key)
  {
  }

  lemma InsertHere<T>(x: T, s: seq<T>, key: T -> int)
    requires s == [] || key(x) <= key(s[0])
    ensures Insert(x, s, key) == [x] + s
  {
  }

  lemma AtLeastMultiset<T>(b: int, s: seq<T>, t: seq<T>, key: T -> int)
    requires AtLeast(b, s, key) && multiset(t) <= multiset(s)
    ensures AtLeast(b, t, key)
  {
    forall y | y in t ensures b <= key(y) {
      assert y in multiset(t);
    }
  }

  lemma SortedCons<T>(x: T, s: seq<T>, key: T -> int)
    requires Sorted(s, key) && AtLeast(key(x), s, key)
    ensures Sorted([x] + s, key)
  {
    var r := [x] + s;
    forall i, j | 0 <= i < j < |r| ensures key(r[i]) <= key(r[j]) {
      if i == 0 {
        assert r[j] == s[j - 1];
      } else {
        assert r[i] == s[i - 1] && r[j] == s[j - 1];
      }
    }
  }

  lemma {:induction false} InsertSorted<T>(x: T, s: seq<T>, key: T -> int)
    requires Sorted(s, key)
    ensures Sorted(Insert(x, s, key), key)
  {
    if s == [] || key(x) <= key(s[0]) {
      assert AtLeast(key(x), s, key) by {
        forall y | y in s ensures key(x) <= key(y) {
          var k :| 0 <= k < |s| && s[k] == y;
        }
      }
      SortedCons(x, s, key);
    } else {
      var rest := Insert(x, s[1..], key);
      assert Sorted(s[1..], key);
      InsertSorted(x, s[1..], key);
      assert AtLeast(key(s[0]), s[1..] + [x], key) by {
        forall y | y in s[1..] + [x] ensures key(s[0]) <= key(y) {
          if y != x {
            var k :| 0 <= k < |s[1..]| && s[1..][k] == y;
            assert s[k + 1] == y;
          }
        }
      }
      AtLeastMultiset(key(s[0]), s[1..] + [x], rest, key);
      SortedCons(s[0], rest, key);
    }
  }

  /** The stable sort of `s` by `key`. */
  function Sort<T>(s: seq<T>, key: T -> int): (r: seq<T>)
    ensures multiset(r) == multiset(s)
  {
    if s == [] then []
    else
      assert s == [s[0]] + s[1..];
      Insert(s[0], Sort(s[1..], key), key)
  }

  /** The sort's result is in key order. */
  lemma {:induction false} SortSorted<T>(s: seq<T>, key: T -> int)
    ensures Sorted(Sort(s, key), key)
  {
    if s != [] {
      SortSorted(s[1..], key);
      InsertSorted(s[0], Sort(s[1..], key), key);
    }
  }

  /** The elements of `s` whose key is `k`, in order. */
  function WithKey<T>(s: seq<T>, key: T -> int, k: int): seq<T>
  {
    if s == [] then [] else (if key(s[0]) == k then [s[0]] else []) + WithKey(s[1..], key, k)
  }

  lemma {:induction false} InsertWithKey<T>(x: T, s: seq<T>, key: T -> int, k: int)
    ensures WithKey(Insert(x, s, key), key, k)
         == (if key(x) == k then [x] else []) + WithKey(s, key, k)
  {
    var r := Insert(x, s, key);
    if s == [] || key(x) <= key(s[0]) {
      assert r[0] == x && r[1..] == s;
    } else {
      var rest := Insert(x, s[1..], key);
      assert r[0] == s[0] && r[1..] == rest;
      InsertWithKey(x, s[1..], key, k);
      if key(x) == k {
        assert key(s[0]) != k;
        assert WithKey(r, key, k) == WithKey(rest, key, k);
        assert WithKey(s, key, k) == WithKey(s[1..], key, k);
      } else {
        assert WithKey(rest, key, k) == WithKey(s[1..], key, k);
      }
    }
  }

  /**
   * Stability: among elements with equal keys the sort keeps the input order.
   * With sortedness and the permutation property this pins the result down.
   */
  lemma {:induction false} SortIsStable<T>(s: seq<T>, key: T -> int, k: int)
    ensures WithKey(Sort(s, key), key, k) == WithKey(s, key, k)
  {
    if s != [] {
      SortIsStable(s[1..], key, k);
      InsertWithKey(s[0], Sort(s[1..], key), key, k);
    }
  }

  /** Sorting an already sorted sequence changes nothing. */
  lemma {:induction false} SortOfSorted<T>(s: seq<T>, key: T -> int)
    requires Sorted(s, key)
    ensures Sort(s, key) == s
  {
    if s != [] {
      assert Sorted(s[1..], key);
      SortOfSorted(s[1..], key);
      assert s == [s[0]] + s[1..];
    }
  }

  /** The stable merge of two sequences; on equal keys the element of `a` comes first. */
  function Merge<T>(a: seq<T>, b: seq<T>, key: T -> int): (r: seq<T>)
    ensures |r| == |a| + |b|
    ensures a != [] && b != [] ==> r[0] == a[0] || r[0] == b[0]
    ensures a == [] ==> r == b
    ensures b == [] ==> r == a
    decreases |a| + |b|
  {
    if a == [] then b
    else if b == [] then a
    else if key(a[0]) <= key(b[0]) then [a[0]] + Merge(a[1..], b, key)
    else [b[0]] + Merge(a, b[1..], key)
  }

  lemma MergeTakeLeft<T>(a: seq<T>, b: seq<T>, key: T -> int)
    requires a != [] && b != [] && key(a[0]) <= key(b[0])
    ensures Merge(a, b, key) == [a[0]] + Merge(a[1..], b, key)
  {
  }

  lemma MergeTakeRight<T>(a: seq<T>, b: seq<T>, key: T -> int)
    requires a != [] && b != [] && key(b[0]) < key(a[0])
    ensures Merge(a, b, key) == [b[0]] + Merge(a, b[1..], key)
  {
  }

  lemma {:induction false} InsertIsMerge<T>(x: T, b: seq<T>, key: T -> int)
    ensures Insert(x, b, key) == Merge([x], b, key)
  {
    if b != [] && key(x) > key(b[0]) {
      InsertIsMerge(x, b[1..], key);
      assert [x][1..] == [];
    }
  }

  lemma {:induction false} InsertBeforeMerge<T>(x: T, a: seq<T>, b: seq<T>, key: T -> int)
    requires AtLeast(key(x), a, key)
    ensures Insert(x, Merge(a, b, key), key) == Merge([x] + a, b, key)
    decreases |a| + |b|
  {
    var xa := [x] + a;
    assert xa[0] == x && xa[1..] == a;
    if b == [] {
      assert a != [] ==> a[0] in a;
    } else if a == [] {
      assert xa == [x];
      InsertIsMerge(x, b, key);
    } else if key(x) <= key(b[0]) {
      assert a[0] in a;
      var m := Merge(a, b, key);
      assert key(x) <= key(m[0]);
    } else {
      assert a[0] in a;
      assert key(a[0]) > key(b[0]);
      InsertBeforeMerge(x, a, b[1..], key);
    }
  }

  lemma SortedHead<T>(a: seq<T>, key: T -> int)
    requires a != [] && Sorted(a, key)
    ensures Sorted(a[1..], key) && AtLeast(key(a[0]), a[1..], key)
  {
    forall y | y in a[1..] ensures key(a[0]) <= key(y) {
      var k :| 0 <= k < |a[1..]| && a[1..][k] == y;
      assert a[k + 1] == y;
    }
  }

  /**
   * Sorting `a + b` with `a` already sorted merges `a` with the sorted `b`,
   * `a`'s elements first on ties: stable sorting keeps them ahead.
   */
  lemma {:induction false} SortAppend<T>(a: seq<T>, b: seq<T>, key: T -> int)
    requires Sorted(a, key)
    ensures Sort(a + b, key) == Merge(a, Sort(b, key), key)
  {
    if a != [] {
      var ab := a + b;
      assert ab[0] == a[0] && ab[1..] == a[1..] + b;
      assert Sort(ab, key) == Insert(a[0], Sort(a[1..] + b, key), key);
      SortedHead(a, key);
      SortAppend(a[1..], b, key);
      InsertBeforeMerge(a[0], a[1..], Sort(b, key), key);
      assert [a[0]] + a[1..] == a;
    } else {
      assert a + b == b;
    }
  }
}

/**
  Sequence helpers that stand for two Python idioms the plugin relies on:
  list comprehensions with a condition (`[c for c in xs if p(c)]`) and the
  stable `list.sort(key=...)`.
*/
module Seqs {

  /** The elements of `s` that satisfy `p`, in their order in `s`. */
  function Filter<T>(s: seq<T>, p: T -> bool): (r: seq<T>)
    ensures |r| <= |s|
    ensures forall x :: x in r ==> x in s && p(x)
  {
    if s == [] then [] else (if p(s[0]) then [s[0]] else []) + Filter(s[1..], p)
  }

  /** Filtering distributes over concatenation; this is what a loop that appends kept elements relies on. */
  lemma {:induction false} FilterAppend<T>(a: seq<T>, b: seq<T>, p: T -> bool)
    ensures Filter(a + b, p) == Filter(a, p) + Filter(b, p)
  {
    if a == [] {
      assert a + b == b;
    } else {
      assert (a + b)[1..] == a[1..] + b;
      FilterAppend(a[1..], b, p);
    }
  }

  /** Nothing that satisfies `p` is dropped. */
  lemma {:induction false} FilterComplete<T>(s: seq<T>, p: T -> bool, i: nat)
    requires i < |s| && p(s[i])
    ensures s[i] in Filter(s, p)
  {
    if i > 0 {
      FilterComplete(s[1..], p, i - 1);
    }
  }

  /** Both conditions at once. */
  function Both<T>(p: T -> bool, q: T -> bool): T -> bool
  {
    x => p(x) && q(x)
  }

  /** Filtering twice is filtering once by the conjunction. */
  lemma {:induction false} FilterFilter<T>(s: seq<T>, p: T -> bool, q: T -> bool)
    ensures Filter(Filter(s, p), q) == Filter(s, Both(p, q))
  {
    if s != [] {
      FilterFilter(s[1..], p, q);
      if p(s[0]) {
        assert Filter(s, p) == [s[0]] + Filter(s[1..], p);
        assert Filter(s, p)[1..] == Filter(s[1..], p);
      } else {
        assert Filter(s, p) == Filter(s[1..], p);
      }
    }
  }

  /** The positions of `s` whose element satisfies `p`, in increasing order. */
  function FilterIndices<T>(s: seq<T>, p: T -> bool): seq<nat>
  {
    if s == [] then []
    else
      var shifted := Shifted(FilterIndices(s[1..], p));
      if p(s[0]) then [0] + shifted else shifted
  }

  /** Every position plus one. */
  function Shifted(rest: seq<nat>): (r: seq<nat>)
    ensures |r| == |rest|
    ensures forall k :: 0 <= k < |r| ==> r[k] == rest[k] + 1
  {
    seq(|rest|, k requires 0 <= k < |rest| => rest[k] + 1)
  }

  /** The k-th kept element is the element of `s` at the k-th kept position. */
  lemma {:induction false} FilterIndicesAt<T>(s: seq<T>, p: T -> bool)
    ensures |FilterIndices(s, p)| == |Filter(s, p)|
    ensures forall k :: 0 <= k < |FilterIndices(s, p)| ==>
      FilterIndices(s, p)[k] < |s| && s[FilterIndices(s, p)[k]] == Filter(s, p)[k]
  {
    if s != [] {
      FilterIndicesAt(s[1..], p);
      var rest := FilterIndices(s[1..], p);
      var idx := FilterIndices(s, p);
      var f := Filter(s, p);
      var g := Filter(s[1..], p);
      assert f == (if p(s[0]) then [s[0]] else []) + g;
      forall k | 0 <= k < |idx| ensures idx[k] < |s| && s[idx[k]] == f[k] {
        if p(s[0]) && k == 0 {
        } else {
          var k' := if p(s[0]) then k - 1 else k;
          assert idx[k] == rest[k'] + 1;
          assert f[k] == g[k'];
          assert s[1..][rest[k']] == s[rest[k'] + 1];
        }
      }
    }
  }

  /** The kept positions strictly increase, so filtering keeps the input order. */
  lemma {:induction false} FilterIndicesIncrease<T>(s: seq<T>, p: T -> bool)
    ensures forall k, l :: 0 <= k < l < |FilterIndices(s, p)| ==> FilterIndices(s, p)[k] < FilterIndices(s, p)[l]
  {
    if s != [] {
      FilterIndicesIncrease(s[1..], p);
      var rest := FilterIndices(s[1..], p);
      var idx := FilterIndices(s, p);
      forall k, l | 0 <= k < l < |idx| ensures idx[k] < idx[l] {
        if p(s[0]) {
          if k == 0 {
            assert idx[l] == rest[l - 1] + 1;
          } else {
            assert idx[k] == rest[k - 1] + 1 && idx[l] == rest[l - 1] + 1;
          }
        } else {
          assert idx[k] == rest[k] + 1 && idx[l] == rest[l] + 1;
        }
      }
    }
  }

  /** Every position of `s` whose element satisfies `p` is kept. */
  lemma {:induction false} FilterIndicesComplete<T>(s: seq<T>, p: T -> bool, i: nat)
    requires i < |s| && p(s[i])
    ensures i in FilterIndices(s, p)
  {
    if i > 0 {
      assert s[1..][i - 1] == s[i];
      FilterIndicesComplete(s[1..], p, i - 1);
      var rest := FilterIndices(s[1..], p);
      var k :| 0 <= k < |rest| && rest[k] == i - 1;
      assert Shifted(rest)[k] == i;
    }
  }

  /** The condition "the key is `k`". */
  function HasKey<T>(key: T -> int, k: int): T -> bool
  {
    x => key(x) == k
  }

  /** The elements of `s` whose key is `k`, in their order in `s`. */
  function KeyClass<T>(s: seq<T>, key: T -> int, k: int): seq<T>
  {
    Filter(s, HasKey(key, k))
  }

  /** Ascending by key. */
  ghost predicate SortedBy<T>(s: seq<T>, key: T -> int)
  {
    forall i, j :: 0 <= i < j < |s| ==> key(s[i]) <= key(s[j])
  }

  /** Inserts `x` into a sequence in front of the first element whose key is not smaller. */
  function Insert<T>(x: T, s: seq<T>, key: T -> int): (r: seq<T>)
    ensures |r| == |s| + 1
  {
    if s == [] || key(x) <= key(s[0]) then [x] + s else [s[0]] + Insert(x, s[1..], key)
  }

  /**
    Stable sort by key, as Python's `list.sort(key=...)` does it: lemmas
    SortByOrdered (order and permutation) and SortByStable give its contract.
  */
  function SortBy<T>(s: seq<T>, key: T -> int): (r: seq<T>)
    ensures |r| == |s|
  {
    if s == [] then [] else Insert(s[0], SortBy(s[1..], key), key)
  }

  /** Inserting adds exactly `x`. */
  lemma {:induction false} InsertPermutes<T>(x: T, s: seq<T>, key: T -> int)
    ensures multiset(Insert(x, s, key)) == multiset(s) + multiset{x}
  {
    if s != [] && key(x) > key(s[0]) {
      InsertPermutes(x, s[1..], key);
      assert s == [s[0]] + s[1..];
    }
  }

  /** Inserting into a sorted sequence keeps it sorted. */
  lemma {:induction false} InsertOrdered<T>(x: T, s: seq<T>, key: T -> int)
    requires SortedBy(s, key)
    ensures SortedBy(Insert(x, s, key), key)
  {
    if s == [] || key(x) <= key(s[0]) {
      assert Insert(x, s, key) == [x] + s;
    } else {
      var rest := Insert(x, s[1..], key);
      InsertOrdered(x, s[1..], key);
      InsertPermutes(x, s[1..], key);
      forall j | 0 <= j < |rest| ensures key(s[0]) <= key(rest[j]) {
        var y := rest[j];
        assert y in multiset(rest);
        if y != x {
          assert y in multiset(s[1..]);
          var k :| 0 <= k < |s[1..]| && s[1..][k] == y;
          assert s[k + 1] == y;
        }
      }
      var r := [s[0]] + rest;
      assert r == Insert(x, s, key);
      forall i, j | 0 <= i < j < |r| ensures key(r[i]) <= key(r[j]) {
        assert r[j] == rest[j - 1];
        if i > 0 {
          assert r[i] == rest[i - 1];
        }
      }
    }
  }

  /** The sorted sequence is ascending by key and holds exactly the input's elements, as often as the input does. */
  lemma {:induction false} SortByOrdered<T>(s: seq<T>, key: T -> int)
    ensures SortedBy(SortBy(s, key), key)
    ensures multiset(SortBy(s, key)) == multiset(s)
  {
    if s != [] {
      SortByOrdered(s[1..], key);
      InsertOrdered(s[0], SortBy(s[1..], key), key);
      InsertPermutes(s[0], SortBy(s[1..], key), key);
      assert s == [s[0]] + s[1..];
    }
  }

  lemma {:induction false} InsertKeyClass<T>(x: T, s: seq<T>, key: T -> int, k: int)
    ensures KeyClass(Insert(x, s, key), key, k) == (if key(x) == k then [x] else []) + KeyClass(s, key, k)
  {
    if s == [] || key(x) <= key(s[0]) {
      assert Insert(x, s, key) == [x] + s;
      assert ([x] + s)[1..] == s;
    } else {
      var rest := Insert(x, s[1..], key);
      assert Insert(x, s, key) == [s[0]] + rest;
      assert ([s[0]] + rest)[1..] == rest;
      InsertKeyClass(x, s[1..], key, k);
    }
  }

  /** Stability: among elements with the same key, the sorted sequence keeps the input order. */
  lemma {:induction false} SortByStable<T>(s: seq<T>, key: T -> int, k: int)
    ensures KeyClass(SortBy(s, key), key, k) == KeyClass(s, key, k)
  {
    if s != [] {
      SortByStable(s[1..], key, k);
      InsertKeyClass(s[0], SortBy(s[1..], key), key, k);
    }
  }
}

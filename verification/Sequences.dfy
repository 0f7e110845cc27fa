/** The array operations the browser code chains together: `filter`,
    and `sort`, which JavaScript engines perform stably, with a numeric
    comparator `(a, b) => key(a) - key(b)` or with the default string
    order. */
module Sequences {
  import opened Text

  /** `s.filter(p)`. */
  function Filter<T(!new)>(s: seq<T>, p: T -> bool): (r: seq<T>)
    ensures |r| <= |s|
    ensures forall x :: x in r <==> x in s && p(x)
  {
    if s == [] then []
    else
      var rest := Filter(s[1..], p);
      assert s == [s[0]] + s[1..];
      if p(s[0]) then [s[0]] + rest else rest
  }

  /** Filtering keeps every copy of what it keeps. */
  lemma {:induction false} FilterMultiset<T(!new)>(s: seq<T>, p: T -> bool, x: T)
    ensures multiset(Filter(s, p))[x] == if p(x) then multiset(s)[x] else 0
  {
    if s != [] {
      FilterMultiset(s[1..], p, x);
      assert s == [s[0]] + s[1..];
    }
  }

  /** A filter step that applies only when its input is set
      (`if (x) list = list.filter(p)`). */
  function Narrow<T(!new)>(s: seq<T>, on: bool, p: T -> bool): (r: seq<T>)
    ensures forall x :: multiset(r)[x] == if !on || p(x) then multiset(s)[x] else 0
  {
    assert forall x :: multiset(Filter(s, p))[x] == if p(x) then multiset(s)[x] else 0 by {
      forall x ensures multiset(Filter(s, p))[x] == if p(x) then multiset(s)[x] else 0 {
        FilterMultiset(s, p, x);
      }
    }
    if on then Filter(s, p) else s
  }

  /** Filtering keeps the relative order of what it keeps: it distributes
      over concatenation. */
  lemma {:induction false} FilterConcat<T(!new)>(a: seq<T>, b: seq<T>, p: T -> bool)
    ensures Filter(a + b, p) == Filter(a, p) + Filter(b, p)
  {
    if a == [] {
      assert a + b == b;
    } else {
      assert (a + b)[0] == a[0];
      assert (a + b)[1..] == a[1..] + b;
      FilterConcat(a[1..], b, p);
    }
  }

  /** Two filters in a row are one filter by the conjunction. */
  lemma {:induction false} FilterTwice<T(!new)>(s: seq<T>, p: T -> bool, q: T -> bool, pq: T -> bool)
    requires forall x :: pq(x) == (p(x) && q(x))
    ensures Filter(Filter(s, p), q) == Filter(s, pq)
  {
    if s != [] {
      FilterTwice(s[1..], p, q, pq);
    }
  }

  /** A filter and the filter by the opposite condition share out the
      whole sequence. */
  lemma {:induction false} FilterPartition<T(!new)>(s: seq<T>, p: T -> bool, q: T -> bool)
    requires forall x :: q(x) == !p(x)
    ensures |Filter(s, p)| + |Filter(s, q)| == |s|
  {
    if s != [] {
      FilterPartition(s[1..], p, q);
    }
  }

  /** A filter that keeps everything changes nothing. */
  lemma {:induction false} FilterAll<T(!new)>(s: seq<T>, p: T -> bool)
    requires forall i :: 0 <= i < |s| ==> p(s[i])
    ensures Filter(s, p) == s
  {
    if s != [] {
      FilterAll(s[1..], p);
    }
  }

  ghost predicate SortedByKey<T>(s: seq<T>, key: T -> int) {
    forall i, j :: 0 <= i < j < |s| ==> key(s[i]) <= key(s[j])
  }

  /** Inserts `x` before the first element whose key is not smaller, so
      that `x` stays ahead of the elements with an equal key. */
  function InsertByKey<T>(x: T, s: seq<T>, key: T -> int): (r: seq<T>)
    ensures multiset(r) == multiset(s) + multiset{x}
  {
    if s == [] || key(x) <= key(s[0]) then [x] + s
    else
      assert s == [s[0]] + s[1..];
      [s[0]] + InsertByKey(x, s[1..], key)
  }

  /** Inserting into a sorted sequence keeps it sorted. */
  lemma {:induction false} InsertByKeySorted<T>(x: T, s: seq<T>, key: T -> int)
    requires SortedByKey(s, key)
    ensures SortedByKey(InsertByKey(x, s, key), key)
  {
    if s != [] && key(x) > key(s[0]) {
      var rest := InsertByKey(x, s[1..], key);
      InsertByKeySorted(x, s[1..], key);
      forall j | 0 <= j < |rest| ensures key(s[0]) <= key(rest[j]) {
        assert rest[j] in multiset(rest);
        assert rest[j] == x || rest[j] in multiset(s[1..]);
      }
    }
  }

  /** A stable sort by an integer key (insertion sort). */
  function SortByKey<T>(s: seq<T>, key: T -> int): (r: seq<T>)
    ensures multiset(r) == multiset(s)
    ensures |r| == |s|
    ensures SortedByKey(r, key)
  {
    if s == [] then []
    else
      assert s == [s[0]] + s[1..];
      var rest := SortByKey(s[1..], key);
      InsertByKeySorted(s[0], rest, key);
      InsertByKey(s[0], rest, key)
  }

  /** Inserting by key does not reorder the elements that share a key. */
  lemma {:induction false} InsertByKeyStable<T(!new)>(x: T, s: seq<T>, key: T -> int, same: T -> bool, k: int)
    requires forall y :: same(y) == (key(y) == k)
    ensures Filter(InsertByKey(x, s, key), same) == (if same(x) then [x] else []) + Filter(s, same)
  {
    if s == [] || key(x) <= key(s[0]) {
      assert ([x] + s)[1..] == s;
    } else {
      var rest := InsertByKey(x, s[1..], key);
      assert ([s[0]] + rest)[1..] == rest;
      InsertByKeyStable(x, s[1..], key, same, k);
    }
  }

  /** The sort is stable: for every key, the elements with that key come
      out in the order they went in. */
  lemma {:induction false} SortByKeyStable<T(!new)>(s: seq<T>, key: T -> int, same: T -> bool, k: int)
    requires forall y :: same(y) == (key(y) == k)
    ensures Filter(SortByKey(s, key), same) == Filter(s, same)
  {
    if s != [] {
      SortByKeyStable(s[1..], key, same, k);
      InsertByKeyStable(s[0], SortByKey(s[1..], key), key, same, k);
    }
  }

  ghost predicate StrictlySorted(s: seq<string>) {
    forall i, j :: 0 <= i < j < |s| ==> StrLess(s[i], s[j])
  }

  /** Inserts `x` before the first element that `x` precedes. */
  function InsertString(x: string, s: seq<string>): (r: seq<string>)
    ensures multiset(r) == multiset(s) + multiset{x}
  {
    if s == [] || StrLess(x, s[0]) then [x] + s
    else
      assert s == [s[0]] + s[1..];
      [s[0]] + InsertString(x, s[1..])
  }

  /** `Array.prototype.sort()` with no comparator, on distinct strings. */
  function SortStrings(s: seq<string>): (r: seq<string>)
    ensures multiset(r) == multiset(s)
  {
    if s == [] then []
    else
      assert s == [s[0]] + s[1..];
      InsertString(s[0], SortStrings(s[1..]))
  }

  lemma {:induction false} InsertStringSorted(x: string, s: seq<string>)
    requires StrictlySorted(s) && x !in s
    ensures StrictlySorted(InsertString(x, s))
  {
    if s == [] {
    } else if StrLess(x, s[0]) {
      forall j | 0 < j <= |s| ensures StrLess(([x] + s)[0], ([x] + s)[j]) {
        if j > 1 {
          StrLessTransitive(x, s[0], s[j - 1]);
        }
      }
    } else {
      StrLessTotal(x, s[0]);
      assert StrLess(s[0], x);
      InsertStringSorted(x, s[1..]);
      var rest := InsertString(x, s[1..]);
      forall y | y in rest ensures y == x || y in s[1..] {
        assert y in multiset(rest);
      }
      forall j | 0 <= j < |rest| ensures StrLess(s[0], rest[j]) {
        assert rest[j] in rest;
      }
    }
  }

  /** Sorting distinct strings leaves them strictly ascending. */
  lemma {:induction false} SortStringsSorted(s: seq<string>)
    requires forall i, j :: 0 <= i < j < |s| ==> s[i] != s[j]
    ensures StrictlySorted(SortStrings(s))
  {
    if s != [] {
      SortStringsSorted(s[1..]);
      assert s[0] !in s[1..];
      assert s[0] !in multiset(SortStrings(s[1..]));
      InsertStringSorted(s[0], SortStrings(s[1..]));
    }
  }
}

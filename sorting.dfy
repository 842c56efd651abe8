/** Python's `list.sort(key=..., reverse=True)`, as the settlement engine uses it:
    a stable sort into non-increasing key order, in place.  Equal keys keep
    the order they had before the sort. */
module Sorting {

  /** Every element is at least as large (by key) as every later one. */
  ghost predicate SortedDesc<T>(s: seq<T>, key: T -> int)
  {
    forall i, j :: 0 <= i < j < |s| ==> key(s[i]) >= key(s[j])
  }

  /** The elements of `s` whose key is `v`, in their order in `s`. */
  function KeyFilter<T>(s: seq<T>, key: T -> int, v: int): (r: seq<T>)
    ensures |r| <= |s|
    ensures forall k :: 0 <= k < |r| ==> key(r[k]) == v
  {
    if s == [] then []
    else (if key(s[0]) == v then [s[0]] else []) + KeyFilter(s[1..], key, v)
  }

  /** Sum of `f` over the elements of `s`. */
  function SumOf<T>(s: seq<T>, f: T -> int): int
  {
    if s == [] then 0 else f(s[0]) + SumOf(s[1..], f)
  }

  /** Inserts `x` into the sorted `s` after every element whose key is at
      least `key(x)`: a later element goes after the earlier equal ones. */
  function InsertDesc<T>(s: seq<T>, x: T, key: T -> int): (r: seq<T>)
    ensures |r| == |s| + 1
  {
    if s == [] then [x]
    else if key(x) > key(s[0]) then [x] + s
    else [s[0]] + InsertDesc(s[1..], x, key)
  }

  /** The stable descending sort: insertion of each element, left to right. */
  function SortDesc<T>(s: seq<T>, key: T -> int): (r: seq<T>)
    ensures |r| == |s|
  {
    if s == [] then [] else InsertDesc(SortDesc(s[..|s| - 1], key), s[|s| - 1], key)
  }

  lemma {:induction false} KeyFilterAppend<T>(a: seq<T>, b: seq<T>, key: T -> int, v: int)
    ensures KeyFilter(a + b, key, v) == KeyFilter(a, key, v) + KeyFilter(b, key, v)
  {
    if a != [] {
      assert (a + b)[1..] == a[1..] + b;
      KeyFilterAppend(a[1..], b, key, v);
    } else {
      assert a + b == b;
    }
  }

  lemma KeyFilterSnoc<T>(init: seq<T>, last: T, key: T -> int, v: int)
    ensures KeyFilter(init + [last], key, v) == KeyFilter(init, key, v) + (if key(last) == v then [last] else [])
  {
    KeyFilterAppend(init, [last], key, v);
    assert KeyFilter([last], key, v) == (if key(last) == v then [last] else []) + KeyFilter([], key, v);
  }

  lemma {:induction false} SumOfAppend<T>(a: seq<T>, b: seq<T>, f: T -> int)
    ensures SumOf(a + b, f) == SumOf(a, f) + SumOf(b, f)
  {
    if a != [] {
      assert (a + b)[1..] == a[1..] + b;
      SumOfAppend(a[1..], b, f);
    } else {
      assert a + b == b;
    }
  }

  /** The insertion adds `x` and loses nothing. */
  lemma {:induction false} InsertDescPerm<T>(s: seq<T>, x: T, key: T -> int)
    ensures multiset(InsertDesc(s, x, key)) == multiset(s) + multiset{x}
  {
    if s != [] && key(x) <= key(s[0]) {
      InsertDescPerm(s[1..], x, key);
      assert s == [s[0]] + s[1..];
    }
  }

  /** Every element of the insertion is `x` or an element of `s`. */
  lemma InsertDescFrom<T>(s: seq<T>, x: T, key: T -> int, y: T)
    requires y in InsertDesc(s, x, key)
    ensures y == x || y in s
  {
    InsertDescPerm(s, x, key);
    assert y in multiset(InsertDesc(s, x, key));
  }

  lemma {:induction false} InsertDescSorted<T>(s: seq<T>, x: T, key: T -> int)
    requires SortedDesc(s, key)
    ensures SortedDesc(InsertDesc(s, x, key), key)
    ensures multiset(InsertDesc(s, x, key)) == multiset(s) + multiset{x}
  {
    InsertDescPerm(s, x, key);
    if s != [] && key(x) <= key(s[0]) {
      SortedTail(s, key);
      InsertDescSorted(s[1..], x, key);
      var t := InsertDesc(s[1..], x, key);
      assert InsertDesc(s, x, key) == [s[0]] + t;
      forall k | 0 <= k < |t| ensures key(s[0]) >= key(t[k]) {
        InsertDescFrom(s[1..], x, key, t[k]);
      }
    }
  }

  /** The insertion keeps the relative order of equal keys: the new element
      lands after every element of `s` with the same key. */
  lemma {:induction false} InsertDescKeyFilter<T>(s: seq<T>, x: T, key: T -> int, v: int)
    requires SortedDesc(s, key)
    ensures KeyFilter(InsertDesc(s, x, key), key, v)
         == KeyFilter(s, key, v) + (if key(x) == v then [x] else [])
  {
    if s == [] {
    } else if key(x) > key(s[0]) {
      NoneAbove(s, key, key(x));
      assert ([x] + s)[1..] == s;
    } else {
      var t := InsertDesc(s[1..], x, key);
      var h := if key(s[0]) == v then [s[0]] else [];
      var last := if key(x) == v then [x] else [];
      assert InsertDesc(s, x, key) == [s[0]] + t;
      assert ([s[0]] + t)[1..] == t;
      assert KeyFilter(InsertDesc(s, x, key), key, v) == h + KeyFilter(t, key, v);
      SortedTail(s, key);
      InsertDescKeyFilter(s[1..], x, key, v);
      assert h + (KeyFilter(s[1..], key, v) + last) == (h + KeyFilter(s[1..], key, v)) + last;
    }
  }

  lemma SortedTail<T>(s: seq<T>, key: T -> int)
    requires SortedDesc(s, key) && s != []
    ensures SortedDesc(s[1..], key)
  {
  }

  /** In a sorted sequence whose head is below `v`, no element has key `v`. */
  lemma {:induction false} NoneAbove<T>(s: seq<T>, key: T -> int, v: int)
    requires SortedDesc(s, key)
    requires s != [] && key(s[0]) < v
    ensures KeyFilter(s, key, v) == []
  {
    if |s| > 1 {
      SortedTail(s, key);
      NoneAbove(s[1..], key, v);
    }
  }

  lemma {:induction false} InsertDescSum<T>(s: seq<T>, x: T, key: T -> int, f: T -> int)
    ensures SumOf(InsertDesc(s, x, key), f) == SumOf(s, f) + f(x)
  {
    if s != [] && key(x) <= key(s[0]) {
      assert ([s[0]] + InsertDesc(s[1..], x, key))[1..] == InsertDesc(s[1..], x, key);
      InsertDescSum(s[1..], x, key, f);
    }
  }

  /** The sort's output is ordered and is a permutation of its input. */
  lemma {:induction false} SortDescCorrect<T>(s: seq<T>, key: T -> int)
    ensures SortedDesc(SortDesc(s, key), key)
    ensures multiset(SortDesc(s, key)) == multiset(s)
  {
    if s != [] {
      var init := s[..|s| - 1];
      SortDescCorrect(init, key);
      InsertDescSorted(SortDesc(init, key), s[|s| - 1], key);
      assert s == init + [s[|s| - 1]];
    }
  }

  /** Stability: for every key value, the elements carrying it appear in
      the output in the same order as in the input. */
  lemma {:induction false} SortDescStable<T>(s: seq<T>, key: T -> int, v: int)
    ensures KeyFilter(SortDesc(s, key), key, v) == KeyFilter(s, key, v)
  {
    if s != [] {
      var init, last := s[..|s| - 1], s[|s| - 1];
      assert s == init + [last];
      KeyFilterSnoc(init, last, key, v);
      SortDescStable(init, key, v);
      SortDescCorrect(init, key);
      InsertDescKeyFilter(SortDesc(init, key), last, key, v);
    }
  }

  /** Any per-element sum survives the sort. */
  lemma {:induction false} SortDescSum<T>(s: seq<T>, key: T -> int, f: T -> int)
    ensures SumOf(SortDesc(s, key), f) == SumOf(s, f)
  {
    if s != [] {
      var init, last := s[..|s| - 1], s[|s| - 1];
      SortDescSum(init, key, f);
      InsertDescSum(SortDesc(init, key), last, key, f);
      assert s == init + [last];
      SumOfAppend(init, [last], f);
    }
  }

  /** Placing `x` at a position `j` of a sorted `s`, where every earlier
      element has a key at least `key(x)` and every later one a smaller key,
      is the insertion `InsertDesc` performs. */
  lemma {:induction false} InsertDescAt<T>(s: seq<T>, x: T, key: T -> int, j: nat)
    requires SortedDesc(s, key)
    requires j <= |s|
    requires j == 0 || key(s[j - 1]) >= key(x)
    requires forall m :: j <= m < |s| ==> key(s[m]) < key(x)
    ensures InsertDesc(s, x, key) == s[..j] + [x] + s[j..]
  {
    if s == [] {
    } else if j == 0 {
      assert key(x) > key(s[0]);
    } else {
      var tail := s[1..];
      assert key(s[0]) >= key(s[j - 1]) >= key(x);
      assert InsertDesc(s, x, key) == [s[0]] + InsertDesc(tail, x, key);
      SortedTail(s, key);
      forall m | j - 1 <= m < |tail| ensures key(tail[m]) < key(x) {
        assert tail[m] == s[m + 1];
      }
      InsertDescAt(tail, x, key, j - 1);
      assert tail[..j - 1] == s[1..j] && tail[j - 1..] == s[j..];
      assert s[..j] == [s[0]] + s[1..j];
    }
  }

  /** One pass of the insertion sort: shifts the sorted prefix `a[..i]` right
      past every element whose key is below that of `a[i]`, and drops `a[i]`
      into the gap. */
  method InsertInPlace<T>(a: array<T>, i: nat, key: T -> int)
    requires i < a.Length
    requires SortedDesc(a[..i], key)
    modifies a
    ensures a[..i + 1] == InsertDesc(old(a[..i]), old(a[i]), key)
    ensures a[i + 1..] == old(a[i + 1..])
  {
    ghost var sorted := a[..i];
    var x := a[i];
    var j := i;
    while j > 0 && key(a[j - 1]) < key(x)
      invariant 0 <= j <= i
      invariant forall m :: 0 <= m < j ==> a[m] == sorted[m]
      invariant forall m :: j < m <= i ==> a[m] == sorted[m - 1]
      invariant a[i + 1..] == old(a[i + 1..])
      invariant forall m :: j <= m < i ==> key(sorted[m]) < key(x)
    {
      a[j] := a[j - 1];
      j := j - 1;
    }
    a[j] := x;
    InsertDescAt(sorted, x, key, j);
    PlacedAt(a[..i + 1], sorted, x, j);
  }

  /** A sequence that agrees with `sorted` before `j`, holds `x` at `j` and
      agrees with `sorted` shifted by one after `j` is `sorted` with `x`
      inserted at `j`. */
  lemma PlacedAt<T>(s: seq<T>, sorted: seq<T>, x: T, j: nat)
    requires j <= |sorted| && |s| == |sorted| + 1
    requires forall m :: 0 <= m < j ==> s[m] == sorted[m]
    requires s[j] == x
    requires forall m :: j < m < |s| ==> s[m] == sorted[m - 1]
    ensures s == sorted[..j] + [x] + sorted[j..]
  {
  }

  /** The in-place stable insertion sort that stands for `list.sort`:
      afterwards the array holds exactly `SortDesc` of what it held before. */
  method SortInPlace<T>(a: array<T>, key: T -> int)
    modifies a
    ensures a[..] == SortDesc(old(a[..]), key)
  {
    ghost var input := a[..];
    var i := 0;
    while i < a.Length
      invariant 0 <= i <= a.Length
      invariant a[..i] == SortDesc(input[..i], key)
      invariant a[i..] == input[i..]
    {
      SortDescCorrect(input[..i], key);
      InsertInPlace(a, i, key);
      assert input[..i + 1][..i] == input[..i];
      assert input[..i + 1][i] == input[i];
      i := i + 1;
    }
    assert input[..a.Length] == input;
  }
}

/** The array primitives the stores are built from: `Array.prototype.filter`,
    "the first element that matches" and `sort(compare)[0]` with a numeric
    comparator, each as a reference function with its properties, plus the
    loops that compute them. */
module Seqs {
  import opened Common

  /** `s.filter(p)`: the elements of `s` that satisfy `p`, in their order. */
  function Filter<T(!new)>(s: seq<T>, p: T -> bool): (r: seq<T>)
    ensures |r| <= |s|
    ensures forall x :: x in r <==> x in s && p(x)
  {
    if s == [] then []
    else (if p(s[0]) then [s[0]] else []) + Filter(s[1..], p)
  }

  /** Filtering distributes over concatenation, so it keeps relative order. */
  lemma {:induction false} FilterConcat<T(!new)>(a: seq<T>, b: seq<T>, p: T -> bool)
    ensures Filter(a + b, p) == Filter(a, p) + Filter(b, p)
  {
    if a == [] {
      assert a + b == b;
    } else {
      assert (a + b)[0] == a[0];
      assert (a + b)[1..] == a[1..] + b;
      FilterConcat(a[1..], b, p);
    }
  }

  /** A filter returns nothing exactly when no element passes. */
  lemma FilterEmpty<T(!new)>(s: seq<T>, p: T -> bool)
    ensures Filter(s, p) == [] <==> forall x :: x in s ==> !p(x)
  {
    if Filter(s, p) != [] {
      assert Filter(s, p)[0] in Filter(s, p);
    }
  }

  /** A filter that every element passes returns the sequence itself. */
  lemma {:induction false} FilterKeepsAll<T(!new)>(s: seq<T>, p: T -> bool)
    requires forall x :: x in s ==> p(x)
    ensures Filter(s, p) == s
  {
    if s != [] {
      assert forall x :: x in s[1..] ==> x in s;
      FilterKeepsAll(s[1..], p);
    }
  }

  /** The index of the first element that satisfies `p`, if any. */
  function FirstIndex<T(!new)>(s: seq<T>, p: T -> bool): (k: Option<nat>)
    ensures k.None? <==> forall x :: x in s ==> !p(x)
    ensures k.Some? ==> k.value < |s| && p(s[k.value])
    ensures k.Some? ==> forall j :: 0 <= j < k.value ==> !p(s[j])
  {
    if s == [] then None
    else if p(s[0]) then Some(0)
    else match FirstIndex(s[1..], p)
      case None => None
      case Some(k) => Some(k + 1)
  }

  /** `s.filter(p)[0]` is the first element of `s` that satisfies `p`. */
  lemma {:induction false} FilterHead<T(!new)>(s: seq<T>, p: T -> bool)
    ensures Filter(s, p) != [] <==> FirstIndex(s, p).Some?
    ensures Filter(s, p) != [] ==> Filter(s, p)[0] == s[FirstIndex(s, p).value]
  {
    if s != [] && !p(s[0]) {
      FilterHead(s[1..], p);
    }
  }

  /** The loop behind `s.filter(p)`. */
  method FilterSeq<T(!new)>(s: seq<T>, p: T -> bool) returns (r: seq<T>)
    ensures r == Filter(s, p)
  {
    r := [];
    var i := 0;
    while i < |s|
      invariant 0 <= i <= |s|
      invariant r == Filter(s[..i], p)
    {
      assert s[..i + 1] == s[..i] + [s[i]];
      FilterConcat(s[..i], [s[i]], p);
      assert Filter([s[i]], p) == if p(s[i]) then [s[i]] else [];
      if p(s[i]) {
        r := r + [s[i]];
      }
      i := i + 1;
    }
    assert s[..|s|] == s;
  }

  /** `k` is the first index whose key is minimal in `s`. */
  predicate IsFirstMinimal<T>(s: seq<T>, key: T -> int, k: int)
  {
    && 0 <= k < |s|
    && (forall j :: 0 <= j < |s| ==> key(s[k]) <= key(s[j]))
    && (forall j :: 0 <= j < k ==> key(s[k]) < key(s[j]))
  }

  /** At most one index is the first minimal one. */
  lemma FirstMinimalUnique<T>(s: seq<T>, key: T -> int, k1: int, k2: int)
    requires IsFirstMinimal(s, key, k1) && IsFirstMinimal(s, key, k2)
    ensures k1 == k2
  {
    assert key(s[k1]) <= key(s[k2]) && key(s[k2]) <= key(s[k1]);
  }

  /** The first index with the smallest key, found by recursion. */
  function FirstMinIndex<T>(s: seq<T>, key: T -> int): (k: nat)
    requires s != []
    ensures IsFirstMinimal(s, key, k)
  {
    if |s| == 1 then 0
    else
      var k := FirstMinIndex(s[1..], key);
      assert forall j :: 1 <= j < |s| ==> s[j] == s[1..][j - 1];
      if key(s[0]) <= key(s[k + 1]) then 0 else k + 1
  }

  /** Insertion of `x` in front of every element whose key is not smaller:
      an element keeps its place ahead of later elements with the same key. */
  function Insert<T>(x: T, t: seq<T>, key: T -> int): (r: seq<T>)
    ensures |r| == |t| + 1
    ensures forall y :: y in r ==> y == x || y in t
    ensures multiset(r) == multiset(t) + multiset{x}
  {
    if t == [] then [x]
    else if key(x) <= key(t[0]) then [x] + t
    else
      assert t == [t[0]] + t[1..];
      [t[0]] + Insert(x, t[1..], key)
  }

  /** `s.sort((a, b) => key(a) - key(b))`: a stable sort by `key`, as
      ECMAScript 2019 requires of `Array.prototype.sort`. */
  function SortByKey<T>(s: seq<T>, key: T -> int): (r: seq<T>)
    ensures |r| == |s|
    ensures multiset(r) == multiset(s)
  {
    if s == [] then []
    else
      assert s == [s[0]] + s[1..];
      Insert(s[0], SortByKey(s[1..], key), key)
  }

  predicate SortedByKey<T>(s: seq<T>, key: T -> int)
  {
    forall i, j :: 0 <= i < j < |s| ==> key(s[i]) <= key(s[j])
  }

  lemma {:induction false} InsertSorted<T>(x: T, t: seq<T>, key: T -> int)
    requires SortedByKey(t, key)
    ensures SortedByKey(Insert(x, t, key), key)
  {
    if t != [] && key(x) > key(t[0]) {
      InsertSorted(x, t[1..], key);
      var tail := Insert(x, t[1..], key);
      forall j | 0 <= j < |tail|
        ensures key(t[0]) <= key(tail[j])
      {
        assert tail[j] in tail;
        if tail[j] != x {
          var i :| 0 <= i < |t[1..]| && t[1..][i] == tail[j];
          assert t[i + 1] == tail[j];
        }
      }
    }
  }

  /** The reference sort does sort. */
  lemma {:induction false} SortByKeySorted<T>(s: seq<T>, key: T -> int)
    ensures SortedByKey(SortByKey(s, key), key)
  {
    if s != [] {
      SortByKeySorted(s[1..], key);
      InsertSorted(s[0], SortByKey(s[1..], key), key);
    }
  }

  /** The head of the stable sort is the first element with the smallest key. */
  lemma {:induction false} SortHeadIsFirstMinimal<T>(s: seq<T>, key: T -> int)
    requires s != []
    ensures SortByKey(s, key)[0] == s[FirstMinIndex(s, key)]
  {
    if |s| > 1 {
      SortHeadIsFirstMinimal(s[1..], key);
    }
  }

  /** The element `sort(compare)[0]` yields: undefined for an empty input. */
  function SortedHead<T>(s: seq<T>, key: T -> int): (r: Option<T>)
    ensures r.None? <==> s == []
  {
    if s == [] then None else Some(SortByKey(s, key)[0])
  }

  /** The loop that finds the first minimal element, which is what the head
      of the stable sort is. */
  method FirstMinimal<T(==)>(s: seq<T>, key: T -> int) returns (k: Option<nat>)
    ensures k.None? <==> s == []
    ensures k.Some? ==> IsFirstMinimal(s, key, k.value)
    ensures k.Some? ==> SortedHead(s, key) == Some(s[k.value])
  {
    if s == [] {
      return None;
    }
    var best := 0;
    var i := 1;
    while i < |s|
      invariant 0 <= best < i <= |s|
      invariant forall j :: 0 <= j < i ==> key(s[best]) <= key(s[j])
      invariant forall j :: 0 <= j < best ==> key(s[best]) < key(s[j])
    {
      if key(s[i]) < key(s[best]) {
        best := i;
      }
      i := i + 1;
    }
    SortHeadIsFirstMinimal(s, key);
    FirstMinimalUnique(s, key, FirstMinIndex(s, key), best);
    k := Some(best);
  }
}

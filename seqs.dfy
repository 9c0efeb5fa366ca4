/** Sequence combinators the engine uses in the style of JavaScript arrays:
    `filter`, the `reduce` that keeps the larger (or smaller) value, and the
    stable `sort` of `Array.prototype.sort` by a numeric key. */
module Seqs {

  /** `s.filter(p)`: the elements of `s` that satisfy `p`, in their original order. */
  function Filter<T(!new)>(s: seq<T>, p: T -> bool): (r: seq<T>)
    ensures |r| <= |s|
    ensures forall x :: x in r <==> x in s && p(x)
  {
    if s == [] then []
    else
      var rest := Filter(s[1..], p);
      assert s == [s[0]] + s[1..];
      if p(s[0]) then [s[0]] + rest else rest
  }

  lemma {:induction false} FilterSubMultiset<T(!new)>(s: seq<T>, p: T -> bool)
    ensures multiset(Filter(s, p)) <= multiset(s)
  {
    if s != [] {
      assert s == [s[0]] + s[1..];
      FilterSubMultiset(s[1..], p);
    }
  }

  lemma {:induction false} FilterConcat<T(!new)>(a: seq<T>, b: seq<T>, p: T -> bool)
    ensures Filter(a + b, p) == Filter(a, p) + Filter(b, p)
  {
    if a == [] {
      assert a + b == b;
    } else {
      assert (a + b)[1..] == a[1..] + b;
      FilterConcat(a[1..], b, p);
    }
  }

  lemma {:induction false} FilterAll<T(!new)>(s: seq<T>, p: T -> bool)
    requires forall i :: 0 <= i < |s| ==> p(s[i])
    ensures Filter(s, p) == s
  {
    if s != [] {
      FilterAll(s[1..], p);
    }
  }

  lemma {:induction false} FilterNone<T(!new)>(s: seq<T>, p: T -> bool)
    requires forall i :: 0 <= i < |s| ==> !p(s[i])
    ensures Filter(s, p) == []
  {
    if s != [] {
      FilterNone(s[1..], p);
    }
  }

  /** Exactly one position of `s` satisfies `p`: the filter keeps one element. */
  lemma {:induction false} FilterSingle<T(!new)>(s: seq<T>, p: T -> bool, k: nat)
    requires k < |s| && p(s[k])
    requires forall j :: 0 <= j < |s| && j != k ==> !p(s[j])
    ensures Filter(s, p) == [s[k]]
  {
    if k == 0 {
      FilterNone(s[1..], p);
    } else {
      FilterSingle(s[1..], p, k - 1);
    }
  }

  lemma ConcatChain<T>(whole: seq<T>, tail: seq<T>, front: seq<T>, a: seq<T>, b: seq<T>, c: seq<T>)
    requires whole == a + tail && tail == b + c && front == a + b
    ensures whole == front + c
  {
  }

  /** `s.reduce((best, x) => key(x) > key(best) ? x : best)`: a maximal element,
      the first one on ties. */
  function MaxBy<T(!new)>(s: seq<T>, key: T -> int): (r: T)
    requires |s| > 0
    ensures r in s
    ensures forall x :: x in s ==> key(x) <= key(r)
    ensures exists i :: 0 <= i < |s| && s[i] == r && forall j :: 0 <= j < i ==> key(s[j]) < key(r)
  {
    if |s| == 1 then s[0]
    else
      var init := s[..|s| - 1];
      assert s == init + [s[|s| - 1]];
      var m := MaxBy(init, key);
      if key(s[|s| - 1]) > key(m) then s[|s| - 1] else m
  }

  /** `s.reduce((best, x) => key(x) < key(best) ? x : best)`: a minimal element,
      the first one on ties. */
  function MinBy<T(!new)>(s: seq<T>, key: T -> int): (r: T)
    requires |s| > 0
    ensures r in s
    ensures forall x :: x in s ==> key(r) <= key(x)
    ensures exists i :: 0 <= i < |s| && s[i] == r && forall j :: 0 <= j < i ==> key(r) < key(s[j])
  {
    if |s| == 1 then s[0]
    else
      var init := s[..|s| - 1];
      assert s == init + [s[|s| - 1]];
      var m := MinBy(init, key);
      if key(s[|s| - 1]) < key(m) then s[|s| - 1] else m
  }

  ghost predicate SortedByKey<T>(s: seq<T>, key: T -> int) {
    forall i, j :: 0 <= i < j < |s| ==> key(s[i]) <= key(s[j])
  }

  /** Inserts `x` after every element whose key is at most key(x). */
  function InsertByKey<T(!new)>(x: T, s: seq<T>, key: T -> int): (r: seq<T>)
    ensures |r| == |s| + 1
    ensures multiset(r) == multiset(s) + multiset{x}
  {
    if s == [] then [x]
    else if key(x) < key(s[0]) then [x] + s
    else
      assert s == [s[0]] + s[1..];
      [s[0]] + InsertByKey(x, s[1..], key)
  }

  /** A sorted sequence stays sorted with a lower bound of its elements in front. */
  lemma SortedCons<T>(h: T, rest: seq<T>, key: T -> int)
    requires SortedByKey(rest, key)
    requires forall y :: y in rest ==> key(h) <= key(y)
    ensures SortedByKey([h] + rest, key)
  {
    var r := [h] + rest;
    forall i, j | 0 <= i < j < |r| ensures key(r[i]) <= key(r[j]) {
      assert r[j] == rest[j - 1];
      if i > 0 {
        assert r[i] == rest[i - 1];
      }
    }
  }

  /** The head of a sorted sequence is a lower bound of its elements. */
  lemma SortedHeadLeast<T>(s: seq<T>, key: T -> int, y: T)
    requires SortedByKey(s, key) && y in s
    ensures key(s[0]) <= key(y)
  {
    var k :| 0 <= k < |s| && s[k] == y;
  }

  lemma {:induction false} InsertSorted<T(!new)>(x: T, s: seq<T>, key: T -> int)
    requires SortedByKey(s, key)
    ensures SortedByKey(InsertByKey(x, s, key), key)
  {
    if s == [] {
    } else if key(x) < key(s[0]) {
      forall y | y in s ensures key(x) <= key(y) {
        SortedHeadLeast(s, key, y);
      }
      SortedCons(x, s, key);
    } else {
      var tail := s[1..];
      var rest := InsertByKey(x, tail, key);
      assert SortedByKey(tail, key) by {
        forall i, j | 0 <= i < j < |tail| ensures key(tail[i]) <= key(tail[j]) {
          assert tail[i] == s[i + 1] && tail[j] == s[j + 1];
        }
      }
      InsertSorted(x, tail, key);
      forall y | y in rest ensures key(s[0]) <= key(y) {
        assert y in multiset(rest);
        if y != x {
          assert y in multiset(tail);
          assert y in s;
          SortedHeadLeast(s, key, y);
        }
      }
      SortedCons(s[0], rest, key);
    }
  }

  /** The stable sort of `Array.prototype.sort` with comparator `(a, b) => key(a) - key(b)`,
      as an insertion sort that takes the input's elements in order. */
  function SortByKey<T(!new)>(s: seq<T>, key: T -> int): (r: seq<T>)
    ensures |r| == |s|
    ensures multiset(r) == multiset(s)
    ensures SortedByKey(r, key)
  {
    if s == [] then []
    else
      assert s == s[..|s| - 1] + [s[|s| - 1]];
      var sortedInit := SortByKey(s[..|s| - 1], key);
      InsertSorted(s[|s| - 1], sortedInit, key);
      InsertByKey(s[|s| - 1], sortedInit, key)
  }

  lemma {:induction false} InsertFilter<T(!new)>(x: T, t: seq<T>, key: T -> int, k: int, p: T -> bool)
    requires SortedByKey(t, key)
    requires forall y :: p(y) <==> key(y) == k
    ensures Filter(InsertByKey(x, t, key), p) == Filter(t, p) + Filter([x], p)
  {
    if t == [] {
      assert InsertByKey(x, t, key) == [x];
    } else if key(x) < key(t[0]) {
      assert InsertByKey(x, t, key) == [x] + t;
      FilterConcat([x], t, p);
      if p(x) {
        forall i | 0 <= i < |t| ensures !p(t[i]) {
          assert key(t[0]) <= key(t[i]);
        }
        FilterNone(t, p);
      }
    } else {
      assert SortedByKey(t[1..], key) by {
        forall i, j | 0 <= i < j < |t| - 1 ensures key(t[1..][i]) <= key(t[1..][j]) {
          assert t[1..][i] == t[i + 1] && t[1..][j] == t[j + 1];
        }
      }
      InsertFilter(x, t[1..], key, k, p);
      InsertFilterCons(x, t, key, p);
    }
  }

  /** The step of InsertFilter where `x` goes after the head of `t`. */
  lemma InsertFilterCons<T(!new)>(x: T, t: seq<T>, key: T -> int, p: T -> bool)
    requires t != [] && key(x) >= key(t[0])
    requires Filter(InsertByKey(x, t[1..], key), p) == Filter(t[1..], p) + Filter([x], p)
    ensures Filter(InsertByKey(x, t, key), p) == Filter(t, p) + Filter([x], p)
  {
    var rest := InsertByKey(x, t[1..], key);
    assert InsertByKey(x, t, key) == [t[0]] + rest;
    assert t == [t[0]] + t[1..];
    FilterConcat([t[0]], rest, p);
    FilterConcat([t[0]], t[1..], p);
    ConcatChain(Filter([t[0]] + rest, p), Filter(rest, p), Filter(t, p),
                Filter([t[0]], p), Filter(t[1..], p), Filter([x], p));
  }

  /** Stability: for every key, the elements with that key keep their relative order. */
  lemma {:induction false} SortByKeyStable<T(!new)>(s: seq<T>, key: T -> int, k: int, p: T -> bool)
    requires forall y :: p(y) <==> key(y) == k
    ensures Filter(SortByKey(s, key), p) == Filter(s, p)
  {
    if s != [] {
      var init, last := s[..|s| - 1], s[|s| - 1];
      assert s == init + [last];
      SortByKeyStable(init, key, k, p);
      InsertFilter(last, SortByKey(init, key), key, k, p);
      FilterConcat(init, [last], p);
    }
  }

  /** The first element the filter keeps is the first element of `s` that
      satisfies `p`. */
  lemma {:induction false} FilterHeadIndex<T(!new)>(s: seq<T>, p: T -> bool)
    requires |Filter(s, p)| > 0
    ensures exists i :: 0 <= i < |s| && p(s[i]) && Filter(s, p)[0] == s[i] &&
                        forall j :: 0 <= j < i ==> !p(s[j])
  {
    if !p(s[0]) {
      var t := s[1..];
      FilterHeadIndex(t, p);
      var i :| 0 <= i < |t| && p(t[i]) && Filter(t, p)[0] == t[i] && forall j :: 0 <= j < i ==> !p(t[j]);
      forall j | 0 <= j < i + 1 ensures !p(s[j]) {
        if j > 0 {
          assert s[j] == t[j - 1];
        }
      }
      assert s[i + 1] == t[i];
    }
  }

  /** The head of the stable sort is the first element of `s` with the least key. */
  lemma SortByKeyFirst<T(!new)>(s: seq<T>, key: T -> int)
    requires |s| > 0
    ensures SortByKey(s, key)[0] in s
    ensures forall x :: x in s ==> key(SortByKey(s, key)[0]) <= key(x)
    ensures exists i :: 0 <= i < |s| && s[i] == SortByKey(s, key)[0] &&
                        forall j :: 0 <= j < i ==> key(s[j]) > key(s[i])
  {
    var sorted := SortByKey(s, key);
    var h := sorted[0];
    assert h in multiset(s);
    forall x | x in s ensures key(h) <= key(x) {
      assert x in multiset(sorted);
      SortedHeadLeast(sorted, key, x);
    }
    var k := key(h);
    var p := (y: T) => key(y) == k;
    SortByKeyStable(s, key, k, p);
    assert sorted == [h] + sorted[1..];
    assert Filter(sorted, p)[0] == h;
    FilterHeadIndex(s, p);
    var i :| 0 <= i < |s| && p(s[i]) && Filter(s, p)[0] == s[i] && forall j :: 0 <= j < i ==> !p(s[j]);
    forall j | 0 <= j < i ensures key(s[j]) > key(s[i]) {
      assert !p(s[j]);
      assert s[j] in s;
    }
  }

  /** All elements of a sequence of sequences, as a multiset. */
  function MultisetSum<T>(ss: seq<seq<T>>): multiset<T> {
    if ss == [] then multiset{} else MultisetSum(ss[..|ss| - 1]) + multiset(ss[|ss| - 1])
  }

  lemma MultisetSumAppend<T>(ss: seq<seq<T>>, x: seq<T>)
    ensures MultisetSum(ss + [x]) == MultisetSum(ss) + multiset(x)
  {
    assert (ss + [x])[..|ss|] == ss;
  }

  /** Appending `x` to one member of `ss` adds exactly `x` to the sum. */
  lemma {:induction false} MultisetSumAddTo<T>(ss: seq<seq<T>>, p: nat, x: T)
    requires p < |ss|
    ensures MultisetSum(ss[p := ss[p] + [x]]) == MultisetSum(ss) + multiset{x}
  {
    var n := |ss| - 1;
    var u := ss[p := ss[p] + [x]];
    assert MultisetSum(u) == MultisetSum(u[..n]) + multiset(u[n]);
    assert MultisetSum(ss) == MultisetSum(ss[..n]) + multiset(ss[n]);
    if p < n {
      assert u[..n] == ss[..n][p := ss[..n][p] + [x]];
      MultisetSumAddTo(ss[..n], p, x);
    } else {
      assert u[..n] == ss[..n];
      assert multiset(u[n]) == multiset(ss[n]) + multiset{x};
    }
  }

  /** No element occurs twice. */
  ghost predicate Distinct<T>(s: seq<T>) {
    forall i, j :: 0 <= i < j < |s| ==> s[i] != s[j]
  }

  /** A sequence without repetitions holds each element once. */
  lemma {:induction false} DistinctOnce<T>(s: seq<T>, x: T)
    requires Distinct(s)
    ensures multiset(s)[x] == if x in s then 1 else 0
  {
    if s != [] {
      assert s == [s[0]] + s[1..];
      assert Distinct(s[1..]) by {
        forall i, j | 0 <= i < j < |s| - 1 ensures s[1..][i] != s[1..][j] {
          assert s[1..][i] == s[i + 1] && s[1..][j] == s[j + 1];
        }
      }
      assert s[0] !in s[1..] by {
        forall k | 0 <= k < |s| - 1 ensures s[1..][k] != s[0] {
          assert s[1..][k] == s[k + 1];
        }
      }
      DistinctOnce(s[1..], x);
    }
  }

  /** The filter keeps every occurrence of an element it accepts, and none of one it rejects. */
  lemma {:induction false} FilterCount<T(!new)>(s: seq<T>, p: T -> bool, x: T)
    ensures multiset(Filter(s, p))[x] == if p(x) then multiset(s)[x] else 0
  {
    if s != [] {
      assert s == [s[0]] + s[1..];
      FilterCount(s[1..], p, x);
    }
  }

  /** Filtering two arrangements of the same elements keeps the same number. */
  lemma FilterLengthPermutation<T(!new)>(a: seq<T>, b: seq<T>, p: T -> bool)
    requires multiset(a) == multiset(b)
    ensures |Filter(a, p)| == |Filter(b, p)|
  {
    forall x ensures multiset(Filter(a, p))[x] == multiset(Filter(b, p))[x] {
      FilterCount(a, p, x);
      FilterCount(b, p, x);
    }
    assert multiset(Filter(a, p)) == multiset(Filter(b, p));
    assert |multiset(Filter(a, p))| == |multiset(Filter(b, p))|;
  }

  /** All members of `ss` one after the other. */
  function Flatten<T(!new)>(ss: seq<seq<T>>): (r: seq<T>)
    ensures forall x :: x in r <==> exists i :: 0 <= i < |ss| && x in ss[i]
  {
    if ss == [] then []
    else
      var init := Flatten(ss[..|ss| - 1]);
      assert forall i :: 0 <= i < |ss| - 1 ==> ss[..|ss| - 1][i] == ss[i];
      init + ss[|ss| - 1]
  }

  lemma FlattenAppend<T(!new)>(ss: seq<seq<T>>, x: seq<T>)
    ensures Flatten(ss + [x]) == Flatten(ss) + x
  {
    assert (ss + [x])[..|ss|] == ss;
  }

  /** The filter of a prefix one element longer. */
  lemma FilterPrefixStep<T(!new)>(s: seq<T>, i: nat, p: T -> bool)
    requires i < |s|
    ensures Filter(s[..i + 1], p) == Filter(s[..i], p) + (if p(s[i]) then [s[i]] else [])
  {
    assert s[..i + 1] == s[..i] + [s[i]];
    FilterConcat(s[..i], [s[i]], p);
    assert [s[i]][1..] == [];
  }

  /** A prefix one element longer. */
  lemma PrefixSnoc<T>(s: seq<T>, n: nat)
    requires n < |s|
    ensures s[..n] + [s[n]] == s[..n + 1]
  {
  }

  /** A prefix holds no element more often than the whole. */
  lemma PrefixSubMultiset<T>(s: seq<T>, k: nat)
    requires k <= |s|
    ensures multiset(s[..k]) <= multiset(s)
  {
    assert s == s[..k] + s[k..];
  }

  /** The flattening of a prefix one member longer. */
  lemma FlattenPrefixStep<T(!new)>(ss: seq<seq<T>>, i: nat)
    requires i < |ss|
    ensures Flatten(ss[..i + 1]) == Flatten(ss[..i]) + ss[i]
  {
    assert ss[..i + 1] == ss[..i] + [ss[i]];
    FlattenAppend(ss[..i], ss[i]);
  }

  lemma MultisetSumFour<T>(ss: seq<seq<T>>)
    requires |ss| == 4
    ensures MultisetSum(ss) == multiset(ss[0]) + multiset(ss[1]) + multiset(ss[2]) + multiset(ss[3])
  {
    assert ss[..3][..2] == ss[..2];
    assert ss[..2][..1] == ss[..1];
    assert ss[..1][..0] == [];
    assert MultisetSum(ss[..1]) == multiset(ss[0]);
    assert MultisetSum(ss[..2]) == MultisetSum(ss[..1]) + multiset(ss[1]);
    assert MultisetSum(ss[..3]) == MultisetSum(ss[..2]) + multiset(ss[2]);
    assert MultisetSum(ss) == MultisetSum(ss[..3]) + multiset(ss[3]);
  }

  /** A filter and the filter of its complement split the sequence between them. */
  lemma {:induction false} FilterPartition<T(!new)>(s: seq<T>, p: T -> bool, q: T -> bool)
    requires forall x :: q(x) <==> !p(x)
    ensures |Filter(s, p)| + |Filter(s, q)| == |s|
  {
    if s != [] {
      FilterPartition(s[1..], p, q);
    }
  }
}

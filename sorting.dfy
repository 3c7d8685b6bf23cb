/** Kotlin's `sortedBy` and `sortedByDescending`: a stable sort by a key.
    Here the key's order is passed as a comparison `le` that must be a total
    preorder; "by descending key" is the comparison with its arguments
    swapped. The sort is an insertion sort, specified by the three facts
    that pin down a stable sort: its output is ordered, is a permutation of
    its input, and keeps the input order among elements of equal key. */
module Sorting {

  /** `le` compares any two elements and is transitive. */
  ghost predicate TotalPreorder<T(!new)>(le: (T, T) -> bool) {
    (forall a, b :: le(a, b) || le(b, a))
    && (forall a, b, c :: le(a, b) && le(b, c) ==> le(a, c))
  }

  predicate SortedBy<T>(s: seq<T>, le: (T, T) -> bool) {
    forall i, j :: 0 <= i < j < |s| ==> le(s[i], s[j])
  }

  /** The elements of `s` whose key equals `k`'s, in their order in `s`. */
  function Equivalents<T>(s: seq<T>, k: T, le: (T, T) -> bool): (r: seq<T>)
    ensures |r| <= |s|
  {
    if s == [] then []
    else (if le(s[0], k) && le(k, s[0]) then [s[0]] else []) + Equivalents(s[1..], k, le)
  }

  /** `x` goes before the first element it does not exceed. */
  function Insert<T>(x: T, s: seq<T>, le: (T, T) -> bool): (r: seq<T>)
    ensures |r| == |s| + 1
    ensures multiset(r) == multiset(s) + multiset{x}
  {
    if s == [] then [x]
    else if le(x, s[0]) then [x] + s
    else
      var r := [s[0]] + Insert(x, s[1..], le);
      assert s == [s[0]] + s[1..];
      r
  }

  function Sort<T>(s: seq<T>, le: (T, T) -> bool): (r: seq<T>)
    ensures |r| == |s|
    ensures multiset(r) == multiset(s)
  {
    if s == [] then []
    else
      ConsMultiset(s);
      Insert(s[0], Sort(s[1..], le), le)
  }

  /** Sorting keeps exactly the elements it was given. */
  lemma SortMembers<T>(s: seq<T>, le: (T, T) -> bool)
    ensures forall x :: x in Sort(s, le) <==> x in s
  {
    var r := Sort(s, le);
    forall x ensures x in r <==> x in s {
      assert x in r <==> x in multiset(r);
      assert x in s <==> x in multiset(s);
    }
  }

  lemma ConsMultiset<T>(s: seq<T>)
    requires s != []
    ensures multiset(s) == multiset(s[1..]) + multiset{s[0]}
  {
    assert s == [s[0]] + s[1..];
  }

  lemma {:induction false} InsertSorted<T(!new)>(x: T, s: seq<T>, le: (T, T) -> bool)
    requires TotalPreorder(le) && SortedBy(s, le)
    ensures SortedBy(Insert(x, s, le), le)
  {
    if s != [] && !le(x, s[0]) {
      InsertSorted(x, s[1..], le);
      var r := Insert(x, s[1..], le);
      assert le(s[0], x);
      forall j | 0 <= j < |r| ensures le(s[0], r[j]) {
        assert r[j] in multiset(r);
        assert r[j] == x || r[j] in multiset(s[1..]);
        if r[j] != x {
          var k :| 0 <= k < |s[1..]| && s[1..][k] == r[j];
          assert s[1..][k] == s[k + 1];
        }
      }
    }
  }

  /** The sorted output is ordered by `le`. */
  lemma {:induction false} SortSorted<T(!new)>(s: seq<T>, le: (T, T) -> bool)
    requires TotalPreorder(le)
    ensures SortedBy(Sort(s, le), le)
  {
    if s != [] {
      SortSorted(s[1..], le);
      InsertSorted(s[0], Sort(s[1..], le), le);
    }
  }

  lemma {:induction false} EquivalentsAppend<T>(a: seq<T>, b: seq<T>, k: T, le: (T, T) -> bool)
    ensures Equivalents(a + b, k, le) == Equivalents(a, k, le) + Equivalents(b, k, le)
  {
    if a != [] {
      assert (a + b)[1..] == a[1..] + b;
      EquivalentsAppend(a[1..], b, k, le);
    } else {
      assert a + b == b;
    }
  }

  lemma {:induction false} InsertEquivalents<T(!new)>(x: T, s: seq<T>, k: T, le: (T, T) -> bool)
    requires TotalPreorder(le)
    ensures Equivalents(Insert(x, s, le), k, le)
         == (if le(x, k) && le(k, x) then [x] else []) + Equivalents(s, k, le)
  {
    if s == [] {
      assert Insert(x, s, le) == [x] + s;
      EquivalentsCons(x, s, k, le);
    } else if le(x, s[0]) {
      EquivalentsCons(x, s, k, le);
    } else {
      InsertEquivalents(x, s[1..], k, le);
      NotBothEquivalent(le, x, s[0], k);
      InsertEquivalentsStep(x, s, k, le);
    }
  }

  /** The step of `InsertEquivalents` past an element smaller than `x`. */
  lemma InsertEquivalentsStep<T>(x: T, s: seq<T>, k: T, le: (T, T) -> bool)
    requires s != [] && !le(x, s[0])
    requires !(le(x, k) && le(k, x) && le(s[0], k) && le(k, s[0]))
    requires Equivalents(Insert(x, s[1..], le), k, le)
          == (if le(x, k) && le(k, x) then [x] else []) + Equivalents(s[1..], k, le)
    ensures Equivalents(Insert(x, s, le), k, le)
         == (if le(x, k) && le(k, x) then [x] else []) + Equivalents(s, k, le)
  {
    var cx := if le(x, k) && le(k, x) then [x] else [];
    var c0 := if le(s[0], k) && le(k, s[0]) then [s[0]] else [];
    var e1 := Equivalents(s[1..], k, le);
    EquivalentsCons(s[0], Insert(x, s[1..], le), k, le);
    assert Equivalents(s, k, le) == c0 + e1;
    PrependEither(c0, cx, e1);
  }

  /** Two prefixes, one of them empty, can be put on in either order. */
  lemma PrependEither<T>(a: seq<T>, b: seq<T>, e: seq<T>)
    requires a == [] || b == []
    ensures a + (b + e) == b + (a + e)
  {
    if a == [] {
      assert a + (b + e) == b + e;
      assert a + e == e;
    } else {
      assert b + e == e;
      assert b + (a + e) == a + e;
    }
  }

  lemma EquivalentsCons<T>(a: T, t: seq<T>, k: T, le: (T, T) -> bool)
    ensures Equivalents([a] + t, k, le) == (if le(a, k) && le(k, a) then [a] else []) + Equivalents(t, k, le)
  {
    assert ([a] + t)[0] == a && ([a] + t)[1..] == t;
  }

  /** Two elements that `le` does not order as `x` before `y` cannot both
      have `k`'s key. */
  lemma NotBothEquivalent<T(!new)>(le: (T, T) -> bool, x: T, y: T, k: T)
    requires TotalPreorder(le) && !le(x, y)
    ensures !(le(x, k) && le(k, x) && le(y, k) && le(k, y))
  {
  }

  /** Stability: among elements of equal key the output keeps the input
      order. */
  lemma {:induction false} SortStable<T(!new)>(s: seq<T>, k: T, le: (T, T) -> bool)
    requires TotalPreorder(le)
    ensures Equivalents(Sort(s, le), k, le) == Equivalents(s, k, le)
  {
    if s != [] {
      SortStable(s[1..], k, le);
      InsertEquivalents(s[0], Sort(s[1..], le), k, le);
    }
  }

  /** The total of `f` over a sequence. */
  function SumOf<T>(s: seq<T>, f: T -> real): real {
    if s == [] then 0.0 else f(s[0]) + SumOf(s[1..], f)
  }

  lemma {:induction false} SumOfAppend<T>(a: seq<T>, b: seq<T>, f: T -> real)
    ensures SumOf(a + b, f) == SumOf(a, f) + SumOf(b, f)
  {
    if a != [] {
      assert (a + b)[1..] == a[1..] + b;
      SumOfAppend(a[1..], b, f);
    } else {
      assert a + b == b;
    }
  }

  /** Totals of two sequences agree when their terms agree position by
      position. */
  lemma {:induction false} SumOfPointwise<T, U>(a: seq<T>, f: T -> real, b: seq<U>, g: U -> real)
    requires |a| == |b| && forall k :: 0 <= k < |a| ==> f(a[k]) == g(b[k])
    ensures SumOf(a, f) == SumOf(b, g)
  {
    if a != [] {
      assert f(a[0]) == g(b[0]);
      SumOfPointwise(a[1..], f, b[1..], g);
    }
  }

  lemma {:induction false} SumOfZero<T>(a: seq<T>, f: T -> real)
    requires forall k :: 0 <= k < |a| ==> f(a[k]) == 0.0
    ensures SumOf(a, f) == 0.0
  {
    if a != [] {
      assert f(a[0]) == 0.0;
      SumOfZero(a[1..], f);
    }
  }

  lemma {:induction false} InsertSum<T>(x: T, s: seq<T>, le: (T, T) -> bool, f: T -> real)
    ensures SumOf(Insert(x, s, le), f) == f(x) + SumOf(s, f)
  {
    if s != [] && !le(x, s[0]) {
      InsertSum(x, s[1..], le, f);
    }
  }

  /** Sorting does not change a total. */
  lemma {:induction false} SortSum<T>(s: seq<T>, le: (T, T) -> bool, f: T -> real)
    ensures SumOf(Sort(s, le), f) == SumOf(s, f)
  {
    if s != [] {
      SortSum(s[1..], le, f);
      InsertSum(s[0], Sort(s[1..], le), le, f);
    }
  }

  /** The head of an ordered sequence is ordered, and no element after it
      goes before an element of it. */
  lemma TakeSorted<T>(s: seq<T>, n: nat, le: (T, T) -> bool)
    requires SortedBy(s, le)
    ensures SortedBy(Take(s, n), le)
    ensures forall i, j :: 0 <= i < |Take(s, n)| <= j < |s| ==> le(Take(s, n)[i], s[j])
  {
    var t := Take(s, n);
    assert forall i :: 0 <= i < |t| ==> t[i] == s[i];
  }

  /** `take(n)`: the first `n` elements, or all of them when there are fewer. */
  function Take<T>(s: seq<T>, n: nat): (r: seq<T>)
    ensures |r| == if n <= |s| then n else |s|
    ensures r <= s
  {
    if n <= |s| then s[..n] else s
  }
}

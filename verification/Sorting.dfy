/**
 The standard library's sorts as a specification: a stable insertion sort, with the facts the
 callers rely on (ordered, a permutation, and unique when the order is antisymmetric).
 */
module Sorting {
  import opened Seqs

  ghost predicate TotalPreorder<T(!new)>(le: (T, T) -> bool) {
    && (forall a, b :: le(a, b) || le(b, a))
    && (forall a, b, c :: le(a, b) && le(b, c) ==> le(a, c))
  }

  function Insert<T>(s: seq<T>, x: T, le: (T, T) -> bool): (r: seq<T>)
    ensures multiset(r) == multiset(s) + multiset{x}
    ensures |r| == |s| + 1
  {
    if s == [] || le(s[|s| - 1], x) then s + [x]
    else
      assert s == s[..|s| - 1] + [s[|s| - 1]];
      Insert(s[..|s| - 1], x, le) + [s[|s| - 1]]
  }

  function Sort<T>(s: seq<T>, le: (T, T) -> bool): (r: seq<T>)
    ensures multiset(r) == multiset(s)
    ensures |r| == |s|
  {
    if s == [] then []
    else
      assert s == s[..|s| - 1] + [s[|s| - 1]];
      Insert(Sort(s[..|s| - 1], le), s[|s| - 1], le)
  }

  lemma {:induction false} InsertSorted<T(!new)>(s: seq<T>, x: T, le: (T, T) -> bool)
    requires TotalPreorder(le) && Pairwise(s, le)
    ensures Pairwise(Insert(s, x, le), le)
  {
    if s != [] && !le(s[|s| - 1], x) {
      var init, last := s[..|s| - 1], s[|s| - 1];
      InsertSorted(init, x, le);
      var r := Insert(init, x, le);
      forall i | 0 <= i < |r| ensures le(r[i], last) {
        assert r[i] in multiset(r);
        assert r[i] in init || r[i] == x;
      }
    } else if s != [] {
      var last := s[|s| - 1];
      assert forall i :: 0 <= i < |s| ==> le(s[i], last) || i == |s| - 1;
    }
  }

  lemma {:induction false} SortSorted<T(!new)>(s: seq<T>, le: (T, T) -> bool)
    requires TotalPreorder(le)
    ensures Pairwise(Sort(s, le), le)
  {
    if s != [] {
      SortSorted(s[..|s| - 1], le);
      InsertSorted(Sort(s[..|s| - 1], le), s[|s| - 1], le);
    }
  }

  function SumBy<T>(s: seq<T>, f: T -> real): real {
    if s == [] then 0.0 else SumBy(s[..|s| - 1], f) + f(s[|s| - 1])
  }

  lemma SumByNext<T>(s: seq<T>, x: T, f: T -> real)
    ensures SumBy(s + [x], f) == SumBy(s, f) + f(x)
  {
    assert (s + [x])[..|s|] == s;
  }

  lemma {:induction false} SumByAgrees<T>(s: seq<T>, f: T -> real, g: T -> real)
    requires forall i :: 0 <= i < |s| ==> f(s[i]) == g(s[i])
    ensures SumBy(s, f) == SumBy(s, g)
  {
    if s != [] { SumByAgrees(s[..|s| - 1], f, g); }
  }

  lemma {:induction false} InsertKeepsSum<T>(s: seq<T>, x: T, le: (T, T) -> bool, f: T -> real)
    ensures SumBy(Insert(s, x, le), f) == SumBy(s, f) + f(x)
  {
    if s == [] || le(s[|s| - 1], x) {
      SumByNext(s, x, f);
    } else {
      InsertKeepsSum(s[..|s| - 1], x, le, f);
      SumByNext(Insert(s[..|s| - 1], x, le), s[|s| - 1], f);
    }
  }

  /** Sorting keeps every sum over the elements. */
  lemma {:induction false} SortKeepsSum<T>(s: seq<T>, le: (T, T) -> bool, f: T -> real)
    ensures SumBy(Sort(s, le), f) == SumBy(s, f)
  {
    if s != [] {
      SortKeepsSum(s[..|s| - 1], le, f);
      InsertKeepsSum(Sort(s[..|s| - 1], le), s[|s| - 1], le, f);
    }
  }

  lemma PermutationMembers<T>(a: seq<T>, b: seq<T>)
    requires multiset(a) == multiset(b)
    ensures forall x :: x in a <==> x in b
  {
    forall x ensures x in a <==> x in b {
      assert x in a <==> x in multiset(a);
      assert x in b <==> x in multiset(b);
    }
  }

  lemma {:induction false} DistinctCounts<T>(s: seq<T>, x: T)
    requires Distinct(s)
    ensures multiset(s)[x] <= 1
  {
    if s != [] {
      DistinctCounts(s[..|s| - 1], x);
      assert s == s[..|s| - 1] + [s[|s| - 1]];
    }
  }

  lemma DistinctPermutation<T>(s: seq<T>, r: seq<T>)
    requires Distinct(s) && multiset(r) == multiset(s)
    ensures Distinct(r)
  {
    forall i, j | 0 <= i < j < |r|
      ensures r[i] != r[j]
    {
      DistinctCounts(s, r[i]);
      assert r == r[..j] + [r[j]] + r[j + 1..];
      assert r[i] in r[..j];
    }
  }

  lemma DropLast<T>(a: seq<T>)
    requires a != []
    ensures multiset(a[..|a| - 1]) == multiset(a) - multiset{a[|a| - 1]}
  {
    assert a == a[..|a| - 1] + [a[|a| - 1]];
  }

  /** Two ordered permutations of each other are equal when ties are equal. */
  lemma {:induction false} SortedUnique<T>(a: seq<T>, b: seq<T>, le: (T, T) -> bool)
    requires multiset(a) == multiset(b)
    requires Pairwise(a, le) && Pairwise(b, le)
    requires forall i, j :: 0 <= i < |a| && 0 <= j < |a| && le(a[i], a[j]) && le(a[j], a[i]) ==> a[i] == a[j]
    ensures a == b
  {
    assert |a| == |multiset(a)| == |multiset(b)| == |b|;
    if a != [] {
      var n := |a| - 1;
      LastAgrees(a, b, le);
      DropLast(a);
      DropLast(b);
      SortedUnique(a[..n], b[..n], le);
      assert a == a[..n] + [a[n]] && b == b[..n] + [b[n]];
    }
  }

  lemma LastAgrees<T>(a: seq<T>, b: seq<T>, le: (T, T) -> bool)
    requires a != [] && |a| == |b| && multiset(a) == multiset(b)
    requires Pairwise(a, le) && Pairwise(b, le)
    requires forall i, j :: 0 <= i < |a| && 0 <= j < |a| && le(a[i], a[j]) && le(a[j], a[i]) ==> a[i] == a[j]
    ensures a[|a| - 1] == b[|a| - 1]
  {
    var n := |a| - 1;
    PermutationMembers(a, b);
    assert a[n] in b && b[n] in a;
    var i :| 0 <= i < |b| && b[i] == a[n];
    var j :| 0 <= j < |a| && a[j] == b[n];
    if i != n && j != n {
      assert le(b[i], b[n]) && le(a[j], a[n]);
    }
  }

  /** A strictly ordered enumeration of a set is unique. */
  lemma {:induction false} StrictUnique<T>(a: seq<T>, b: seq<T>, lt: (T, T) -> bool)
    requires Elems(a) == Elems(b)
    requires Pairwise(a, lt) && Pairwise(b, lt)
    requires forall x, y :: x in a && y in a ==> !(lt(x, y) && lt(y, x))
    ensures a == b
  {
    assert forall x :: x in a <==> x in Elems(a);
    assert forall x :: x in b <==> x in Elems(b);
    assert b != [] ==> b[0] in Elems(b);
    assert a != [] ==> a[0] in Elems(a);
    if a != [] {
      assert a[0] in b;
      var n, m := |a| - 1, |b| - 1;
      assert a[n] in b && b[m] in a;
      assert a[n] == b[m];
      forall x ensures x in a[..n] <==> x in b[..m] {
        if x in a[..n] {
          assert x in b && lt(x, a[n]);
          assert x in b[..m];
        }
        if x in b[..m] {
          assert x in a && lt(x, b[m]);
          assert x in a[..n];
        }
      }
      assert Elems(a[..n]) == Elems(b[..m]);
      StrictUnique(a[..n], b[..m], lt);
      assert a == a[..n] + [a[n]] && b == b[..m] + [b[m]];
    }
  }
}

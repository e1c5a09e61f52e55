/** Sequence vocabulary shared by the modelled components. */
module Seqs {

  datatype Option<+T> = None | Some(value: T)

  /** The last `n` elements, or all of them when there are fewer. */
  function Tail<T>(s: seq<T>, n: nat): (r: seq<T>)
    ensures |r| == if |s| <= n then |s| else n
  {
    if |s| <= n then s else s[|s| - n..]
  }

  lemma TailOfTail<T>(s: seq<T>, d: seq<T>, n: nat)
    ensures Tail(Tail(s, n) + d, n) == Tail(s + d, n)
  {
  }

  /** `0..n`. */
  function Indices(n: nat): (r: seq<nat>)
    ensures |r| == n && forall i :: 0 <= i < n ==> r[i] == i
  {
    seq(n, i => i)
  }

  lemma SplitPrefix<T>(s: seq<T>, a: nat, b: nat)
    requires a <= b <= |s|
    ensures s[..b] == s[..a] + s[a..b]
  {
  }

  function Filter<T>(s: seq<T>, p: T -> bool): seq<T> {
    if s == [] then []
    else Filter(s[..|s| - 1], p) + (if p(s[|s| - 1]) then [s[|s| - 1]] else [])
  }

  lemma {:induction false} FilterMembers<T(!new)>(s: seq<T>, p: T -> bool)
    ensures forall x :: x in Filter(s, p) <==> x in s && p(x)
  {
    if s != [] {
      FilterMembers(s[..|s| - 1], p);
      assert s == s[..|s| - 1] + [s[|s| - 1]];
    }
  }

  lemma {:induction false} FilterConcat<T>(a: seq<T>, b: seq<T>, p: T -> bool)
    ensures Filter(a + b, p) == Filter(a, p) + Filter(b, p)
  {
    if b == [] {
      assert a + b == a;
    } else {
      var init := b[..|b| - 1];
      assert (a + b)[..|a + b| - 1] == a + init;
      FilterConcat(a, init, p);
    }
  }

  lemma {:induction false} FilterNone<T>(s: seq<T>, p: T -> bool)
    requires forall i :: 0 <= i < |s| ==> !p(s[i])
    ensures Filter(s, p) == []
  {
    if s != [] { FilterNone(s[..|s| - 1], p); }
  }

  lemma {:induction false} FilterSame<T>(s: seq<T>, p: T -> bool, q: T -> bool)
    requires forall i :: 0 <= i < |s| ==> (p(s[i]) <==> q(s[i]))
    ensures Filter(s, p) == Filter(s, q)
  {
    if s != [] { FilterSame(s[..|s| - 1], p, q); }
  }

  /** Cutting away ends that hold nothing of interest does not change what a filter sees. */
  lemma FilterSlice<T>(s: seq<T>, start: nat, end: nat, p: T -> bool)
    requires start <= end <= |s|
    requires forall k :: 0 <= k < |s| && p(s[k]) ==> start <= k < end
    ensures Filter(s[start..end], p) == Filter(s, p)
  {
    FilterNoneOf(s, 0, start, p);
    FilterNoneOf(s, end, |s|, p);
    SplitThree(s, start, end);
    FilterMiddle(s[0..start], s[start..end], s[end..|s|], p);
  }

  lemma FilterNoneOf<T>(s: seq<T>, from: nat, end: nat, p: T -> bool)
    requires from <= end <= |s| && forall k :: from <= k < end ==> !p(s[k])
    ensures Filter(s[from..end], p) == []
  {
    var a := s[from..end];
    forall i | 0 <= i < |a| ensures !p(a[i]) { assert a[i] == s[from + i]; }
    FilterNone(a, p);
  }

  lemma SplitThree<T>(s: seq<T>, start: nat, end: nat)
    requires start <= end <= |s|
    ensures s == s[0..start] + s[start..end] + s[end..|s|]
  {
  }

  lemma FilterMiddle<T>(a: seq<T>, b: seq<T>, c: seq<T>, p: T -> bool)
    requires Filter(a, p) == [] && Filter(c, p) == []
    ensures Filter(a + b + c, p) == Filter(b, p)
  {
    FilterConcat(a, b, p);
    FilterConcat(a + b, c, p);
  }

  /** Every earlier element is related to every later one. */
  ghost predicate Pairwise<T>(s: seq<T>, r: (T, T) -> bool) {
    forall i, j :: 0 <= i < j < |s| ==> r(s[i], s[j])
  }

  lemma {:induction false} PairwiseFilter<T(!new)>(s: seq<T>, p: T -> bool, r: (T, T) -> bool)
    requires Pairwise(s, r)
    ensures Pairwise(Filter(s, p), r)
  {
    if s != [] {
      var init, last := s[..|s| - 1], s[|s| - 1];
      assert forall x :: x in init ==> r(x, last);
      PairwiseFilter(init, p, r);
      FilterMembers(init, p);
      var f := Filter(init, p);
      assert forall i :: 0 <= i < |f| ==> f[i] in init;
    }
  }

  ghost function Elems<T>(s: seq<T>): set<T> {
    set x | x in s
  }

  ghost predicate Distinct<T>(s: seq<T>) {
    forall i, j :: 0 <= i < j < |s| ==> s[i] != s[j]
  }

  lemma {:induction false} ElemsCount<T>(s: seq<T>)
    requires Distinct(s)
    ensures |Elems(s)| == |s|
  {
    if s != [] {
      var init, last := s[..|s| - 1], s[|s| - 1];
      ElemsCount(init);
      assert Elems(s) == Elems(init) + {last};
    }
  }

  /** The standard library's `partition_point`: how long a prefix satisfies `p`. */
  function PartitionPoint<T>(s: seq<T>, p: T -> bool): (r: nat)
    ensures r <= |s|
    ensures forall i :: 0 <= i < r ==> p(s[i])
    ensures r < |s| ==> !p(s[r])
  {
    if s == [] || !p(s[0]) then 0 else 1 + PartitionPoint(s[1..], p)
  }

  /** Over elements that satisfy `p` as a prefix, the partition point says of each whether it does. */
  lemma PrefixPoint<T>(s: seq<T>, p: T -> bool, i: nat)
    requires i < |s|
    requires forall j :: 0 <= j < i && p(s[i]) ==> p(s[j])
    ensures p(s[i]) <==> i < PartitionPoint(s, p)
  {
  }

  lemma StrictSubset<T>(a: set<T>, b: set<T>, x: T)
    requires a <= b && x in b && x !in a
    ensures |a| < |b|
  {
    SubsetSize(a, b - {x});
  }

  lemma {:induction false} SubsetSize<T>(a: set<T>, b: set<T>)
    requires a <= b
    ensures |a| <= |b|
  {
    if a != {} {
      var x :| x in a;
      SubsetSize(a - {x}, b - {x});
    }
  }

  /** A set and its image under an injective map have the same size. */
  lemma {:induction false} ImageSize(s: set<nat>, f: nat -> nat, t: set<nat>)
    requires t == set x | x in s :: f(x)
    requires forall a, b :: a in s && b in s && a != b ==> f(a) != f(b)
    ensures |t| == |s|
  {
    if s != {} {
      var x :| x in s;
      ImageSize(s - {x}, f, t - {f(x)});
    }
  }

  /** A finite set whose members map injectively into `0..n` has at most `n` members. */
  lemma {:induction false} Pigeonhole(s: set<nat>, f: nat -> nat, n: nat)
    requires forall a :: a in s ==> f(a) < n
    requires forall a, b :: a in s && b in s && a != b ==> f(a) != f(b)
    ensures |s| <= n
  {
    if n > 0 {
      if a :| a in s && f(a) == n - 1 {
        Pigeonhole(s - {a}, f, n - 1);
      } else {
        Pigeonhole(s, f, n - 1);
      }
    } else {
      assert s == {};
    }
  }
}

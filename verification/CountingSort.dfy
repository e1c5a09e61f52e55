/**
 The stable counting sort standing in for a comparison sort
 (crates/moon-chart/src/tick_volume.rs).
 */
module CountingSort {
  import opened Seqs

  /** The elements of `s` with key `b`, in their original order. */
  ghost function Bucket(s: seq<nat>, key: nat -> nat, b: nat): seq<nat> {
    Filter(s, (k: nat) => key(k) == b)
  }

  /** The first `buckets` buckets, end to end: what a stable sort by `key` must produce. */
  ghost function Concat(s: seq<nat>, key: nat -> nat, buckets: nat): seq<nat> {
    if buckets == 0 then [] else Concat(s, key, buckets - 1) + Bucket(s, key, buckets - 1)
  }

  /** Where bucket `b` starts in the sorted result. */
  ghost function Start(s: seq<nat>, key: nat -> nat, b: nat): nat {
    |Concat(s, key, b)|
  }

  lemma StartNext(s: seq<nat>, key: nat -> nat, b: nat)
    ensures Start(s, key, b + 1) == Start(s, key, b) + |Bucket(s, key, b)|
  {
  }

  /** The first `n + 1` starts, each past the one before by the size of its bucket. */
  lemma Starts(s: seq<nat>, key: nat -> nat, n: nat) returns (starts: seq<nat>)
    ensures |starts| == n + 1 && starts[0] == 0
    ensures forall b :: 0 <= b <= n ==> starts[b] == Start(s, key, b)
    ensures forall b :: 0 <= b < n ==> starts[b + 1] == starts[b] + |Bucket(s, key, b)|
  {
    starts := seq(n + 1, b requires 0 <= b => Start(s, key, b));
    forall b | 0 <= b < n ensures starts[b + 1] == starts[b] + |Bucket(s, key, b)| {
      StartNext(s, key, b);
    }
  }

  ghost predicate KeysBelow(s: seq<nat>, key: nat -> nat, buckets: nat) {
    forall i :: 0 <= i < |s| ==> key(s[i]) < buckets
  }

  lemma BucketStep(s: seq<nat>, key: nat -> nat, b: nat, i: nat)
    requires i < |s|
    ensures Bucket(s[..i + 1], key, b) == Bucket(s[..i], key, b) + (if key(s[i]) == b then [s[i]] else [])
  {
    assert s[..i + 1][..i] == s[..i];
  }

  /** Taking one more element grows exactly its own bucket. */
  lemma BucketSizes(s: seq<nat>, key: nat -> nat, i: nat, buckets: nat)
    requires i < |s|
    ensures forall b :: 0 <= b < buckets ==>
              |Bucket(s[..i + 1], key, b)| == |Bucket(s[..i], key, b)| + if key(s[i]) == b then 1 else 0
  {
    forall b | 0 <= b < buckets
      ensures |Bucket(s[..i + 1], key, b)| == |Bucket(s[..i], key, b)| + if key(s[i]) == b then 1 else 0
    {
      BucketStep(s, key, b, i);
    }
  }

  /** A bucket of a prefix is a prefix of the bucket. */
  lemma BucketPrefix(s: seq<nat>, key: nat -> nat, b: nat, i: nat)
    requires i <= |s|
    ensures Bucket(s[..i], key, b) <= Bucket(s, key, b)
  {
    FilterConcat(s[..i], s[i..], (k: nat) => key(k) == b);
    assert s[..i] + s[i..] == s;
  }

  lemma {:induction false} StartGrows(s: seq<nat>, key: nat -> nat, b: nat, c: nat)
    requires b <= c
    ensures Start(s, key, b) <= Start(s, key, c)
  {
    if b < c {
      StartGrows(s, key, b, c - 1);
      StartNext(s, key, c - 1);
    }
  }

  /** All buckets together hold every element. */
  lemma {:induction false} ConcatLength(s: seq<nat>, key: nat -> nat, buckets: nat)
    requires KeysBelow(s, key, buckets)
    ensures Start(s, key, buckets) == |s|
  {
    if s == [] {
      EmptyConcat(key, buckets);
    } else {
      var init, last := s[..|s| - 1], s[|s| - 1];
      ConcatLength(init, key, buckets);
      ConcatAdds(init, last, key, buckets);
      assert s == init + [last];
    }
  }

  lemma {:induction false} EmptyConcat(key: nat -> nat, buckets: nat)
    ensures Concat([], key, buckets) == []
  {
    if buckets > 0 { EmptyConcat(key, buckets - 1); }
  }

  lemma {:induction false} ConcatAdds(init: seq<nat>, last: nat, key: nat -> nat, buckets: nat)
    ensures Start(init + [last], key, buckets) == Start(init, key, buckets) + if key(last) < buckets then 1 else 0
  {
    if buckets > 0 {
      ConcatAdds(init, last, key, buckets - 1);
      assert (init + [last])[..|init|] == init;
    }
  }

  /**
   Stable counting sort of `order` by `key` in `0..buckets`; equal keys keep their order.
   */
  method CountingSortBy(order: seq<nat>, buckets: nat, key: nat -> nat) returns (sorted: seq<nat>)
    requires KeysBelow(order, key, buckets)
    ensures sorted == Concat(order, key, buckets)
  {
    var counts := new nat[buckets](_ => 0);
    Histogram(order, key, counts);
    PrefixSums(order, key, counts);
    var scratch := new nat[|order|](_ => 0);
    Scatter(order, key, counts, scratch);
    sorted := scratch[..];
  }

  method Histogram(order: seq<nat>, key: nat -> nat, counts: array<nat>)
    requires KeysBelow(order, key, counts.Length)
    requires forall b :: 0 <= b < counts.Length ==> counts[b] == 0
    modifies counts
    ensures forall b :: 0 <= b < counts.Length ==> counts[b] == |Bucket(order, key, b)|
  {
    var i := 0;
    while i < |order|
      invariant 0 <= i <= |order|
      invariant forall b :: 0 <= b < counts.Length ==> counts[b] == |Bucket(order[..i], key, b)|
    {
      BucketSizes(order, key, i, counts.Length);
      counts[key(order[i])] := counts[key(order[i])] + 1;
      i := i + 1;
    }
    assert order[..i] == order;
  }

  method PrefixSums(order: seq<nat>, key: nat -> nat, counts: array<nat>)
    requires forall b :: 0 <= b < counts.Length ==> counts[b] == |Bucket(order, key, b)|
    modifies counts
    ensures forall b :: 0 <= b < counts.Length ==> counts[b] == Start(order, key, b)
  {
    ghost var starts := Starts(order, key, counts.Length);
    var sum, j := 0, 0;
    while j < counts.Length
      invariant 0 <= j <= counts.Length
      invariant sum == starts[j]
      invariant forall b :: 0 <= b < j ==> counts[b] == starts[b]
      invariant forall b :: j <= b < counts.Length ==> counts[b] == old(counts[b])
    {
      var n := counts[j];
      counts[j] := sum;
      sum := sum + n;
      j := j + 1;
    }
  }

  /** Bucket `b`'s own range of the output holds what the first `i` elements put there. */
  ghost predicate BucketFilled(order: seq<nat>, key: nat -> nat, i: nat, b: nat, out: seq<nat>)
    requires i <= |order|
  {
    var (at, part) := (Start(order, key, b), Bucket(order[..i], key, b));
    at + |part| <= |out| && out[at..at + |part|] == part
  }

  ghost predicate Scattered(order: seq<nat>, key: nat -> nat, i: nat, buckets: nat, out: seq<nat>)
    requires i <= |order|
  {
    forall b :: 0 <= b < buckets ==> BucketFilled(order, key, i, b, out)
  }

  /** The slot of the next element of bucket `b` is inside that bucket's own range. */
  lemma SlotInRange(order: seq<nat>, key: nat -> nat, i: nat, buckets: nat)
    requires i < |order| && KeysBelow(order, key, buckets)
    ensures var b := key(order[i]);
            |Bucket(order[..i], key, b)| < |Bucket(order, key, b)|
  {
    var b := key(order[i]);
    BucketStep(order, key, b, i);
    BucketPrefix(order, key, b, i + 1);
  }

  /** Bucket ranges do not overlap and end within the output. */
  lemma RangesApart(order: seq<nat>, key: nat -> nat, b: nat, c: nat, buckets: nat)
    requires KeysBelow(order, key, buckets) && c < buckets
    ensures Start(order, key, c) + |Bucket(order, key, c)| <= |order|
    ensures b < c ==> Start(order, key, b) + |Bucket(order, key, b)| <= Start(order, key, c)
  {
    StartNext(order, key, c);
    StartGrows(order, key, c + 1, buckets);
    ConcatLength(order, key, buckets);
    if b < c {
      StartNext(order, key, b);
      StartGrows(order, key, b + 1, c);
    }
  }

  lemma NothingScattered(order: seq<nat>, key: nat -> nat, buckets: nat, out: seq<nat>)
    requires KeysBelow(order, key, buckets) && |out| == |order|
    ensures Scattered(order, key, 0, buckets, out)
  {
    forall b | 0 <= b < buckets
      ensures BucketFilled(order, key, 0, b, out)
    {
      StartGrows(order, key, b, buckets);
      ConcatLength(order, key, buckets);
    }
  }

  /** Writing the next element at its bucket's cursor fills one more slot of that bucket. */
  lemma ScatterStep(order: seq<nat>, key: nat -> nat, i: nat, buckets: nat, out: seq<nat>, next: seq<nat>)
    requires i < |order| && KeysBelow(order, key, buckets) && |out| == |order|
    requires Scattered(order, key, i, buckets, out)
    requires var at := Start(order, key, key(order[i])) + |Bucket(order[..i], key, key(order[i]))|;
             at < |out| ==> next == out[at := order[i]]
    ensures Scattered(order, key, i + 1, buckets, next)
  {
    var b := key(order[i]);
    var start, part := Start(order, key, b), Bucket(order[..i], key, b);
    var at := start + |part|;
    SlotInRange(order, key, i, buckets);
    RangesApart(order, key, b, b, buckets);
    var done := i + 1;
    forall c | 0 <= c < buckets
      ensures BucketFilled(order, key, done, c, next)
    {
      assert BucketFilled(order, key, i, c, out);
      BucketStep(order, key, c, i);
      if c == b {
        assert next[start..at + 1] == part + [order[i]];
      } else {
        BucketPrefix(order, key, c, i);
        RangesApart(order, key, b, c, buckets);
        RangesApart(order, key, c, b, buckets);
        var (from, other) := (Start(order, key, c), Bucket(order[..i], key, c));
        assert next[from..from + |other|] == out[from..from + |other|];
      }
    }
  }

  lemma {:induction false} ScatteredIsConcat(order: seq<nat>, key: nat -> nat, buckets: nat, n: nat, out: seq<nat>)
    requires n <= buckets && KeysBelow(order, key, buckets) && |out| == |order|
    requires Scattered(order, key, |order|, buckets, out)
    ensures Start(order, key, n) <= |out| && out[..Start(order, key, n)] == Concat(order, key, n)
  {
    if n > 0 {
      ScatteredIsConcat(order, key, buckets, n - 1, out);
      assert BucketFilled(order, key, |order|, n - 1, out);
      assert order[..|order|] == order;
      StartNext(order, key, n - 1);
      var a, b := Start(order, key, n - 1), Start(order, key, n);
      assert out[..b] == out[..a] + out[a..b];
    }
  }

  method Scatter(order: seq<nat>, key: nat -> nat, counts: array<nat>, scratch: array<nat>)
    requires counts != scratch && scratch.Length == |order|
    requires KeysBelow(order, key, counts.Length)
    requires forall b :: 0 <= b < counts.Length ==> counts[b] == Start(order, key, b)
    modifies counts, scratch
    ensures scratch[..] == Concat(order, key, counts.Length)
  {
    var i := 0;
    NothingScattered(order, key, counts.Length, scratch[..]);
    while i < |order|
      invariant 0 <= i <= |order|
      invariant forall b :: 0 <= b < counts.Length ==> counts[b] == Start(order, key, b) + |Bucket(order[..i], key, b)|
      invariant Scattered(order, key, i, counts.Length, scratch[..])
    {
      var b := key(order[i]);
      var at := counts[b];
      SlotInRange(order, key, i, counts.Length);
      RangesApart(order, key, b, b, counts.Length);
      BucketSizes(order, key, i, counts.Length);
      ghost var out := scratch[..];
      scratch[at] := order[i];
      assert scratch[..] == out[at := order[i]];
      ScatterStep(order, key, i, counts.Length, out, scratch[..]);
      counts[b] := at + 1;
      i := i + 1;
    }
    ScatteredIsConcat(order, key, counts.Length, counts.Length, scratch[..]);
    ConcatLength(order, key, counts.Length);
  }

  // ---- what the stable sort means ----

  /** Same elements. */
  lemma {:induction false} ConcatMembers(s: seq<nat>, key: nat -> nat, buckets: nat)
    ensures forall k: nat :: k in Concat(s, key, buckets) <==> k in s && key(k) < buckets
  {
    if buckets > 0 {
      ConcatMembers(s, key, buckets - 1);
      FilterMembers(s, (k: nat) => key(k) == buckets - 1);
    }
  }

  /**
   The least-significant-digit step: sorting stably by `key` refines whatever order `s` already
   had, which breaks the ties.
   */
  lemma {:induction false} StableSortRefines(s: seq<nat>, key: nat -> nat, buckets: nat, r: (nat, nat) -> bool)
    requires Pairwise(s, r)
    ensures Pairwise(Concat(s, key, buckets), (a: nat, b: nat) => key(a) < key(b) || (key(a) == key(b) && r(a, b)))
  {
    if buckets > 0 {
      StableSortRefines(s, key, buckets - 1, r);
      var p := (k: nat) => key(k) == buckets - 1;
      PairwiseFilter(s, p, r);
      FilterMembers(s, p);
      ConcatMembers(s, key, buckets - 1);
      var a, b := Concat(s, key, buckets - 1), Bucket(s, key, buckets - 1);
      assert forall i :: 0 <= i < |a| ==> a[i] in a;
      assert forall i :: 0 <= i < |b| ==> b[i] in b;
    }
  }
}

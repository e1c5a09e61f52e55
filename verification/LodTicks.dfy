/**
 From ticks to keyed rows and back: the pixel a tick is drawn at, and how a choice of rows reads as a
 choice of ticks (crates/moon-chart/src/tick_volume.rs).
 */
module LodTicks {
  import opened Floats
  import opened Seqs
  import opened LodRows

  /** The ticks a pass draws, in draw order. */
  ghost function Drawn(ticks: seq<Tick>, p: Tick -> bool): seq<nat> {
    Filter(Indices(|ticks|), (i: nat) => i < |ticks| && p(ticks[i]))
  }

  lemma DrawnMembers(ticks: seq<Tick>, p: Tick -> bool)
    ensures forall i: nat :: i in Drawn(ticks, p) <==> i < |ticks| && p(ticks[i])
    ensures Pairwise(Drawn(ticks, p), (a: nat, b: nat) => a < b)
  {
    var q := (i: nat) => i < |ticks| && p(ticks[i]);
    IndicesEnumerate(|ticks|);
    FilterMembers(Indices(|ticks|), q);
    PairwiseFilter(Indices(|ticks|), q, (a: nat, b: nat) => a < b);
  }

  lemma DrawnOrder(d: seq<nat>, j: nat, k: nat)
    requires Pairwise(d, (a: nat, b: nat) => a < b) && j < |d| && k < |d|
    ensures (d[j] < d[k] <==> j < k) && (d[j] == d[k] <==> j == k)
  {
  }

  /** Row `k` is the key of the `k`-th tick drawn. */
  lemma {:induction false} RowsOfDrawn(ticks: seq<Tick>, p: Tick -> bool)
    ensures |Keyed(ticks, p)| == |Drawn(ticks, p)|
    ensures forall k :: 0 <= k < |Drawn(ticks, p)| ==>
      Drawn(ticks, p)[k] < |ticks| && Keyed(ticks, p)[k] == KeyRow(ticks[Drawn(ticks, p)[k]])
  {
    if ticks != [] {
      var init := ticks[..|ticks| - 1];
      RowsOfDrawn(init, p);
      DrawnNext(ticks, p);
    }
  }

  lemma DrawnNext(ticks: seq<Tick>, p: Tick -> bool)
    requires ticks != []
    ensures var n := |ticks| - 1;
            Drawn(ticks, p) == Drawn(ticks[..n], p) + if p(ticks[n]) then [n] else []
  {
    var n := |ticks| - 1;
    var all := Indices(|ticks|);
    assert all[..n] == Indices(n);
    FilterSame(Indices(n), (i: nat) => i < |ticks| && p(ticks[i]), (i: nat) => i < n && p(ticks[..n][i]));
  }

  /** The slots of some ticks. */
  function PickSlots(ticks: seq<Tick>, picks: seq<nat>): (r: seq<nat>)
    requires forall i :: 0 <= i < |picks| ==> picks[i] < |ticks|
    ensures |r| == |picks|
  {
    seq(|picks|, i requires 0 <= i < |picks| => ticks[picks[i]].slot)
  }

  /** The ticks that satisfy `r`, in draw order. */
  ghost function Ticks(ticks: seq<Tick>, r: nat -> bool): (s: seq<nat>)
    ensures forall i :: 0 <= i < |s| ==> s[i] < |ticks|
  {
    var q := (i: nat) => i < |ticks| && r(i);
    FilterMembers(Indices(|ticks|), q);
    var s := Filter(Indices(|ticks|), q);
    assert forall i :: 0 <= i < |s| ==> s[i] in s;
    s
  }

  lemma TicksMembers(ticks: seq<Tick>, r: nat -> bool)
    ensures forall i: nat :: i in Ticks(ticks, r) <==> i < |ticks| && r(i)
    ensures Pairwise(Ticks(ticks, r), (a: nat, b: nat) => a < b)
  {
    var q := (i: nat) => i < |ticks| && r(i);
    IndicesEnumerate(|ticks|);
    FilterMembers(Indices(|ticks|), q);
    PairwiseFilter(Indices(|ticks|), q, (a: nat, b: nat) => a < b);
  }

  lemma SameTicks(ticks: seq<Tick>, r: nat -> bool, q: nat -> bool)
    requires forall i: nat :: i < |ticks| ==> (r(i) <==> q(i))
    ensures Ticks(ticks, r) == Ticks(ticks, q)
  {
    FilterSame(Indices(|ticks|), (i: nat) => i < |ticks| && r(i), (i: nat) => i < |ticks| && q(i));
  }

  // ---- a choice of rows as a choice of ticks ----

  /** The elements of `s` at some positions. */
  ghost function Picked(s: seq<nat>, ks: seq<nat>): (r: seq<nat>)
    ensures |r| == |ks|
  {
    seq(|ks|, i requires 0 <= i < |ks| => if ks[i] < |s| then s[ks[i]] else 0)
  }

  lemma {:induction false} FilterByIndex(s: seq<nat>, r: nat -> bool)
    ensures Filter(s, r) == Picked(s, Filter(Indices(|s|), (k: nat) => k < |s| && r(s[k])))
  {
    if s != [] {
      var n := |s| - 1;
      var all, init := Indices(|s|), s[..n];
      var p, q := (k: nat) => k < |s| && r(s[k]), (k: nat) => k < n && r(init[k]);
      FilterByIndex(init, r);
      assert all[..n] == Indices(n);
      FilterSame(Indices(n), p, q);
      PickedPrefix(s, n, Filter(Indices(n), q), q);
    }
  }

  lemma PickedPrefix(s: seq<nat>, n: nat, ks: seq<nat>, q: nat -> bool)
    requires n <= |s| && ks == Filter(Indices(n), q)
    ensures Picked(s[..n], ks) == Picked(s, ks)
  {
    FilterMembers(Indices(n), q);
    assert forall i :: 0 <= i < |ks| ==> ks[i] in ks;
  }

  lemma {:induction false} FilterTwice(s: seq<nat>, p: nat -> bool, r: nat -> bool)
    requires forall i :: 0 <= i < |s| && r(s[i]) ==> p(s[i])
    ensures Filter(Filter(s, p), r) == Filter(s, r)
  {
    if s != [] {
      var init, last := s[..|s| - 1], s[|s| - 1];
      FilterTwice(init, p, r);
      if p(last) {
        var f := Filter(init, p);
        assert (f + [last])[..|f|] == f;
      } else {
        assert Filter(init, p) + [] == Filter(init, p);
      }
    }
  }

  /** Slots of chosen rows are the slots of the ticks they are the keys of. */
  lemma RowChoice(ticks: seq<Tick>, p: Tick -> bool, q: nat -> bool, r: nat -> bool)
    requires forall k :: 0 <= k < |Drawn(ticks, p)| ==> (q(k) <==> r(Drawn(ticks, p)[k]))
    requires forall i: nat :: i < |ticks| && r(i) ==> p(ticks[i])
    ensures Slots(Keyed(ticks, p), Filter(Indices(|Keyed(ticks, p)|), q)) == PickSlots(ticks, Ticks(ticks, r))
  {
    var d, rows := Drawn(ticks, p), Keyed(ticks, p);
    var t := (i: nat) => i < |ticks| && r(i);
    RowsOfDrawn(ticks, p);
    FilterTwice(Indices(|ticks|), (i: nat) => i < |ticks| && p(ticks[i]), t);
    FilterByIndex(d, t);
    var ks := Filter(Indices(|d|), q);
    FilterSame(Indices(|d|), q, (k: nat) => k < |d| && t(d[k]));
    assert Ticks(ticks, r) == Picked(d, ks);
    FilterMembers(Indices(|d|), q);
    assert forall i :: 0 <= i < |ks| ==> ks[i] in ks;
    PickedSlots(ticks, rows, d, ks);
  }

  lemma PickedSlots(ticks: seq<Tick>, rows: seq<LodRow>, d: seq<nat>, ks: seq<nat>)
    requires |rows| == |d| && forall k :: 0 <= k < |d| ==> d[k] < |ticks| && rows[k] == KeyRow(ticks[d[k]])
    requires forall i :: 0 <= i < |ks| ==> ks[i] < |d|
    ensures Slots(rows, ks) == PickSlots(ticks, Picked(d, ks))
  {
  }

  /** Sets of rows and of ticks that correspond are equally large. */
  lemma SameSize(d: seq<nat>, rows: set<nat>, ticks: set<nat>)
    requires Pairwise(d, (a: nat, b: nat) => a < b)
    requires forall k :: k in rows ==> k < |d|
    requires forall i :: i in ticks ==> i in d
    requires forall k :: 0 <= k < |d| ==> (d[k] in ticks <==> k in rows)
    ensures |rows| == |ticks|
  {
    var f := (k: nat) => if k < |d| then d[k] else 0;
    forall i ensures i in ticks <==> i in (set k | k in rows :: f(k)) {
      if i in ticks {
        var k: nat :| k < |d| && d[k] == i;
        assert f(k) == i && k in rows;
      }
    }
    forall a, b | a in rows && b in rows && a != b ensures f(a) != f(b) {
      assert if a < b then d[a] < d[b] else d[b] < d[a];
    }
    ImageSize(rows, f, ticks);
  }

  // ---- pixels ----

  /** A bake's own culling bounds fit 64-bit texel keys. */
  predicate Addressable(g: BakeColumns) {
    Max(0.0, Max(g.width, g.height)) + Max(8.0, g.markerHalf + 1.0) <= 9_000_000_000_000_000_000.0
  }

  /** A coordinate that a 64-bit key can hold is keyed as the integer nearest to it, ties to even. */
  lemma KeyIsRounded(f: Float)
    requires f.Fin? && Abs(RoundTiesEven(f.v) as real) <= 9_000_000_000_000_000_000.0
    ensures ToKey(Round(f)) == RoundTiesEven(f.v)
  {
  }
}

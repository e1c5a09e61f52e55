/**
 Arrival-time evidence and the conservative window search over late, interleaved ticks
 (crates/moon-chart/src/tick_volume.rs).
 */
module TickTime {
  import opened Floats
  import opened Seqs

  ghost predicate AllFinite(times: seq<Float>) {
    forall i :: 0 <= i < |times| ==> times[i].Fin?
  }

  /** No row is more than `bound` earlier than any row before it. */
  ghost predicate Bounded(times: seq<Float>, bound: real) {
    && AllFinite(times)
    && forall i, j :: 0 <= i < j < |times| ==> times[i].v - times[j].v <= bound
  }

  ghost predicate LateBy(times: seq<Float>, i: int, j: int, bound: real) {
    0 <= i < j < |times| && times[i].Fin? && times[j].Fin? && times[i].v - times[j].v == bound
  }

  /**
   What the evidence means: the exact maximum lateness of a finite stream, and infinity for a
   stream that held a non-finite time.
   */
  ghost predicate Evidence(seen: seq<Float>, lateness: Float) {
    if AllFinite(seen) then
      && lateness.Fin? && lateness.v >= 0.0
      && Bounded(seen, lateness.v)
      && (lateness.v == 0.0 || exists i, j :: LateBy(seen, i, j, lateness.v))
    else
      lateness == PosInf
  }

  /** The running maximum of the finite times of a stream. */
  ghost predicate PrefixMax(seen: seq<Float>, m: Option<real>) {
    && (m.Some? ==> Fin(m.value) in seen)
    && forall i :: 0 <= i < |seen| && seen[i].Fin? ==> m.Some? && seen[i].v <= m.value
  }

  class TickTimeOrder {
    var prefixMax: Option<real>
    var maxLateness: Float
    ghost var seen: seq<Float>

    ghost predicate Valid()
      reads this
    {
      PrefixMax(seen, prefixMax) && Evidence(seen, maxLateness)
    }

    constructor ()
      ensures Valid() && seen == []
    {
      prefixMax, maxLateness, seen := None, Fin(0.0), [];
    }

    /** Takes one batch of row times into the evidence. */
    method Extend(times: seq<Float>)
      requires Valid()
      modifies this
      ensures Valid() && seen == old(seen) + times
    {
      var i := 0;
      while i < |times|
        invariant 0 <= i <= |times|
        invariant Valid() && seen == old(seen) + times[..i]
      {
        if !times[i].Fin? {
          maxLateness := PosInf;
          seen := seen + [times[i]];
          assert !seen[|seen| - 1].Fin?;
        } else {
          Take(times[i].v);
        }
        i := i + 1;
        assert times[..i] == times[..i - 1] + [times[i - 1]];
      }
      assert times[..i] == times;
    }

    /** One finite row time. */
    method Take(time: real)
      requires Valid()
      modifies this
      ensures Valid() && seen == old(seen) + [Fin(time)]
    {
      ghost var late := maxLateness;
      if prefixMax.Some? {
        var max := prefixMax.value;
        maxLateness := if maxLateness.Fin? then Fin(Max(maxLateness.v, max - time)) else maxLateness;
        prefixMax := Some(Max(max, time));
      } else {
        prefixMax := Some(time);
      }
      EvidenceExtends(seen, Fin(time), late, maxLateness);
      seen := seen + [Fin(time)];
      assert seen[|seen| - 1] == Fin(time);
    }
  }

  /** One finite arrival: the evidence becomes the larger of itself and that row's own lateness. */
  lemma EvidenceExtends(before: seq<Float>, time: Float, late: Float, next: Float)
    requires time.Fin? && Evidence(before, late)
    requires late == PosInf ==> next == PosInf
    requires late.Fin? ==> next.Fin? && next.v >= late.v
    requires late.Fin? ==> forall i :: 0 <= i < |before| && before[i].Fin? ==> before[i].v - time.v <= next.v
    requires late.Fin? && next != late ==> exists i :: 0 <= i < |before| && before[i] == Fin(next.v + time.v)
    ensures Evidence(before + [time], next)
  {
    var seen, n := before + [time], |before|;
    assert forall i :: 0 <= i < n ==> seen[i] == before[i];
    if AllFinite(before) {
      assert AllFinite(seen);
      if next != late {
        var i :| 0 <= i < n && before[i] == Fin(next.v + time.v);
        assert LateBy(seen, i, n, next.v);
      } else if late.v != 0.0 {
        var i, j :| LateBy(before, i, j, late.v);
        assert LateBy(seen, i, j, next.v);
      }
    } else {
      var i :| 0 <= i < n && !before[i].Fin?;
      assert !seen[i].Fin?;
    }
  }

  /** The evidence gathered over a whole stream stays valid for whatever tail a ring retains. */
  lemma EvidenceCoversTail(seen: seq<Float>, lateness: Float, capacity: nat)
    requires Evidence(seen, lateness)
    ensures lateness.Fin? ==> Bounded(Tail(seen, capacity), lateness.v)
  {
    if lateness.Fin? && |seen| > capacity {
      var k := |seen| - capacity;
      forall i, j | 0 <= i < j < |seen[k..]|
        ensures seen[k..][i].v - seen[k..][j].v <= lateness.v
      {
        assert seen[k + i].v - seen[k + j].v <= lateness.v;
      }
    }
  }

  // ---- the window search ----

  predicate Below(time: Float, bound: real, inclusive: bool) {
    Lt(time, Fin(bound)) || (inclusive && time == Fin(bound))
  }

  /** Where the binary search lands, as a function of the probe outcomes alone. */
  function Search(times: seq<Float>, bound: real, inclusive: bool, lo: nat, hi: nat): (r: nat)
    requires lo <= hi <= |times|
    ensures lo <= r <= hi
    decreases hi - lo
  {
    if lo == hi then lo
    else
      var mid := lo + (hi - lo) / 2;
      if Below(times[mid], bound, inclusive) then Search(times, bound, inclusive, mid + 1, hi)
      else Search(times, bound, inclusive, lo, mid)
  }

  /** The row before the landing passes the probe, monotone rows or not. */
  lemma {:induction false} BeforeLanding(times: seq<Float>, bound: real, inclusive: bool, lo: nat, hi: nat)
    requires lo <= hi <= |times|
    ensures var r := Search(times, bound, inclusive, lo, hi); r == lo || Below(times[r - 1], bound, inclusive)
    decreases hi - lo
  {
    if lo < hi {
      var mid := lo + (hi - lo) / 2;
      if Below(times[mid], bound, inclusive) {
        BeforeLanding(times, bound, inclusive, mid + 1, hi);
      } else {
        BeforeLanding(times, bound, inclusive, lo, mid);
      }
    }
  }

  /** The landing row itself fails it. */
  lemma {:induction false} AtLanding(times: seq<Float>, bound: real, inclusive: bool, lo: nat, hi: nat)
    requires lo <= hi <= |times|
    ensures var r := Search(times, bound, inclusive, lo, hi); r == hi || !Below(times[r], bound, inclusive)
    decreases hi - lo
  {
    if lo < hi {
      var mid := lo + (hi - lo) / 2;
      if Below(times[mid], bound, inclusive) {
        AtLanding(times, bound, inclusive, mid + 1, hi);
      } else {
        AtLanding(times, bound, inclusive, lo, mid);
      }
    }
  }

  /** How many rows the search over `[lo, hi)` reads. */
  ghost function Probes(times: seq<Float>, bound: real, inclusive: bool, lo: nat, hi: nat): nat
    requires lo <= hi <= |times|
    decreases hi - lo
  {
    if lo == hi then 0
    else
      var mid := lo + (hi - lo) / 2;
      1 + if Below(times[mid], bound, inclusive) then Probes(times, bound, inclusive, mid + 1, hi)
          else Probes(times, bound, inclusive, lo, mid)
  }

  /** Logarithmic cost: `k` probes need a span of at least `2^(k-1)` rows. */
  lemma {:induction false} ProbesAreLogarithmic(times: seq<Float>, bound: real, inclusive: bool, lo: nat, hi: nat)
    requires lo <= hi <= |times|
    ensures Pow2(Probes(times, bound, inclusive, lo, hi)) <= 2 * (hi - lo) + 1
    decreases hi - lo
  {
    if lo < hi {
      var mid := lo + (hi - lo) / 2;
      if Below(times[mid], bound, inclusive) {
        ProbesAreLogarithmic(times, bound, inclusive, mid + 1, hi);
      } else {
        ProbesAreLogarithmic(times, bound, inclusive, lo, mid);
      }
    }
  }

  /** The binary search, counting the rows it reads: logarithmically many. */
  method Partition(times: seq<Float>, bound: real, inclusive: bool) returns (lo: nat, ghost probes: nat)
    ensures lo == Search(times, bound, inclusive, 0, |times|)
    ensures Pow2(probes) <= 2 * |times| + 1
  {
    var hi := |times|;
    lo, probes := 0, 0;
    ghost var all := Probes(times, bound, inclusive, 0, hi);
    while lo < hi
      invariant lo <= hi <= |times|
      invariant probes + Probes(times, bound, inclusive, lo, hi) == all
      invariant Search(times, bound, inclusive, lo, hi) == Search(times, bound, inclusive, 0, |times|)
      decreases hi - lo
    {
      var mid := lo + (hi - lo) / 2;
      probes := probes + 1;
      if Below(times[mid], bound, inclusive) {
        lo := mid + 1;
      } else {
        hi := mid;
      }
    }
    assert probes == all;
    ProbesAreLogarithmic(times, bound, inclusive, 0, |times|);
  }

  predicate Searchable(lateness: Float, from: Float, to: Float) {
    lateness.Fin? && lateness.v >= 0.0 && from.Fin? && to.Fin? && from.v <= to.v
  }

  function TimeRange(times: seq<Float>, lateness: Float, from: Float, to: Float): (r: (nat, nat))
    ensures r.0 <= |times| && r.1 <= |times|
  {
    if !Searchable(lateness, from, to) then (0, |times|)
    else
      (Search(times, from.v - lateness.v, false, 0, |times|), Search(times, to.v + lateness.v, true, 0, |times|))
  }

  /** Candidate rows for an inclusive window; invalid bounds or evidence select every row. */
  method TickTimeRange(times: seq<Float>, lateness: Float, from: Float, to: Float) returns (start: nat, end: nat)
    ensures (start, end) == TimeRange(times, lateness, from, to)
  {
    if !Searchable(lateness, from, to) {
      return 0, |times|;
    }
    ghost var probes: nat;
    start, probes := Partition(times, from.v - lateness.v, false);
    end, probes := Partition(times, to.v + lateness.v, true);
  }

  /** A search under a weaker probe never lands earlier, however irregular the row times are. */
  lemma {:induction false} SearchOrdered(times: seq<Float>, a: real, b: real, lo: nat, hi: nat)
    requires lo <= hi <= |times| && a <= b
    ensures Search(times, a, false, lo, hi) <= Search(times, b, true, lo, hi)
    decreases hi - lo
  {
    if lo < hi {
      var mid := lo + (hi - lo) / 2;
      if Below(times[mid], a, false) {
        SearchOrdered(times, a, b, mid + 1, hi);
      } else if !Below(times[mid], b, true) {
        SearchOrdered(times, a, b, lo, mid);
      }
    }
  }

  /** `start <= end` for every input, sorted or not, finite or not. */
  lemma RangeOrdered(times: seq<Float>, lateness: Float, from: Float, to: Float)
    ensures TimeRange(times, lateness, from, to).0 <= TimeRange(times, lateness, from, to).1
  {
    if Searchable(lateness, from, to) {
      SearchOrdered(times, from.v - lateness.v, to.v + lateness.v, 0, |times|);
    }
  }

  predicate InWindow(time: Float, from: Float, to: Float) {
    Le(from, time) && Le(time, to)
  }

  /** With valid evidence the search skips no row of the window. */
  lemma RangeMissesNothing(times: seq<Float>, lateness: Float, from: Float, to: Float, k: nat)
    requires lateness.Fin? ==> Bounded(times, lateness.v)
    requires k < |times| && InWindow(times[k], from, to)
    ensures TimeRange(times, lateness, from, to).0 <= k < TimeRange(times, lateness, from, to).1
  {
    if Searchable(lateness, from, to) {
      NothingBeforeStart(times, lateness.v, from.v, k);
      NothingAfterEnd(times, lateness.v, to.v, k);
    }
  }

  lemma NothingBeforeStart(times: seq<Float>, late: real, from: real, k: nat)
    requires Bounded(times, late) && late >= 0.0 && k < |times| && times[k].v >= from
    ensures Search(times, from - late, false, 0, |times|) <= k
  {
    BeforeLanding(times, from - late, false, 0, |times|);
  }

  lemma NothingAfterEnd(times: seq<Float>, late: real, to: real, k: nat)
    requires Bounded(times, late) && late >= 0.0 && k < |times| && times[k].v <= to
    ensures k < Search(times, to + late, true, 0, |times|)
  {
    AtLanding(times, to + late, true, 0, |times|);
  }

  /** Nor does it wander: every candidate lies within twice the lateness of the window. */
  lemma RangeStaysClose(times: seq<Float>, lateness: Float, from: Float, to: Float, k: nat)
    requires lateness.Fin? && from.Fin? && to.Fin? && 0.0 <= lateness.v && from.v <= to.v
    requires Bounded(times, lateness.v)
    requires TimeRange(times, lateness, from, to).0 <= k < TimeRange(times, lateness, from, to).1
    ensures from.v - 2.0 * lateness.v <= times[k].v <= to.v + 2.0 * lateness.v
  {
    StartIsClose(times, lateness.v, from.v, k);
    EndIsClose(times, lateness.v, to.v, k);
  }

  lemma StartIsClose(times: seq<Float>, late: real, from: real, k: nat)
    requires Bounded(times, late) && late >= 0.0
    requires Search(times, from - late, false, 0, |times|) <= k < |times|
    ensures from - 2.0 * late <= times[k].v
  {
    var start := Search(times, from - late, false, 0, |times|);
    AtLanding(times, from - late, false, 0, |times|);
    assert k == start || times[start].v - times[k].v <= late;
  }

  lemma EndIsClose(times: seq<Float>, late: real, to: real, k: nat)
    requires Bounded(times, late) && late >= 0.0
    requires k < Search(times, to + late, true, 0, |times|)
    ensures times[k].v <= to + 2.0 * late
  {
    var end := Search(times, to + late, true, 0, |times|);
    BeforeLanding(times, to + late, true, 0, |times|);
    assert k == end - 1 || times[k].v - times[end - 1].v <= late;
  }
}

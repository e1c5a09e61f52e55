/**
 The live-edge clock offset: the median of the latest trade-time samples in a circular buffer
 (crates/moon-chart/src/live_clock.rs).
 */
module LiveClock {
  import opened Floats
  import opened Seqs
  import opened Sorting

  const WINDOW: nat := 9
  const MAX_CLOCK_OFFSET_MS: real := 600_000.0

  const ASCENDING := (a: real, b: real) => a <= b

  /** The middle of the sorted values, or the mean of the middle two. */
  function Median(values: seq<real>): real
    requires values != []
  {
    Middle(Sort(values, ASCENDING))
  }

  function Middle(sorted: seq<real>): real
    requires sorted != []
  {
    var mid := |sorted| / 2;
    if |sorted| % 2 == 0 then (sorted[mid - 1] + sorted[mid]) / 2.0 else sorted[mid]
  }

  // ---- which trades give a sample ----

  /** The newest trade time and every sample accepted so far. */
  datatype Feed = Feed(newest: Option<real>, accepted: seq<real>)

  predicate Fresh(f: Feed, trade: real) { f.newest.Some? && trade > f.newest.value }

  predicate Near(sample: real) { Abs(sample) <= MAX_CLOCK_OFFSET_MS }

  /** The first trade only sets a baseline; later ones must advance and stay near the local clock. */
  function Fed(f: Feed, trade: Option<Float>, now: Float): Feed {
    if trade.None? || !trade.value.Fin? || !now.Fin? then f
    else
      var t := trade.value.v;
      Feed(if f.newest.None? || t > f.newest.value then Some(t) else f.newest,
           f.accepted + if Fresh(f, t) && Near(t - now.v) then [t - now.v] else [])
  }

  /** The estimate: the median of the last nine samples, zero before the first. */
  function Estimate(accepted: seq<real>): real {
    if accepted == [] then 0.0 else Median(Tail(accepted, WINDOW))
  }

  function NextSlot(slot: nat): nat { (slot + 1) % WINDOW }

  /** Where the sample after these goes, and how many slots these fill. */
  function SlotFor(accepted: seq<real>): (slot: nat)
    ensures slot < WINDOW
  {
    |accepted| % WINDOW
  }

  function Used(accepted: seq<real>): (n: nat)
    ensures n <= WINDOW && n <= |accepted|
  {
    if |accepted| < WINDOW then |accepted| else WINDOW
  }

  class LiveClockOffset {
    var newestMs: Option<real>
    const samples: array<real>
    var len: nat
    var next: nat
    var offsetMs: real
    ghost var accepted: seq<real>

    ghost function Now(): Feed
      reads this
    {
      Feed(newestMs, accepted)
    }

    /** The circular buffer holds the last nine accepted samples, each at its own slot. */
    ghost predicate Valid()
      reads this, samples
    {
      && samples.Length == WINDOW
      && len == Used(accepted)
      && next == SlotFor(accepted)
      && Holds(samples[..], accepted, len)
      && offsetMs == Estimate(accepted)
    }

    constructor ()
      ensures Valid() && Now() == Feed(None, []) && fresh(samples)
    {
      newestMs, len, next, offsetMs, accepted := None, 0, 0, 0.0, [];
      samples := new real[WINDOW](_ => 0.0);
    }

    /** Overwrites the oldest slot with an accepted sample. */
    method Store(sample: real)
      requires Valid()
      modifies this`len, this`next, this`offsetMs, this`accepted, samples
      ensures Valid() && accepted == old(accepted) + [sample] && offsetMs == Estimate(accepted)
    {
      ghost var was, before := accepted, samples[..];
      ghost var after, now := before[next := sample], was + [sample];
      AfterStore(was, sample, before);
      samples[next] := sample;
      assert samples[..] == after;
      next, len := NextSlot(next), if len + 1 < WINDOW then len + 1 else WINDOW;
      accepted := now;
      assert next == SlotFor(now) && len == Used(now);
      assert samples[..len] == after[..Used(now)];
      offsetMs := Median(samples[..len]);
    }

    method Observe(trade: Option<Float>, now: Float) returns (offset: real)
      requires Valid()
      modifies this, samples
      ensures Valid() && Now() == Fed(old(Now()), trade, now)
      ensures offset == offsetMs == Estimate(accepted)
    {
      if trade.None? || !trade.value.Fin? || !now.Fin? {
        return offsetMs;
      }
      var t := trade.value.v;
      var advanced := newestMs.Some? && t > newestMs.value;
      if newestMs.None? || t > newestMs.value {
        newestMs := Some(t);
      }
      if !advanced {
        return offsetMs;
      }
      var sample := t - now.v;
      if Abs(sample) > MAX_CLOCK_OFFSET_MS {
        return offsetMs;
      }
      Store(sample);
      return offsetMs;
    }
  }

  // ---- the circular buffer ----

  lemma SlotsTurn(n: nat, slot: nat)
    requires slot == n % WINDOW
    ensures (slot + 1) % WINDOW == (n + 1) % WINDOW
  {
  }

  predicate Holds(slots: seq<real>, accepted: seq<real>, len: nat)
    requires |slots| == WINDOW && len <= |accepted|
  {
    forall k :: |accepted| - len <= k < |accepted| ==> slots[k % WINDOW] == accepted[k]
  }

  lemma SlotsKept(was: seq<real>, sample: real, len: nat, before: seq<real>, after: seq<real>)
    requires |before| == WINDOW && after == before[|was| % WINDOW := sample]
    requires Holds(before, was, if |was| < WINDOW then |was| else WINDOW)
    requires len == if |was| + 1 < WINDOW then |was| + 1 else WINDOW
    ensures Holds(after, was + [sample], len)
  {
    forall k | |was| + 1 - len <= k < |was| ensures after[k % WINDOW] == was[k] {
    }
  }

  /** What overwriting the oldest slot does to the buffer, the next slot and the median. */
  lemma AfterStore(was: seq<real>, sample: real, before: seq<real>)
    requires |before| == WINDOW && Holds(before, was, Used(was))
    ensures var (after, accepted) := (before[SlotFor(was) := sample], was + [sample]);
            && SlotFor(accepted) == NextSlot(SlotFor(was))
            && Used(accepted) == (if Used(was) + 1 < WINDOW then Used(was) + 1 else WINDOW)
            && Holds(after, accepted, Used(accepted))
            && after[..Used(accepted)] != [] && Median(after[..Used(accepted)]) == Estimate(accepted)
  {
    var after, accepted := before[SlotFor(was) := sample], was + [sample];
    SlotsTurn(|was|, SlotFor(was));
    SlotsKept(was, sample, Used(accepted), before, after);
    SameValues(after[..Used(accepted)], accepted, Used(accepted), after);
  }

  // ---- a permutation has the same median ----

  lemma PermutedMedian(a: seq<real>, b: seq<real>)
    requires a != [] && multiset(a) == multiset(b)
    ensures b != [] && Median(a) == Median(b)
  {
    assert |a| == |multiset(a)| == |multiset(b)| == |b|;
    SortSorted(a, ASCENDING);
    SortSorted(b, ASCENDING);
    SortedUnique(Sort(a, ASCENDING), Sort(b, ASCENDING), ASCENDING);
  }

  /** A full buffer is the window rotated to its slots. */
  lemma FullIsRotated(slots: seq<real>, accepted: seq<real>)
    requires |slots| == WINDOW <= |accepted| && Holds(slots, accepted, WINDOW)
    ensures var (tail, cut) := (Tail(accepted, WINDOW), WINDOW - |accepted| % WINDOW);
            slots == tail[cut..] + tail[..cut]
  {
    var n := |accepted|;
    var r, tail := n % WINDOW, Tail(accepted, WINDOW);
    forall i | 0 <= i < WINDOW ensures slots[i] == (tail[WINDOW - r..] + tail[..WINDOW - r])[i] {
      var k := if i < r then n - r + i else n - r - WINDOW + i;
      SlotOf(n, r, i, k);
      assert slots[k % WINDOW] == accepted[k];
    }
  }

  lemma SlotOf(n: nat, r: nat, i: nat, k: nat)
    requires r == n % WINDOW && i < WINDOW
    requires k == n - r + i || k == n - r - WINDOW + i
    ensures k % WINDOW == i
  {
  }

  /** Until it is full the buffer is simply every accepted sample. */
  lemma PartialIsWindow(slots: seq<real>, accepted: seq<real>)
    requires |accepted| <= |slots| == WINDOW && Holds(slots, accepted, |accepted|)
    ensures slots[..|accepted|] == accepted
  {
    forall k | 0 <= k < |accepted| ensures slots[k] == accepted[k] {
      assert k % WINDOW == k;
    }
  }

  lemma RotatedMedian(slots: seq<real>, tail: seq<real>, cut: nat)
    requires cut <= |tail| && slots != [] && slots == tail[cut..] + tail[..cut]
    ensures tail != [] && Median(slots) == Median(tail)
  {
    assert tail == tail[..cut] + tail[cut..];
    PermutedMedian(slots, tail);
  }

  /** The buffer's values are the window's, in some order. */
  lemma SameValues(used: seq<real>, accepted: seq<real>, len: nat, slots: seq<real>)
    requires |slots| == WINDOW && 0 < len <= WINDOW && used == slots[..len]
    requires len == if |accepted| < WINDOW then |accepted| else WINDOW
    requires Holds(slots, accepted, len)
    ensures used != [] && Median(used) == Estimate(accepted)
  {
    if |accepted| < WINDOW {
      PartialIsWindow(slots, accepted);
      assert Tail(accepted, WINDOW) == accepted;
    } else {
      FullIsRotated(slots, accepted);
      assert used == slots;
      RotatedMedian(slots, Tail(accepted, WINDOW), WINDOW - |accepted| % WINDOW);
    }
  }

  // ---- what the median withstands ----

  /** How many values lie in a range. */
  function Inside(s: seq<real>, lo: real, hi: real): (n: nat)
    ensures n <= |s|
  {
    if s == [] then 0 else Inside(s[..|s| - 1], lo, hi) + if lo <= s[|s| - 1] <= hi then 1 else 0
  }

  lemma {:induction false} InsideConcat(a: seq<real>, b: seq<real>, lo: real, hi: real)
    ensures Inside(a + b, lo, hi) == Inside(a, lo, hi) + Inside(b, lo, hi)
  {
    if b == [] {
      assert a + b == a;
    } else {
      assert (a + b)[..|a + b| - 1] == a + b[..|b| - 1];
      InsideConcat(a, b[..|b| - 1], lo, hi);
    }
  }

  lemma {:induction false} InsideNone(s: seq<real>, lo: real, hi: real)
    requires forall i :: 0 <= i < |s| ==> !(lo <= s[i] <= hi)
    ensures Inside(s, lo, hi) == 0
  {
    if s != [] { InsideNone(s[..|s| - 1], lo, hi); }
  }

  lemma {:induction false} InsideAll(s: seq<real>, lo: real, hi: real)
    requires forall i :: 0 <= i < |s| ==> lo <= s[i] <= hi
    ensures Inside(s, lo, hi) == |s|
  {
    if s != [] { InsideAll(s[..|s| - 1], lo, hi); }
  }

  lemma {:induction false} InsideInsert(s: seq<real>, x: real, lo: real, hi: real)
    ensures Inside(Insert(s, x, ASCENDING), lo, hi) == Inside(s, lo, hi) + if lo <= x <= hi then 1 else 0
  {
    if s == [] || ASCENDING(s[|s| - 1], x) {
      InsideConcat(s, [x], lo, hi);
    } else {
      InsideInsert(s[..|s| - 1], x, lo, hi);
      InsideConcat(Insert(s[..|s| - 1], x, ASCENDING), [s[|s| - 1]], lo, hi);
    }
  }

  lemma {:induction false} InsideSort(s: seq<real>, lo: real, hi: real)
    ensures Inside(Sort(s, ASCENDING), lo, hi) == Inside(s, lo, hi)
  {
    if s != [] {
      InsideSort(s[..|s| - 1], lo, hi);
      InsideInsert(Sort(s[..|s| - 1], ASCENDING), s[|s| - 1], lo, hi);
    }
  }

  /** In sorted values, one below the range puts all before it below; likewise above. */
  lemma SortedOutside(s: seq<real>, m: nat, lo: real, hi: real)
    requires Pairwise(s, ASCENDING) && m < |s|
    ensures s[m] < lo ==> Inside(s, lo, hi) <= |s| - m - 1
    ensures s[m] > hi ==> Inside(s, lo, hi) <= m
  {
    assert forall i :: 0 <= i < m ==> ASCENDING(s[i], s[m]);
    assert forall i :: m < i < |s| ==> ASCENDING(s[m], s[i]);
    assert s == s[..m + 1] + s[m + 1..] && s == s[..m] + s[m..];
    if s[m] < lo {
      InsideNone(s[..m + 1], lo, hi);
      InsideConcat(s[..m + 1], s[m + 1..], lo, hi);
    }
    if s[m] > hi {
      InsideNone(s[m..], lo, hi);
      InsideConcat(s[..m], s[m..], lo, hi);
    }
  }

  /** While more than half of the values lie in a range, so does the median, wherever the others are. */
  lemma MedianWithstands(s: seq<real>, lo: real, hi: real)
    requires s != [] && 2 * Inside(s, lo, hi) > |s|
    ensures lo <= Median(s) <= hi
  {
    SortSorted(s, ASCENDING);
    InsideSort(s, lo, hi);
    MiddleWithstands(Sort(s, ASCENDING), lo, hi);
  }

  lemma MiddleWithstands(sorted: seq<real>, lo: real, hi: real)
    requires sorted != [] && Pairwise(sorted, ASCENDING) && 2 * Inside(sorted, lo, hi) > |sorted|
    ensures lo <= Middle(sorted) <= hi
  {
    var mid: nat := |sorted| / 2;
    MiddleInside(sorted, mid, lo, hi);
    if |sorted| % 2 == 0 { MiddleInside(sorted, mid - 1, lo, hi); }
  }

  lemma MiddleInside(sorted: seq<real>, m: nat, lo: real, hi: real)
    requires Pairwise(sorted, ASCENDING) && m < |sorted| && 2 * Inside(sorted, lo, hi) > |sorted|
    requires 2 * m <= |sorted| <= 2 * (m + 1)
    ensures lo <= sorted[m] <= hi
  {
    SortedOutside(sorted, m, lo, hi);
  }

  /** `k` values at one end of a range and the rest far past the other end, in order. */
  function Lopsided(n: nat, k: nat, lo: real, far: real): seq<real> {
    seq(n, i => if i < k then lo else far)
  }

  lemma {:induction false} LopsidedInside(n: nat, k: nat, lo: real, hi: real, far: real)
    requires k <= n && lo <= hi < far
    ensures Inside(Lopsided(n, k, lo, far), lo, hi) == k
  {
    if n > 0 {
      var s := Lopsided(n, k, lo, far);
      if k == n {
        InsideAll(s, lo, hi);
      } else {
        assert s[..n - 1] == Lopsided(n - 1, k, lo, far);
        LopsidedInside(n - 1, k, lo, hi, far);
      }
    }
  }

  lemma LopsidedMedian(n: nat, k: nat, lo: real, far: real)
    requires 0 < n && 2 * k <= n && lo <= far
    ensures Median(Lopsided(n, k, lo, far)) >= (lo + far) / 2.0
  {
    var s := Lopsided(n, k, lo, far);
    SortSorted(s, ASCENDING);
    SortedUnique(Sort(s, ASCENDING), s, ASCENDING);
  }

  /** The majority cannot be weakened: with only half the values in a range, or fewer, the median can leave it. */
  lemma MajorityIsTight(n: nat, k: nat, lo: real, hi: real)
    requires 0 < n && 2 * k <= n && lo <= hi
    ensures exists s: seq<real> :: |s| == n && Inside(s, lo, hi) == k && Median(s) > hi
  {
    var far := 2.0 * hi - lo + 1.0;
    LopsidedInside(n, k, lo, hi, far);
    LopsidedMedian(n, k, lo, far);
    var s := Lopsided(n, k, lo, far);
    assert |s| == n && Inside(s, lo, hi) == k && Median(s) > hi;
  }

  // ---- over a whole feed ----

  datatype Arrival = Arrival(trade: Option<Float>, now: Float)

  function FeedAll(arrivals: seq<Arrival>): Feed {
    if arrivals == [] then Feed(None, [])
    else
      var last := arrivals[|arrivals| - 1];
      Fed(FeedAll(arrivals[..|arrivals| - 1]), last.trade, last.now)
  }

  lemma {:induction false} AcceptedAreNear(arrivals: seq<Arrival>)
    ensures forall i :: 0 <= i < |FeedAll(arrivals).accepted| ==> Near(FeedAll(arrivals).accepted[i])
  {
    if arrivals != [] { AcceptedAreNear(arrivals[..|arrivals| - 1]); }
  }

  /** However trades arrive, the offset never exceeds ten minutes either way. */
  lemma OffsetBounded(arrivals: seq<Arrival>)
    ensures Abs(Estimate(FeedAll(arrivals).accepted)) <= 600_000.0
  {
    var accepted := FeedAll(arrivals).accepted;
    AcceptedAreNear(arrivals);
    if accepted != [] {
      var tail := Tail(accepted, WINDOW);
      InsideAll(tail, -MAX_CLOCK_OFFSET_MS, MAX_CLOCK_OFFSET_MS);
      MedianWithstands(tail, -MAX_CLOCK_OFFSET_MS, MAX_CLOCK_OFFSET_MS);
    }
  }

  /** A minority of wild samples in the window cannot push the live edge outside the others' range. */
  lemma OffsetWithstands(accepted: seq<real>, lo: real, hi: real)
    requires accepted != [] && 2 * Inside(Tail(accepted, 9), lo, hi) > |Tail(accepted, 9)|
    ensures lo <= Estimate(accepted) <= hi
  {
    MedianWithstands(Tail(accepted, WINDOW), lo, hi);
  }

  /** The median is the middle of the values in order, or half way between the middle two. */
  lemma MedianIsMiddle(values: seq<real>, t: seq<real>)
    requires values != [] && multiset(t) == multiset(values)
    requires forall i, j :: 0 <= i < j < |t| ==> t[i] <= t[j]
    ensures |t| == |values|
    ensures |t| % 2 == 1 ==> Median(values) == t[|t| / 2]
    ensures |t| % 2 == 0 ==> Median(values) == (t[|t| / 2 - 1] + t[|t| / 2]) / 2.0
  {
    assert |t| == |multiset(t)| == |values|;
    SortSorted(values, ASCENDING);
    SortedUnique(Sort(values, ASCENDING), t, ASCENDING);
  }

  /** The estimate is the median of the latest nine accepted samples, of all while there are fewer. */
  lemma EstimateIsMiddle(accepted: seq<real>, t: seq<real>)
    requires accepted != [] && multiset(t) == multiset(Tail(accepted, 9))
    requires forall i, j :: 0 <= i < j < |t| ==> t[i] <= t[j]
    ensures |t| == |Tail(accepted, 9)|
    ensures |t| % 2 == 1 ==> Estimate(accepted) == t[|t| / 2]
    ensures |t| % 2 == 0 ==> Estimate(accepted) == (t[|t| / 2 - 1] + t[|t| / 2]) / 2.0
  {
    MedianIsMiddle(Tail(accepted, 9), t);
  }

  /** A trade gives a sample when a trade came before it, it is newer than every one of them, and near the clock. */
  lemma SampleIff(arrivals: seq<Arrival>, trade: real, now: real)
    ensures var (f, next) := (FeedAll(arrivals), FeedAll(arrivals + [Arrival(Some(Fin(trade)), Fin(now))]));
            && next.accepted == f.accepted + (if f.newest.Some? && trade > f.newest.value
                                                 && Abs(trade - now) <= 600_000.0 then [trade - now] else [])
            && next.newest == if f.newest.Some? && trade <= f.newest.value then f.newest else Some(trade)
  {
    var all := arrivals + [Arrival(Some(Fin(trade)), Fin(now))];
    assert all[..|all| - 1] == arrivals;
  }
}

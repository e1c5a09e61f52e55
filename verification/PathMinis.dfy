/**
 The retained mini-candles of the open candle: batches placed as trade crosses leave the ring, against
 the whole list placed at once (crates/moon-chart/src/open_candle_path.rs).
 */
module PathMinis {
  import opened Floats
  import opened Seqs
  import opened CandlePath

  const PATH_MINI_MS: real := 5_000.0
  const MIN_BAR_MS: real := 1.0

  datatype Mini = Mini(tOpen: real, low: real, high: real)

  /** Up to the next mini's open, at most five seconds; the last of the slice keeps all five. */
  function MiniWidth(minis: seq<Mini>, i: nat): real
    requires i < |minis|
  {
    if i + 1 < |minis| then Min(minis[i + 1].tOpen - minis[i].tOpen, PATH_MINI_MS) else PATH_MINI_MS
  }

  function MiniMid(m: Mini): real { (m.low + m.high) * 0.5 }

  predicate MiniPlaced(minis: seq<Mini>, i: nat, start: real, dotsLeft: Float)
    requires i < |minis|
  {
    && minis[i].tOpen >= start
    && !Lt(dotsLeft, Fin(minis[i].tOpen + MiniWidth(minis, i)))
    && MiniWidth(minis, i) >= MIN_BAR_MS
  }

  function MiniBar(minis: seq<Mini>, i: nat, epoch: real, prev: Option<real>): PathBar
    requires i < |minis|
  {
    PathBar(minis[i].tOpen - epoch, MiniWidth(minis, i), minis[i].low, minis[i].high, Rises(prev, MiniMid(minis[i])))
  }

  /** The first `n` minis of a slice placed, and the middle of the last one placed. */
  function Placed(minis: seq<Mini>, n: nat, start: real, dotsLeft: Float, epoch: real, prev: Option<real>)
    : (seq<PathBar>, Option<real>)
    requires n <= |minis|
  {
    if n == 0 then ([], prev)
    else
      var (bars, mid) := Placed(minis, n - 1, start, dotsLeft, epoch, prev);
      if MiniPlaced(minis, n - 1, start, dotsLeft)
      then (bars + [MiniBar(minis, n - 1, epoch, mid)], Some(MiniMid(minis[n - 1])))
      else (bars, mid)
  }

  method PlacePath(minis: seq<Mini>, start: Float, dotsLeft: Float, epoch: real, prev: Option<real>,
                   out: seq<PathBar>) returns (placed: seq<PathBar>, mid: Option<real>)
    ensures !start.Fin? || dotsLeft.NaN? ==> placed == out && mid == prev
    ensures start.Fin? && !dotsLeft.NaN? ==>
              (placed, mid) == (out + Placed(minis, |minis|, start.v, dotsLeft, epoch, prev).0,
                                Placed(minis, |minis|, start.v, dotsLeft, epoch, prev).1)
  {
    placed, mid := out, prev;
    if !start.Fin? || dotsLeft.NaN? {
      return;
    }
    for i := 0 to |minis|
      invariant placed == out + Placed(minis, i, start.v, dotsLeft, epoch, prev).0
      invariant mid == Placed(minis, i, start.v, dotsLeft, epoch, prev).1
    {
      var width := MiniWidth(minis, i);
      if minis[i].tOpen < start.v || Lt(dotsLeft, Fin(minis[i].tOpen + width)) || width < MIN_BAR_MS {
        continue;
      }
      placed := placed + [MiniBar(minis, i, epoch, mid)];
      mid := Some(MiniMid(minis[i]));
    }
  }

  function FitBefore(tOpenRel: real, duration: real, nextOpenRel: Float): real {
    if !nextOpenRel.Fin? then duration else Max(Min(nextOpenRel.v - tOpenRel, duration), MIN_BAR_MS)
  }

  /** What an append does to the bars already placed: the last one makes room for the next open. */
  function TrimLast(bars: seq<PathBar>, nextOpenRel: real): seq<PathBar> {
    if bars == [] then []
    else
      var last := bars[|bars| - 1];
      bars[..|bars| - 1] + [last.(duration := FitBefore(last.tOpenRel, last.duration, Fin(nextOpenRel)))]
  }

  predicate OpensAscend(minis: seq<Mini>) {
    forall i, j :: 0 <= i < j < |minis| ==> minis[i].tOpen <= minis[j].tOpen
  }

  // ---- which minis are ready ----

  predicate MiniSettled(minis: seq<Mini>, i: nat, dotsLeft: Float)
    requires i < |minis|
  {
    Le(Fin(minis[i].tOpen + MiniWidth(minis, i)), dotsLeft)
  }

  function ReadyFrom(minis: seq<Mini>, i: nat, dotsLeft: Float): (n: nat)
    requires i <= |minis|
    ensures n <= |minis| - i
    decreases |minis| - i
  {
    if i < |minis| && MiniSettled(minis, i, dotsLeft) then 1 + ReadyFrom(minis, i + 1, dotsLeft) else 0
  }

  function ReadyMinis(minis: seq<Mini>, dotsLeft: Float): nat { ReadyFrom(minis, 0, dotsLeft) }

  lemma {:induction false} ReadyFromExact(minis: seq<Mini>, i: nat, dotsLeft: Float, k: nat)
    requires OpensAscend(minis) && i <= k < |minis|
    ensures MiniSettled(minis, k, dotsLeft) <==> k < i + ReadyFrom(minis, i, dotsLeft)
    decreases |minis| - i
  {
    if MiniSettled(minis, i, dotsLeft) {
      if i < k { ReadyFromExact(minis, i + 1, dotsLeft, k); }
    } else if i < k {
      assert minis[i].tOpen + MiniWidth(minis, i) <= minis[i + 1].tOpen <= minis[k].tOpen;
    }
  }

  /** On ascending opens the leading run that is ready is every mini the crosses no longer cover. */
  lemma ReadyMinisExact(minis: seq<Mini>, dotsLeft: Float, k: nat)
    requires OpensAscend(minis) && k < |minis|
    ensures MiniSettled(minis, k, dotsLeft) <==> k < ReadyMinis(minis, dotsLeft)
  {
    ReadyFromExact(minis, 0, dotsLeft, k);
  }

  // ---- one batch ----

  /** The first `n` minis placed with no trade crosses to wait for. */
  function Free(minis: seq<Mini>, n: nat, start: real, epoch: real, prev: Option<real>): (seq<PathBar>, Option<real>)
    requires n <= |minis|
  {
    Placed(minis, n, start, PosInf, epoch, prev)
  }

  /** The ready minis and the next one, which fixes the last ready one's width. */
  function Slice(minis: seq<Mini>, dotsLeft: Float): seq<Mini> {
    var n := ReadyMinis(minis, dotsLeft);
    minis[..if n < |minis| then n + 1 else n]
  }

  /** What a batch draws: the slice placed against the oldest cross. */
  function Batch(minis: seq<Mini>, start: real, dotsLeft: Float, epoch: real, prev: Option<real>)
    : (seq<PathBar>, Option<real>)
  {
    var slice := Slice(minis, dotsLeft);
    Placed(slice, |slice|, start, dotsLeft, epoch, prev)
  }

  lemma {:induction false} ReadyFromSettled(minis: seq<Mini>, i: nat, dotsLeft: Float, k: nat)
    requires i <= |minis|
    ensures i <= k < i + ReadyFrom(minis, i, dotsLeft) ==> MiniSettled(minis, k, dotsLeft)
    ensures var n := i + ReadyFrom(minis, i, dotsLeft); n < |minis| ==> !MiniSettled(minis, n, dotsLeft)
    decreases |minis| - i
  {
    if i < |minis| && MiniSettled(minis, i, dotsLeft) { ReadyFromSettled(minis, i + 1, dotsLeft, k); }
  }

  lemma SliceWidth(minis: seq<Mini>, dotsLeft: Float, k: nat)
    requires k < ReadyMinis(minis, dotsLeft)
    ensures k < |Slice(minis, dotsLeft)| && Slice(minis, dotsLeft)[k] == minis[k]
    ensures MiniWidth(Slice(minis, dotsLeft), k) == MiniWidth(minis, k)
  {
  }

  /** Within the ready run a batch places what it would without any crosses. */
  lemma {:induction false} ReadyPlacedFree(minis: seq<Mini>, n: nat, start: real, dotsLeft: Float, epoch: real,
                                           prev: Option<real>)
    requires n <= ReadyMinis(minis, dotsLeft)
    ensures Placed(Slice(minis, dotsLeft), n, start, dotsLeft, epoch, prev) == Free(minis, n, start, epoch, prev)
  {
    if n > 0 {
      ReadyPlacedFree(minis, n - 1, start, dotsLeft, epoch, prev);
      SliceWidth(minis, dotsLeft, n - 1);
      ReadyFromSettled(minis, 0, dotsLeft, n - 1);
    }
  }

  /** A batch draws exactly its ready minis: the extra one only lends its open and is never drawn itself. */
  lemma BatchIsReady(minis: seq<Mini>, start: real, dotsLeft: Float, epoch: real, prev: Option<real>)
    requires !dotsLeft.NaN?
    ensures Batch(minis, start, dotsLeft, epoch, prev)
         == Free(minis, ReadyMinis(minis, dotsLeft), start, epoch, prev)
  {
    var n, slice := ReadyMinis(minis, dotsLeft), Slice(minis, dotsLeft);
    ReadyPlacedFree(minis, n, start, dotsLeft, epoch, prev);
    if n < |minis| {
      ReadyFromSettled(minis, 0, dotsLeft, n);
      assert MiniWidth(slice, n) >= MiniWidth(minis, n);
      Unsettled(minis[n].tOpen + MiniWidth(minis, n), slice[n].tOpen + MiniWidth(slice, n), dotsLeft);
    }
  }

  lemma Unsettled(a: real, b: real, dotsLeft: Float)
    requires a <= b && !dotsLeft.NaN? && !Le(Fin(a), dotsLeft)
    ensures Lt(dotsLeft, Fin(b))
  {
  }

  // ---- a longer list ----

  /** Until its last mini a list is placed as it would be inside a longer one. */
  lemma {:induction false} PlacedInLonger(a: seq<Mini>, b: seq<Mini>, n: nat, start: real, epoch: real,
                                          prev: Option<real>)
    requires n < |a| || (n == |a| && b == [])
    ensures Free(a + b, n, start, epoch, prev) == Free(a, n, start, epoch, prev)
  {
    if b == [] {
      assert a + b == a;
    } else if n > 0 {
      PlacedInLonger(a, b, n - 1, start, epoch, prev);
    }
  }

  lemma MiniInTail(a: seq<Mini>, b: seq<Mini>, i: nat)
    requires i < |b|
    ensures (a + b)[|a| + i] == b[i] && MiniWidth(a + b, |a| + i) == MiniWidth(b, i)
  {
  }

  /** Placing the rest of a list is placing it on its own after what came before. */
  lemma {:induction false} PlacedAfter(a: seq<Mini>, b: seq<Mini>, n: nat, start: real, epoch: real, prev: Option<real>)
    requires n <= |b|
    ensures var (head, mid) := Free(a + b, |a|, start, epoch, prev);
            var (tail, end) := Free(b, n, start, epoch, mid);
            Free(a + b, |a| + n, start, epoch, prev) == (head + tail, end)
  {
    var (head, mid) := Free(a + b, |a|, start, epoch, prev);
    if n > 0 {
      PlacedAfter(a, b, n - 1, start, epoch, prev);
      MiniInTail(a, b, n - 1);
      var (tail, end) := Free(b, n - 1, start, epoch, mid);
      assert |a| + n - 1 == |a| + (n - 1);
      OneMore(head, tail, MiniBar(b, n - 1, epoch, end));
    } else {
      assert head + [] == head;
    }
  }

  lemma OneMore<T>(a: seq<T>, b: seq<T>, x: T)
    ensures (a + b) + [x] == a + (b + [x])
  {
  }

  lemma {:induction false} NothingBeforeStart(minis: seq<Mini>, n: nat, start: real, epoch: real, prev: Option<real>)
    requires n <= |minis| && forall i :: 0 <= i < n ==> minis[i].tOpen < start
    ensures Free(minis, n, start, epoch, prev) == ([], prev)
  {
    if n > 0 { NothingBeforeStart(minis, n - 1, start, epoch, prev); }
  }

  lemma {:induction false} PlacedCount(b: seq<Mini>, n: nat, start: real, epoch: real, p: Option<real>, q: Option<real>)
    requires n <= |b|
    ensures |Free(b, n, start, epoch, p).0| == |Free(b, n, start, epoch, q).0|
  {
    if n > 0 { PlacedCount(b, n - 1, start, epoch, p, q); }
  }

  // ---- the seam ----

  /** A bar drawn before the list's next mini already ends by its open. */
  lemma {:induction false} LastBarEnds(minis: seq<Mini>, n: nat, start: real, epoch: real, prev: Option<real>)
    requires n < |minis| && OpensAscend(minis)
    ensures var bars := Free(minis, n, start, epoch, prev).0;
            bars != [] ==>
              var last := bars[|bars| - 1];
              last.tOpenRel + last.duration <= minis[n].tOpen - epoch && last.duration >= MIN_BAR_MS
  {
    if n > 0 {
      LastBarEnds(minis, n - 1, start, epoch, prev);
      assert minis[n - 1].tOpen <= minis[n].tOpen;
    }
  }

  lemma TrimIdle(bars: seq<PathBar>, nextOpenRel: real)
    requires bars != [] ==>
               var last := bars[|bars| - 1]; last.tOpenRel + last.duration <= nextOpenRel && last.duration >= MIN_BAR_MS
    ensures TrimLast(bars, nextOpenRel) == bars
  {
    if bars != [] { assert bars == bars[..|bars| - 1] + [bars[|bars| - 1]]; }
  }

  lemma LastPlaced(minis: seq<Mini>, start: real, epoch: real, prev: Option<real>)
    requires minis != [] && minis[|minis| - 1].tOpen >= start
    ensures var n := |minis| - 1; var (bars, mid) := Free(minis, n, start, epoch, prev);
            Free(minis, n + 1, start, epoch, prev) == (bars + [MiniBar(minis, n, epoch, mid)], Some(MiniMid(minis[n])))
  {
  }

  /** A list's last mini is five seconds wide on its own, and trimmed by a successor, or lost to it. */
  lemma TrimmedHead(a: seq<Mini>, b: seq<Mini>, start: real, epoch: real, prev: Option<real>)
    requires a != [] && b != [] && OpensAscend(a)
    ensures var n := |a| - 1; var gap := b[0].tOpen - a[n].tOpen;
            var (head, mid) := Free(a + b, |a|, start, epoch, prev);
            var (first, firstMid) := Free(a, |a|, start, epoch, prev);
            if a[n].tOpen < start || gap >= MIN_BAR_MS
            then head == TrimLast(first, b[0].tOpen - epoch) && mid == firstMid
            else |head| + 1 == |first|
  {
    var n := |a| - 1;
    if a[n].tOpen < start {
      NothingBeforeStart(a, |a|, start, epoch, prev);
      NothingBeforeStart(a + b, |a|, start, epoch, prev);
    } else {
      PlacedInLonger(a, b, n, start, epoch, prev);
      LastPlaced(a, start, epoch, prev);
      TrimmedLast(a, b, start, epoch, prev);
    }
  }

  lemma TrimmedLast(a: seq<Mini>, b: seq<Mini>, start: real, epoch: real, prev: Option<real>)
    requires a != [] && b != [] && a[|a| - 1].tOpen >= start
    ensures var n := |a| - 1; var gap := b[0].tOpen - a[n].tOpen;
            var (bars, mid) := Free(a + b, n, start, epoch, prev);
            Free(a + b, |a|, start, epoch, prev)
            == if gap >= MIN_BAR_MS
               then (TrimLast(bars + [MiniBar(a, n, epoch, mid)], b[0].tOpen - epoch), Some(MiniMid(a[n])))
               else (bars, mid)
  {
    var n, all := |a| - 1, a + b;
    var (bars, mid) := Free(all, n, start, epoch, prev);
    var bar := MiniBar(a, n, epoch, mid);
    assert all[n] == a[n] && all[n + 1] == b[0];
    assert (bars + [bar])[..|bars + [bar]| - 1] == bars;
  }

  // ---- two batches ----

  lemma {:induction false} ReadyShift(a: seq<Mini>, b: seq<Mini>, i: nat, dotsLeft: Float)
    requires i <= |b|
    ensures ReadyFrom(a + b, |a| + i, dotsLeft) == ReadyFrom(b, i, dotsLeft)
    decreases |b| - i
  {
    if i < |b| {
      MiniInTail(a, b, i);
      assert |a| + i + 1 == |a| + (i + 1);
      ReadyShift(a, b, i + 1, dotsLeft);
    }
  }

  /** What was ready stays ready as the list grows and the oldest cross moves on. */
  lemma {:induction false} ReadyStays(m: seq<Mini>, e: seq<Mini>, i: nat, r: nat, before: Float, after: Float)
    requires Le(before, after) && i <= r == ReadyMinis(m, before)
    ensures r <= |m| && ReadyFrom(m + e, i, after) == (r - i) + ReadyFrom(m + e, r, after)
    decreases r - i
  {
    if i < r {
      ReadyFromSettled(m, 0, before, i);
      assert MiniWidth(m + e, i) <= MiniWidth(m, i);
      StaysSettled((m + e)[i].tOpen + MiniWidth(m + e, i), m[i].tOpen + MiniWidth(m, i), before, after);
      ReadyStays(m, e, i + 1, r, before, after);
    }
  }

  lemma StaysSettled(a: real, b: real, before: Float, after: Float)
    requires a <= b && Le(Fin(b), before) && Le(before, after)
    ensures Le(Fin(a), after)
  {
  }

  lemma ReadySplits(m: seq<Mini>, e: seq<Mini>, before: Float, after: Float)
    requires Le(before, after)
    ensures var (all, r) := (m + e, ReadyMinis(m, before));
            r <= |m| && ReadyMinis(all, after) == r + ReadyMinis(all[r..], after)
  {
    var all, r := m + e, ReadyMinis(m, before);
    ReadyStays(m, e, 0, r, before, after);
    assert all == all[..r] + all[r..];
    ReadyShift(all[..r], all[r..], 0, after);
  }

  /** What the next open does to the bars of a batch that settled `r` minis of a list. */
  function Seamed(first: seq<PathBar>, all: seq<Mini>, r: nat, epoch: real): seq<PathBar> {
    if r < |all| then TrimLast(first, all[r].tOpen - epoch) else first
  }

  /** The batch stopped short of its list, nothing followed, or what follows leaves its last mini room. */
  predicate SeamRoom(m: seq<Mini>, e: seq<Mini>, r: nat, start: real) {
    r < |m| || e == [] || m == [] || m[|m| - 1].tOpen < start || e[0].tOpen - m[|m| - 1].tOpen >= MIN_BAR_MS
  }

  lemma SeamedHead(m: seq<Mini>, e: seq<Mini>, r: nat, start: real, epoch: real, prev: Option<real>)
    requires OpensAscend(m) && r <= |m|
    ensures var (all, (first, mid)) := (m + e, Free(m, r, start, epoch, prev));
            var head := Free(all, r, start, epoch, prev);
            if SeamRoom(m, e, r, start) then head == (Seamed(first, all, r, epoch), mid) else |head.0| + 1 == |first|
  {
    if r < |m| || e == [] {
      PlacedInLonger(m, e, r, start, epoch, prev);
      if r < |m| {
        LastBarEnds(m, r, start, epoch, prev);
        TrimIdle(Free(m, r, start, epoch, prev).0, m[r].tOpen - epoch);
      }
    } else if m != [] {
      TrimmedHead(m, e, start, epoch, prev);
    }
  }

  /**
   Placing minis batch by batch, as the oldest cross moves on and the list grows, and trimming each seam
   by the next open draws the same bars as placing the whole list against the later cross, exactly when
   the seam has room for the first batch's last mini.
   */
  lemma BatchesAgreeIff(m: seq<Mini>, e: seq<Mini>, start: real, before: Float, after: Float, epoch: real,
                        prev: Option<real>)
    requires OpensAscend(m) && Le(before, after)
    ensures var (all, r) := (m + e, ReadyMinis(m, before));
            var (first, mid) := Batch(m, start, before, epoch, prev);
            var (second, end) := Batch(all[r..], start, after, epoch, mid);
            Batch(all, start, after, epoch, prev) == (Seamed(first, all, r, epoch) + second, end)
            <==> SeamRoom(m, e, r, start)
  {
    var all, r := m + e, ReadyMinis(m, before);
    var rest, mid := all[r..], Free(m, r, start, epoch, prev).1;
    ReadySplits(m, e, before, after);
    BatchIsReady(m, start, before, epoch, prev);
    BatchIsReady(rest, start, after, epoch, mid);
    BatchIsReady(all, start, after, epoch, prev);
    FreeBatchesAgreeIff(m, e, r, ReadyMinis(rest, after), start, epoch, prev);
  }

  lemma FreeSplit(all: seq<Mini>, r: nat, n: nat, start: real, epoch: real, prev: Option<real>)
    requires r + n <= |all|
    ensures var (head, mid) := Free(all, r, start, epoch, prev);
            var (tail, end) := Free(all[r..], n, start, epoch, mid);
            Free(all, r + n, start, epoch, prev) == (head + tail, end)
  {
    assert all == all[..r] + all[r..];
    PlacedAfter(all[..r], all[r..], n, start, epoch, prev);
  }

  lemma FreeBatchesAgreeIff(m: seq<Mini>, e: seq<Mini>, r: nat, n: nat, start: real, epoch: real, prev: Option<real>)
    requires OpensAscend(m) && r <= |m| && r + n <= |m + e|
    ensures var all := m + e;
            var (first, mid) := Free(m, r, start, epoch, prev);
            var (second, end) := Free(all[r..], n, start, epoch, mid);
            Free(all, r + n, start, epoch, prev) == (Seamed(first, all, r, epoch) + second, end)
            <==> SeamRoom(m, e, r, start)
  {
    var all := m + e;
    var (first, mid) := Free(m, r, start, epoch, prev);
    var (head, headMid) := Free(all, r, start, epoch, prev);
    var rest, seamed := all[r..], Seamed(first, all, r, epoch);
    FreeSplit(all, r, n, start, epoch, prev);
    SeamedHead(m, e, r, start, epoch, prev);
    PlacedCount(rest, n, start, epoch, headMid, mid);
    assert |seamed| == |first|;
    SameSum(head, seamed, Free(rest, n, start, epoch, headMid).0, Free(rest, n, start, epoch, mid).0);
  }

  /** Lists of different lengths before lists of one length give different sums. */
  lemma SameSum<T>(a: seq<T>, b: seq<T>, x: seq<T>, y: seq<T>)
    requires |x| == |y|
    ensures |a| != |b| ==> a + x != b + y
  {
    assert |a + x| == |a| + |x| && |b + y| == |b| + |y|;
  }

  /** The open that trims the seam is that of the next batch's first bar, unless that mini is malformed. */
  lemma NextBarOpens(rest: seq<Mini>, start: real, dotsLeft: Float, epoch: real, prev: Option<real>)
    requires !dotsLeft.NaN? && rest != [] && rest[0].tOpen >= start && MiniWidth(rest, 0) >= MIN_BAR_MS
    ensures var bars := Batch(rest, start, dotsLeft, epoch, prev).0;
            bars != [] ==> bars[0].tOpenRel == rest[0].tOpen - epoch
  {
    BatchIsReady(rest, start, dotsLeft, epoch, prev);
    FirstBar(rest, ReadyMinis(rest, dotsLeft), start, epoch, prev);
  }

  lemma {:induction false} FirstBar(rest: seq<Mini>, n: nat, start: real, epoch: real, prev: Option<real>)
    requires n <= |rest| && rest != [] && rest[0].tOpen >= start && MiniWidth(rest, 0) >= MIN_BAR_MS
    ensures var bars := Free(rest, n, start, epoch, prev).0;
            n > 0 ==> bars != [] && bars[0].tOpenRel == rest[0].tOpen - epoch
  {
    if n > 0 {
      FirstBar(rest, n - 1, start, epoch, prev);
      if n == 1 { assert Free(rest, 0, start, epoch, prev).0 == []; }
    }
  }

  // ---- which minis are placed ----

  /** The width a mini is drawn at: to the next one's open, at most five seconds. */
  function WidthOf(minis: seq<Mini>, i: nat): real
    requires i < |minis|
  {
    if i + 1 < |minis| && minis[i + 1].tOpen - minis[i].tOpen < 5_000.0 then minis[i + 1].tOpen - minis[i].tOpen
    else 5_000.0
  }

  /** From the start on, at least a millisecond wide, and ending no later than the oldest cross. */
  predicate Drawn(minis: seq<Mini>, i: nat, start: real, dotsLeft: Float) {
    && i < |minis| && minis[i].tOpen >= start && WidthOf(minis, i) >= 1.0
    && (dotsLeft == PosInf || (dotsLeft.Fin? && minis[i].tOpen + WidthOf(minis, i) <= dotsLeft.v))
  }

  /** A bar draws a mini, rising unless its middle is below that of the bar before. */
  predicate Draws(b: PathBar, minis: seq<Mini>, i: nat, epoch: real, prev: Option<real>)
    requires i < |minis|
  {
    && b.tOpenRel == minis[i].tOpen - epoch && b.duration == WidthOf(minis, i)
    && (b.low, b.high) == (minis[i].low, minis[i].high)
    && (b.rising <==> prev.None? || prev.value <= (minis[i].low + minis[i].high) / 2.0)
  }

  /** The middle of the mini placed before the `k`-th. */
  function MidBefore(minis: seq<Mini>, from: seq<nat>, k: nat, prev: Option<real>): Option<real>
    requires k <= |from|
  {
    if k == 0 || from[k - 1] >= |minis| then prev
    else Some((minis[from[k - 1]].low + minis[from[k - 1]].high) / 2.0)
  }

  lemma PlacedIsDrawn(minis: seq<Mini>, i: nat, start: real, dotsLeft: Float)
    requires i < |minis| && !dotsLeft.NaN?
    ensures MiniPlaced(minis, i, start, dotsLeft) <==> Drawn(minis, i, start, dotsLeft)
    ensures MiniWidth(minis, i) == WidthOf(minis, i)
  {
  }

  /** The bars draw the minis `from` names, in order, each coloured against the one before it. */
  predicate DrawnAs(bars: seq<PathBar>, mid: Option<real>, minis: seq<Mini>, from: seq<nat>, epoch: real,
                    prev: Option<real>)
  {
    && |bars| == |from| && (forall k :: 0 <= k < |from| ==> from[k] < |minis|)
    && mid == MidBefore(minis, from, |from|, prev)
    && forall k :: 0 <= k < |from| ==> Draws(bars[k], minis, from[k], epoch, MidBefore(minis, from, k, prev))
  }

  lemma MidStill(minis: seq<Mini>, from: seq<nat>, n: nat, k: nat, prev: Option<real>)
    requires k <= |from|
    ensures MidBefore(minis, from + [n], k, prev) == MidBefore(minis, from, k, prev)
  {
    assert k > 0 ==> (from + [n])[k - 1] == from[k - 1];
  }

  lemma BarDraws(minis: seq<Mini>, n: nat, epoch: real, prev: Option<real>)
    requires n < |minis|
    ensures Draws(MiniBar(minis, n, epoch, prev), minis, n, epoch, prev)
    ensures MiniMid(minis[n]) == (minis[n].low + minis[n].high) / 2.0
  {
    PlacedIsDrawn(minis, n, 0.0, PosInf);
  }

  lemma DrawNext(bars: seq<PathBar>, mid: Option<real>, minis: seq<Mini>, from: seq<nat>, epoch: real,
                 prev: Option<real>, n: nat)
    requires DrawnAs(bars, mid, minis, from, epoch, prev) && n < |minis|
    ensures DrawnAs(bars + [MiniBar(minis, n, epoch, mid)], Some(MiniMid(minis[n])), minis, from + [n], epoch, prev)
  {
    var next, more := from + [n], bars + [MiniBar(minis, n, epoch, mid)];
    BarDraws(minis, n, epoch, mid);
    forall k | 0 <= k < |next|
      ensures next[k] < |minis| && Draws(more[k], minis, next[k], epoch, MidBefore(minis, next, k, prev))
    {
      DrawsStill(bars, mid, minis, from, epoch, prev, n, k);
    }
  }

  lemma DrawsStill(bars: seq<PathBar>, mid: Option<real>, minis: seq<Mini>, from: seq<nat>, epoch: real,
                   prev: Option<real>, n: nat, k: nat)
    requires DrawnAs(bars, mid, minis, from, epoch, prev) && n < |minis| && k <= |from|
    requires Draws(MiniBar(minis, n, epoch, mid), minis, n, epoch, mid)
    ensures var (next, more) := (from + [n], bars + [MiniBar(minis, n, epoch, mid)]);
            next[k] < |minis| && Draws(more[k], minis, next[k], epoch, MidBefore(minis, next, k, prev))
  {
    MidStill(minis, from, n, k, prev);
  }

  /** The minis placed, in order. */
  ghost predicate Chosen(minis: seq<Mini>, n: nat, start: real, dotsLeft: Float, from: seq<nat>) {
    && Pairwise(from, (a: nat, b: nat) => a < b)
    && forall i: nat :: i in from <==> i < n && Drawn(minis, i, start, dotsLeft)
  }

  lemma ChooseNext(minis: seq<Mini>, n: nat, start: real, dotsLeft: Float, from: seq<nat>)
    requires Chosen(minis, n, start, dotsLeft, from)
    ensures Chosen(minis, n + 1, start, dotsLeft, from + if Drawn(minis, n, start, dotsLeft) then [n] else [])
  {
    assert forall k :: 0 <= k < |from| ==> from[k] in from;
  }

  /** The bars placed are those minis, in order, each coloured against the one placed before it. */
  lemma {:induction false} PlacedBars(minis: seq<Mini>, n: nat, start: real, dotsLeft: Float, epoch: real,
                                      prev: Option<real>) returns (from: seq<nat>)
    requires n <= |minis| && !dotsLeft.NaN?
    ensures Chosen(minis, n, start, dotsLeft, from) && PlacedAs(minis, n, start, dotsLeft, epoch, prev, from)
  {
    if n == 0 {
      from := [];
    } else {
      var before := PlacedBars(minis, n - 1, start, dotsLeft, epoch, prev);
      ChooseNext(minis, n - 1, start, dotsLeft, before);
      from := before + if Drawn(minis, n - 1, start, dotsLeft) then [n - 1] else [];
      PlaceNext(minis, n - 1, start, dotsLeft, epoch, prev, before);
    }
  }

  lemma PlaceNext(minis: seq<Mini>, n: nat, start: real, dotsLeft: Float, epoch: real, prev: Option<real>,
                  before: seq<nat>)
    requires n < |minis| && !dotsLeft.NaN? && PlacedAs(minis, n, start, dotsLeft, epoch, prev, before)
    ensures PlacedAs(minis, n + 1, start, dotsLeft, epoch, prev,
                     before + if Drawn(minis, n, start, dotsLeft) then [n] else [])
  {
    var (bars, mid) := Placed(minis, n, start, dotsLeft, epoch, prev);
    PlacedNext(minis, n, start, dotsLeft, epoch, prev);
    if Drawn(minis, n, start, dotsLeft) {
      DrawNext(bars, mid, minis, before, epoch, prev, n);
    } else {
      assert before + [] == before;
    }
  }

  /** The first `n` minis are placed as bars of the minis `from` names. */
  ghost predicate PlacedAs(minis: seq<Mini>, n: nat, start: real, dotsLeft: Float, epoch: real, prev: Option<real>,
                           from: seq<nat>)
    requires n <= |minis|
  {
    var (bars, mid) := Placed(minis, n, start, dotsLeft, epoch, prev);
    DrawnAs(bars, mid, minis, from, epoch, prev)
  }

  lemma PlacedNext(minis: seq<Mini>, n: nat, start: real, dotsLeft: Float, epoch: real, prev: Option<real>)
    requires n < |minis| && !dotsLeft.NaN?
    ensures var (bars, mid) := Placed(minis, n, start, dotsLeft, epoch, prev);
            Placed(minis, n + 1, start, dotsLeft, epoch, prev)
              == if Drawn(minis, n, start, dotsLeft)
                 then (bars + [MiniBar(minis, n, epoch, mid)], Some(MiniMid(minis[n])))
                 else (bars, mid)
  {
    PlacedIsDrawn(minis, n, start, dotsLeft);
  }
}

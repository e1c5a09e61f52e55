/**
 The bottom volume band's lookups over retained candle samples: the sorted searches against their
 order-free references, and the turnover of a period (crates/moon-chart/src/volume_bars.rs).
 */
module VolumeBars {
  import opened Floats
  import opened Seqs

  /** A candle's opening, its own width, and its quote turnover. */
  datatype Sample = Sample(tOpen: Float, tf: Float, quote: real)

  predicate ByOpen(a: Sample, b: Sample) { Le(a.tOpen, b.tOpen) }

  const OPEN_ORDER := (a: Sample, b: Sample) => ByOpen(a, b)

  /** Ascending openings, and a bound on every width. */
  predicate Retained(samples: seq<Sample>, maxTf: Float) {
    && maxTf.Fin?
    && (forall i, j :: 0 <= i < j < |samples| ==> OPEN_ORDER(samples[i], samples[j]))
    && (forall i :: 0 <= i < |samples| ==> Le(samples[i].tf, maxTf))
  }

  // ---- the sample under the cursor ----

  /** A sample's own half-open bucket holds the instant. */
  predicate Covers(s: Sample, t: real) {
    && s.tOpen.Fin? && s.tf.Fin? && s.tf.v > 0.0
    && s.tOpen.v <= t < s.tOpen.v + s.tf.v
  }

  /** The narrowest covering sample among `lo..hi`, the earliest of equally narrow ones. */
  predicate Narrowest(samples: seq<Sample>, t: real, lo: nat, hi: nat, ix: nat)
    requires hi <= |samples|
  {
    && lo <= ix < hi && Covers(samples[ix], t)
    && (forall j :: lo <= j < hi && Covers(samples[j], t) ==> samples[ix].tf.v <= samples[j].tf.v)
    && (forall j :: lo <= j < ix && Covers(samples[j], t) ==> samples[ix].tf.v < samples[j].tf.v)
  }

  predicate NoneCovers(samples: seq<Sample>, t: real, lo: nat, hi: nat)
    requires hi <= |samples|
  {
    forall j :: lo <= j < hi ==> !Covers(samples[j], t)
  }

  /** What a lookup at an instant must return. */
  ghost predicate IsSampleAt(samples: seq<Sample>, t: Float, r: Option<Sample>) {
    if !t.Fin? then r.None?
    else if r.None? then NoneCovers(samples, t.v, 0, |samples|)
    else exists ix: nat :: Narrowest(samples, t.v, 0, |samples|, ix) && samples[ix] == r.value
  }

  lemma SampleAtUnique(samples: seq<Sample>, t: Float, a: Option<Sample>, b: Option<Sample>)
    requires IsSampleAt(samples, t, a) && IsSampleAt(samples, t, b)
    ensures a == b
  {
    if a.Some? && b.Some? {
      var i: nat :| Narrowest(samples, t.v, 0, |samples|, i) && samples[i] == a.value;
      var j: nat :| Narrowest(samples, t.v, 0, |samples|, j) && samples[j] == b.value;
      assert samples[i].tf.v <= samples[j].tf.v && samples[j].tf.v <= samples[i].tf.v;
    }
  }

  /** The instant lies in the candle, from its opening up to but not including its end. */
  predicate InCandle(s: Sample, t: real) {
    s.tOpen.Fin? && s.tf.Fin? && s.tf.v > 0.0 && s.tOpen.v <= t && t - s.tOpen.v < s.tf.v
  }

  /** A lookup answers with a candle holding the instant, none narrower; with nothing only if none holds it. */
  lemma LookupIs(samples: seq<Sample>, t: real, r: Option<Sample>)
    requires IsSampleAt(samples, Fin(t), r)
    ensures r.Some? ==> r.value in samples && InCandle(r.value, t)
                        && forall s :: s in samples && InCandle(s, t) ==> r.value.tf.v <= s.tf.v
    ensures r.None? ==> forall s :: s in samples ==> !InCandle(s, t)
  {
    assert forall s :: Covers(s, t) <==> InCandle(s, t);
  }

  /** The order-free reference: any samples, in any order. */
  method SampleAt(samples: seq<Sample>, t: Float) returns (best: Option<Sample>)
    ensures IsSampleAt(samples, t, best)
  {
    best := None;
    if !t.Fin? {
      return;
    }
    ghost var ix: nat := 0;
    for i := 0 to |samples|
      invariant best.None? ==> NoneCovers(samples, t.v, 0, i)
      invariant best.Some? ==> Narrowest(samples, t.v, 0, i, ix) && samples[ix] == best.value
    {
      var s := samples[i];
      if !Covers(s, t.v) {
        continue;
      }
      if best.None? || Lt(s.tf, best.value.tf) {
        best, ix := Some(s), i;
      }
    }
  }

  predicate OpensBy(s: Sample, t: Float) { Le(s.tOpen, t) }

  predicate EndsBy(s: Sample, maxTf: Float, t: Float) { Le(Add(s.tOpen, maxTf), t) }

  /** Over ascending openings the rows open by an instant are a prefix. */
  lemma OpensByPrefix(samples: seq<Sample>, maxTf: Float, t: Float, i: nat)
    requires Retained(samples, maxTf) && i < |samples|
    ensures OpensBy(samples[i], t) <==> i < PartitionPoint(samples, (s: Sample) => OpensBy(s, t))
  {
    forall j | 0 <= j < i && OpensBy(samples[i], t) ensures OpensBy(samples[j], t) {
      assert OPEN_ORDER(samples[j], samples[i]);
    }
    PrefixPoint(samples, (s: Sample) => OpensBy(s, t), i);
  }

  lemma ShiftKeepsOrder(a: Float, b: Float, width: Float)
    requires Le(a, b) && width.Fin?
    ensures Le(Add(a, width), Add(b, width))
  {
  }

  /** So are the rows that the widest bucket from their opening has left behind. */
  lemma EndsByPrefix(samples: seq<Sample>, maxTf: Float, t: Float, i: nat)
    requires Retained(samples, maxTf) && i < |samples|
    ensures EndsBy(samples[i], maxTf, t) <==> i < PartitionPoint(samples, (s: Sample) => EndsBy(s, maxTf, t))
  {
    forall j | 0 <= j < i && EndsBy(samples[i], maxTf, t) ensures EndsBy(samples[j], maxTf, t) {
      assert OPEN_ORDER(samples[j], samples[i]);
      ShiftKeepsOrder(samples[j].tOpen, samples[i].tOpen, maxTf);
    }
    PrefixPoint(samples, (s: Sample) => EndsBy(s, maxTf, t), i);
  }

  /** A row left behind takes every earlier row with it. */
  lemma LeftBehind(samples: seq<Sample>, maxTf: Float, t: Float, i: nat)
    requires Retained(samples, maxTf) && t.Fin? && i < |samples| && EndsBy(samples[i], maxTf, t)
    ensures NoneCovers(samples, t.v, 0, i + 1)
  {
    forall j | 0 <= j <= i ensures !Covers(samples[j], t.v) {
      assert j == i || OPEN_ORDER(samples[j], samples[i]);
      assert Le(samples[j].tf, maxTf);
    }
  }

  /** The best of the rows from `i` on, reached backwards. */
  predicate BestFrom(samples: seq<Sample>, t: real, i: nat, best: Option<Sample>, ix: nat)
  {
    if best.None? then NoneCovers(samples, t, i, |samples|)
    else Narrowest(samples, t, i, |samples|, ix) && samples[ix] == best.value
  }

  predicate Better(s: Sample, t: real, best: Option<Sample>) {
    Covers(s, t) && (best.None? || Le(s.tf, best.value.tf))
  }

  /** One row further back: it is the best when it covers and nothing held is narrower. */
  lemma BestBack(samples: seq<Sample>, t: real, i: nat, best: Option<Sample>, ix: nat)
    requires i < |samples| && BestFrom(samples, t, i + 1, best, ix)
    ensures if Better(samples[i], t, best) then BestFrom(samples, t, i, Some(samples[i]), i)
            else BestFrom(samples, t, i, best, ix)
  {
  }

  lemma BestIsSampleAt(samples: seq<Sample>, t: real, i: nat, best: Option<Sample>, ix: nat)
    requires i <= |samples| && NoneCovers(samples, t, 0, i) && BestFrom(samples, t, i, best, ix)
    ensures IsSampleAt(samples, Fin(t), best)
  {
    if best.Some? { assert Narrowest(samples, t, 0, |samples|, ix); }
  }

  /** No row opening after the instant covers it. */
  lemma AheadUncovered(samples: seq<Sample>, maxTf: Float, t: Float, end: nat)
    requires Retained(samples, maxTf) && t.Fin? && end == PartitionPoint(samples, (s: Sample) => OpensBy(s, t))
    ensures BestFrom(samples, t.v, end, None, 0)
  {
    forall j | end <= j < |samples| ensures !Covers(samples[j], t.v) {
      OpensByPrefix(samples, maxTf, t, j);
    }
  }

  method SampleAtSorted(samples: seq<Sample>, maxTf: Float, t: Float) returns (best: Option<Sample>)
    requires Retained(samples, maxTf)
    ensures IsSampleAt(samples, t, best)
  {
    best := None;
    if !t.Fin? {
      return;
    }
    var end := PartitionPoint(samples, (s: Sample) => OpensBy(s, t));
    AheadUncovered(samples, maxTf, t, end);
    ghost var ix: nat := 0;
    var i: nat := end;
    while i > 0
      invariant i <= end && BestFrom(samples, t.v, i, best, ix)
    {
      var s := samples[i - 1];
      if Le(Add(s.tOpen, maxTf), t) {
        LeftBehind(samples, maxTf, t, i - 1);
        break;
      }
      BestBack(samples, t.v, i - 1, best, ix);
      i := i - 1;
      if Better(s, t.v, best) {
        best, ix := Some(s), i;
      }
    }
    BestIsSampleAt(samples, t.v, i, best, ix);
  }

  // ---- the band's scale ----

  predicate Intersects(s: Sample, from: Float, to: Float) {
    Lt(from, Add(s.tOpen, s.tf)) && Le(s.tOpen, to)
  }

  /** A turnover over one width read over another. */
  function AtInterval(quote: real, interval: real, tf: real): real
    requires tf != 0.0
  {
    quote * interval / tf
  }

  /** It is the turnover that, over its own width, gives the candle's. */
  lemma AtIntervalIs(quote: real, interval: real, tf: real)
    requires tf > 0.0
    ensures AtInterval(quote, interval, tf) * tf == quote * interval
  {
  }

  /** A visible pre-boundary sample's turnover read at the rolling interval. */
  function Figure(s: Sample, from: Float, to: Float, interval: Float, boundary: Float): Option<real> {
    if !Lt(Fin(0.0), s.tf) || Le(boundary, s.tOpen) || !Intersects(s, from, to) || !interval.Fin? then None
    else if s.tf.Fin? then Some(AtInterval(s.quote, interval.v, s.tf.v))
    else Some(0.0)
  }

  /** A finite candle counts for the scale when it opened before the boundary and shows in the band. */
  lemma FigureIs(s: Sample, from: real, to: real, interval: real, boundary: real)
    requires s.tOpen.Fin? && s.tf.Fin?
    ensures Figure(s, Fin(from), Fin(to), Fin(interval), Fin(boundary)) ==
            if s.tf.v > 0.0 && s.tOpen.v < boundary && from < s.tOpen.v + s.tf.v && s.tOpen.v <= to
            then Some(AtInterval(s.quote, interval, s.tf.v)) else None
  {
  }

  datatype Look = Look(from: Float, to: Float, interval: Float, boundary: Float)

  function FigureIn(s: Sample, w: Look): Option<real> { Figure(s, w.from, w.to, w.interval, w.boundary) }

  /** The largest of zero and the figures among `lo..hi`. */
  ghost predicate IsTop(samples: seq<Sample>, w: Look, lo: nat, hi: nat, max: real)
    requires hi <= |samples|
  {
    && max >= 0.0
    && (max > 0.0 ==> exists i :: lo <= i < hi && FigureIn(samples[i], w) == Some(max))
    && (forall i :: lo <= i < hi && FigureIn(samples[i], w).Some? ==> FigureIn(samples[i], w).value <= max)
  }

  /** What the band's scale must be: the largest positive figure of all samples, if there is one. */
  ghost predicate IsIntervalMax(samples: seq<Sample>, w: Look, r: Option<real>) {
    if !Lt(Fin(0.0), w.interval) then r.None?
    else if r.None? then IsTop(samples, w, 0, |samples|, 0.0)
    else r.value > 0.0 && IsTop(samples, w, 0, |samples|, r.value)
  }

  lemma IntervalMaxUnique(samples: seq<Sample>, w: Look, a: Option<real>, b: Option<real>)
    requires IsIntervalMax(samples, w, a) && IsIntervalMax(samples, w, b)
    ensures a == b
  {
  }

  /** Figures over a slice, kept as a running maximum. */
  method TopOf(samples: seq<Sample>, w: Look, lo: nat, hi: nat) returns (max: real)
    requires lo <= hi <= |samples|
    ensures IsTop(samples, w, lo, hi, max)
  {
    max := 0.0;
    for i := lo to hi
      invariant IsTop(samples, w, lo, i, max)
    {
      var figure := FigureIn(samples[i], w);
      if figure.Some? && figure.value > max {
        max := figure.value;
        assert FigureIn(samples[i], w) == Some(max);
      }
    }
  }

  method VisibleIntervalMax(samples: seq<Sample>, w: Look) returns (r: Option<real>)
    ensures IsIntervalMax(samples, w, r)
  {
    if !Lt(Fin(0.0), w.interval) {
      return None;
    }
    var max := TopOf(samples, w, 0, |samples|);
    r := if max > 0.0 then Some(max) else None;
  }

  /** No row outside the searched slice is visible. */
  lemma OutsideUnseen(samples: seq<Sample>, maxTf: Float, w: Look, i: nat)
    requires Retained(samples, maxTf) && i < |samples|
    requires i < PartitionPoint(samples, (s: Sample) => EndsBy(s, maxTf, w.from))
          || i >= PartitionPoint(samples, (s: Sample) => OpensBy(s, w.to))
    ensures FigureIn(samples[i], w).None?
  {
    EndsByPrefix(samples, maxTf, w.from, i);
    OpensByPrefix(samples, maxTf, w.to, i);
    assert Le(samples[i].tf, maxTf);
  }

  method VisibleIntervalMaxSorted(samples: seq<Sample>, maxTf: Float, w: Look) returns (r: Option<real>)
    requires Retained(samples, maxTf)
    ensures IsIntervalMax(samples, w, r)
  {
    if !Lt(Fin(0.0), w.interval) {
      return None;
    }
    var start := PartitionPoint(samples, (s: Sample) => EndsBy(s, maxTf, w.from));
    var begun := PartitionPoint(samples, (s: Sample) => OpensBy(s, w.to));
    var end := if begun < start then start else begun;
    forall i | 0 <= i < |samples| && !(start <= i < end) ensures FigureIn(samples[i], w).None? {
      OutsideUnseen(samples, maxTf, w, i);
    }
    var max := TopOf(samples, w, start, end);
    r := if max > 0.0 then Some(max) else None;
  }

  // ---- the turnover of a period ----

  /** A period, and the clock it is read at. */
  datatype Period = Period(from: real, to: real, now: Float)

  /** The part of a candle that has already elapsed; a clock behind the candle leaves its whole width. */
  function Span(s: Sample, now: Float): real
    requires s.tOpen.Fin? && s.tf.Fin?
  {
    if now.Fin? && now.v > s.tOpen.v then Min(s.tf.v, now.v - s.tOpen.v) else s.tf.v
  }

  /** How long a candle overlaps a period, negative when it does not. */
  function Overlap(s: Sample, p: Period): real
    requires s.tOpen.Fin? && s.tf.Fin?
  {
    Min(s.tOpen.v + Span(s, p.now), p.to) - Max(s.tOpen.v, p.from)
  }

  predicate Counts(s: Sample, p: Period) {
    s.tOpen.Fin? && s.tf.Fin? && Span(s, p.now) > 0.0 && Overlap(s, p) > 0.0
  }

  function Part(quote: real, overlap: real, span: real): real
    requires span > 0.0
  {
    quote * overlap / span
  }

  /** The share of a candle's turnover that falls in a period. */
  function Share(s: Sample, p: Period): real {
    if Counts(s, p) then Part(s.quote, Overlap(s, p), Span(s, p.now)) else 0.0
  }

  function Shares(samples: seq<Sample>, p: Period): real {
    if samples == [] then 0.0 else Shares(samples[..|samples| - 1], p) + Share(samples[|samples| - 1], p)
  }

  predicate Uncounted(samples: seq<Sample>, p: Period, lo: nat, hi: nat)
    requires hi <= |samples|
  {
    forall i :: lo <= i < hi ==> !Counts(samples[i], p)
  }

  /** Some counted candle opens at or before the period's start. */
  ghost predicate Reaches(samples: seq<Sample>, p: Period) {
    exists i :: 0 <= i < |samples| && Counts(samples[i], p) && samples[i].tOpen.v <= p.from
  }

  /** The whole slice's answer: every share, and whether some counted candle reaches the start. */
  ghost predicate IsTurnover(samples: seq<Sample>, p: Period, r: Option<(real, bool)>) {
    if p.to <= p.from || Uncounted(samples, p, 0, |samples|) then r.None?
    else r.Some? && r.value.0 == Shares(samples, p) && (r.value.1 <==> Reaches(samples, p))
  }

  /** The elapsed part as the loop computes it, for any floats. */
  function FloatSpan(s: Sample, now: Float): Float {
    if Lt(s.tOpen, now) then FMin(s.tf, Sub(now, s.tOpen)) else s.tf
  }

  function FloatOverlap(s: Sample, p: Period, span: Float): Float {
    Sub(FMin(Add(s.tOpen, span), Fin(p.to)), FMax(s.tOpen, Fin(p.from)))
  }

  /** Of the rows in the searched slice the float arithmetic counts exactly the finite ones that overlap. */
  lemma FloatsCount(s: Sample, maxTf: Float, p: Period)
    requires maxTf.Fin? && Le(s.tf, maxTf) && Lt(s.tOpen, Fin(p.to))
    ensures var span := FloatSpan(s, p.now);
            && (Lt(Fin(0.0), span) && Lt(Fin(0.0), FloatOverlap(s, p, span)) <==> Counts(s, p))
            && (Counts(s, p) ==> span == Fin(Span(s, p.now)) && FloatOverlap(s, p, span) == Fin(Overlap(s, p)))
  {
  }

  lemma {:induction false} SharesNone(samples: seq<Sample>, p: Period)
    requires Uncounted(samples, p, 0, |samples|)
    ensures Shares(samples, p) == 0.0
  {
    if samples != [] { SharesNone(samples[..|samples| - 1], p); }
  }

  /** Rows past the last counted one add nothing. */
  lemma {:induction false} SharesStop(samples: seq<Sample>, p: Period, n: nat)
    requires n <= |samples| && Uncounted(samples, p, n, |samples|)
    ensures Shares(samples[..n], p) == Shares(samples, p)
  {
    if n < |samples| {
      var init := samples[..|samples| - 1];
      SharesStop(init, p, n);
      assert init[..n] == samples[..n];
    } else {
      assert samples[..n] == samples;
    }
  }

  predicate OpensBefore(s: Sample, t: real) { Lt(s.tOpen, Fin(t)) }

  /** Over ascending openings the rows opening before an instant are a prefix. */
  lemma OpensBeforePrefix(samples: seq<Sample>, maxTf: Float, t: real, i: nat)
    requires Retained(samples, maxTf) && i < |samples|
    ensures OpensBefore(samples[i], t) <==> i < PartitionPoint(samples, (s: Sample) => OpensBefore(s, t))
  {
    forall j | 0 <= j < i && OpensBefore(samples[i], t) ensures OpensBefore(samples[j], t) {
      assert OPEN_ORDER(samples[j], samples[i]);
    }
    PrefixPoint(samples, (s: Sample) => OpensBefore(s, t), i);
  }

  /** A row that does not open before the period's end, or is left behind at its start, does not count. */
  lemma OutsideUncounted(s: Sample, maxTf: Float, p: Period)
    requires maxTf.Fin? && Le(s.tf, maxTf) && (EndsBy(s, maxTf, Fin(p.from)) || !OpensBefore(s, p.to))
    ensures !Counts(s, p)
  {
  }

  /** The slice two binary searches leave to visit. */
  method Sought(samples: seq<Sample>, maxTf: Float, p: Period) returns (start: nat, end: nat)
    requires Retained(samples, maxTf)
    ensures start <= end <= |samples| && Uncounted(samples, p, 0, start) && Uncounted(samples, p, end, |samples|)
    ensures forall i :: start <= i < end ==> OpensBefore(samples[i], p.to)
  {
    start := PartitionPoint(samples, (s: Sample) => EndsBy(s, maxTf, Fin(p.from)));
    var begun := PartitionPoint(samples, (s: Sample) => OpensBefore(s, p.to));
    end := if begun < start then start else begun;
    forall i | 0 <= i < |samples| && (i < start || end <= i) ensures !Counts(samples[i], p) {
      EndsByPrefix(samples, maxTf, Fin(p.from), i);
      OpensBeforePrefix(samples, maxTf, p.to, i);
      OutsideUncounted(samples[i], maxTf, p);
    }
    forall i | start <= i < end ensures OpensBefore(samples[i], p.to) {
      OpensBeforePrefix(samples, maxTf, p.to, i);
    }
  }

  ghost predicate FirstCounted(samples: seq<Sample>, p: Period, n: nat, open: Option<Float>)
    requires n <= |samples|
  {
    if open.None? then Uncounted(samples, p, 0, n)
    else
      exists k ::
        0 <= k < n && Counts(samples[k], p) && open == Some(samples[k].tOpen) && Uncounted(samples, p, 0, k)
  }

  /** One more row: it joins the total if it counts, and is the first one counted if none was. */
  lemma FirstStep(samples: seq<Sample>, p: Period, n: nat, open: Option<Float>, next: Option<Float>)
    requires n < |samples| && FirstCounted(samples, p, n, open)
    requires next == if Counts(samples[n], p) && open.None? then Some(samples[n].tOpen) else open
    ensures FirstCounted(samples, p, n + 1, next)
  {
  }

  /** The first counted candle reaches the period's start if any counted candle does. */
  lemma FirstReaches(samples: seq<Sample>, maxTf: Float, p: Period, open: Float)
    requires Retained(samples, maxTf) && FirstCounted(samples, p, |samples|, Some(open))
    ensures Le(open, Fin(p.from)) <==> Reaches(samples, p)
  {
    var k :| 0 <= k < |samples| && Counts(samples[k], p) && open == samples[k].tOpen && Uncounted(samples, p, 0, k);
    forall i | k < i < |samples| ensures OPEN_ORDER(samples[k], samples[i]) {}
  }

  lemma FirstStays(samples: seq<Sample>, p: Period, n: nat, open: Option<Float>)
    requires n <= |samples| && FirstCounted(samples, p, n, open) && Uncounted(samples, p, n, |samples|)
    ensures FirstCounted(samples, p, |samples|, open)
  {
  }

  /** What the loop holds before row `n`: the shares so far, and the first opening counted. */
  ghost predicate Summed(samples: seq<Sample>, p: Period, n: nat, total: real, open: Option<Float>)
    requires n <= |samples|
  {
    total == Shares(samples[..n], p) && FirstCounted(samples, p, n, open)
  }

  lemma SumStep(samples: seq<Sample>, p: Period, n: nat, total: real, open: Option<Float>,
                sum: real, next: Option<Float>)
    requires n < |samples| && Summed(samples, p, n, total, open)
    requires sum == total + Share(samples[n], p)
    requires next == if Counts(samples[n], p) && open.None? then Some(samples[n].tOpen) else open
    ensures Summed(samples, p, n + 1, sum, next)
  {
    assert samples[..n + 1][..n] == samples[..n];
    FirstStep(samples, p, n, open, next);
  }

  lemma SumStarts(samples: seq<Sample>, p: Period, start: nat)
    requires start <= |samples| && Uncounted(samples, p, 0, start)
    ensures Summed(samples, p, start, 0.0, None)
  {
    SharesNone(samples[..start], p);
  }

  lemma SumAnswers(samples: seq<Sample>, maxTf: Float, p: Period, end: nat, total: real, open: Option<Float>)
    requires Retained(samples, maxTf) && p.from < p.to && end <= |samples| && Uncounted(samples, p, end, |samples|)
    requires Summed(samples, p, end, total, open)
    ensures IsTurnover(samples, p, if open.None? then None else Some((total, Le(open.value, Fin(p.from)))))
  {
    SharesStop(samples, p, end);
    FirstStays(samples, p, end, open);
    if open.Some? { FirstReaches(samples, maxTf, p, open.value); }
  }

  /** One row of the loop, in the order the source takes it. */
  method AddShare(s: Sample, p: Period, ghost maxTf: Float, total: real, open: Option<Float>)
    returns (sum: real, next: Option<Float>)
    requires maxTf.Fin? && Le(s.tf, maxTf) && OpensBefore(s, p.to)
    ensures sum == total + Share(s, p)
    ensures next == if Counts(s, p) && open.None? then Some(s.tOpen) else open
  {
    FloatsCount(s, maxTf, p);
    sum, next := total, open;
    var span := FloatSpan(s, p.now);
    if !Lt(Fin(0.0), span) {
      return;
    }
    var overlap := FloatOverlap(s, p, span);
    if !Lt(Fin(0.0), overlap) {
      return;
    }
    sum := total + Part(s.quote, overlap.v, span.v);
    if open.None? {
      next := Some(s.tOpen);
    }
  }

  method QuoteTurnoverBetween(samples: seq<Sample>, maxTf: Float, p: Period) returns (r: Option<(real, bool)>)
    requires Retained(samples, maxTf)
    ensures IsTurnover(samples, p, r)
  {
    if p.to <= p.from {
      return None;
    }
    var start, end := Sought(samples, maxTf, p);
    SumStarts(samples, p, start);
    var total, open := 0.0, None;
    for i := start to end
      invariant Summed(samples, p, i, total, open)
    {
      var sum, next := AddShare(samples[i], p, maxTf, total, open);
      SumStep(samples, p, i, total, open, sum, next);
      total, open := sum, next;
    }
    SumAnswers(samples, maxTf, p, end, total, open);
    r := if open.None? then None else Some((total, Le(open.value, Fin(p.from))));
  }

  // ---- what the turnover means ----

  /** The overlapping length, zero when there is none. */
  function Clip(open: real, end: real, from: real, to: real): real {
    Max(Min(end, to) - Max(open, from), 0.0)
  }

  lemma Spread(q: real, a: real, b: real, span: real)
    requires span > 0.0
    ensures Part(q, a + b, span) == Part(q, a, span) + Part(q, b, span)
  {
    assert q * (a + b) == q * a + q * b;
  }

  lemma ShareSplits(s: Sample, p: Period, mid: real)
    requires p.from <= mid <= p.to
    ensures Share(s, p) == Share(s, p.(to := mid)) + Share(s, p.(from := mid))
  {
    if s.tOpen.Fin? && s.tf.Fin? && Span(s, p.now) > 0.0 {
      var open, end := s.tOpen.v, s.tOpen.v + Span(s, p.now);
      Spread(s.quote, Clip(open, end, p.from, mid), Clip(open, end, mid, p.to), Span(s, p.now));
    }
  }

  lemma {:induction false} SharesSplit(samples: seq<Sample>, p: Period, mid: real)
    requires p.from <= mid <= p.to
    ensures Shares(samples, p) == Shares(samples, p.(to := mid)) + Shares(samples, p.(from := mid))
  {
    if samples != [] {
      SharesSplit(samples[..|samples| - 1], p, mid);
      ShareSplits(samples[|samples| - 1], p, mid);
    }
  }

  function Amount(r: Option<(real, bool)>): real { if r.Some? then r.value.0 else 0.0 }

  lemma AmountIsShares(samples: seq<Sample>, p: Period, r: Option<(real, bool)>)
    requires p.from < p.to && IsTurnover(samples, p, r)
    ensures Amount(r) == Shares(samples, p)
  {
    if r.None? { SharesNone(samples, p); }
  }

  /** Turnover is additive over adjacent periods read at one clock. */
  lemma TurnoverAdditive(samples: seq<Sample>, p: Period, mid: real,
                         whole: Option<(real, bool)>, left: Option<(real, bool)>, right: Option<(real, bool)>)
    requires p.from < mid < p.to && IsTurnover(samples, p, whole)
    requires IsTurnover(samples, p.(to := mid), left) && IsTurnover(samples, p.(from := mid), right)
    ensures Amount(whole) == Amount(left) + Amount(right)
  {
    AmountIsShares(samples, p, whole);
    AmountIsShares(samples, p.(to := mid), left);
    AmountIsShares(samples, p.(from := mid), right);
    SharesSplit(samples, p, mid);
  }

  predicate Elapsed(s: Sample, now: Float) { s.tOpen.Fin? && s.tf.Fin? && Span(s, now) > 0.0 }

  /** The turnover of every finite candle that has any elapsed span. */
  function FullSum(samples: seq<Sample>, now: Float): real {
    if samples == [] then 0.0
    else
      var last := samples[|samples| - 1];
      FullSum(samples[..|samples| - 1], now) + if Elapsed(last, now) then last.quote else 0.0
  }

  lemma Whole(q: real, span: real)
    requires span > 0.0
    ensures q * span / span == q
  {
  }

  /** A period containing every elapsed candle's span states their whole turnover. */
  lemma {:induction false} TurnoverComplete(samples: seq<Sample>, p: Period)
    requires forall i :: 0 <= i < |samples| && Elapsed(samples[i], p.now) ==>
                           p.from <= samples[i].tOpen.v && samples[i].tOpen.v + Span(samples[i], p.now) <= p.to
    ensures Shares(samples, p) == FullSum(samples, p.now)
  {
    if samples != [] {
      var last := samples[|samples| - 1];
      TurnoverComplete(samples[..|samples| - 1], p);
      if Elapsed(last, p.now) { Whole(last.quote, Span(last, p.now)); }
    }
  }
}

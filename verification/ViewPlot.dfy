/**
 The time axis in plot positions and plain arithmetic: where live stands, when a view rejoins or is
 clamped, what a zoom and a frame put on the plot (crates/moon-chart/src/view.rs).
 */
module ViewPlot {
  import opened Floats
  import opened Seqs
  import opened ViewX

  // ---- live ----

  /** Returning to live stands at the clock plus its offset, follows, and ends both Pause and frame. */
  lemma ResumeStands(v: TimeAxis, now: real)
    ensures var r := Resume(v, now);
            r.right == now + v.liveOffset && r.follow && !r.manualPersistent && r.frame.None? && r.ppm == v.ppm
  {
  }

  /** The distance of the live edge from the right edge, in pixels. */
  function LivePx(v: TimeAxis, now: real): real {
    Abs(now + v.liveOffset - v.right) * Max(v.ppm, 0.000000001)
  }

  /** A view is pulled back when neither following nor paused and within a twentieth of the plot, or 40 px, of live. */
  lemma RejoinsWithin(v: TimeAxis, now: real, areaW: real)
    ensures SnapIfNear(v, now, areaW) ==
            if !v.follow && !v.manualPersistent && LivePx(v, now) <= Max(0.05 * Max(areaW, 1.0), 40.0)
            then Resume(v, now) else v
  {
    WithinQuotient(Abs(now + v.liveOffset - v.right), Max(0.05 * Max(areaW, 1.0), 40.0), Max(v.ppm, 0.000000001));
    assert RejoinPx(areaW) == Max(0.05 * Max(areaW, 1.0), 40.0);
  }

  lemma WithinQuotient(d: real, px: real, g: real)
    requires g > 0.0
    ensures d <= px / g <==> d * g <= px
  {
    var q := px / g;
    assert q * g == px;
    Monotone(d, q, g);
    Monotone(q, d, g);
  }

  lemma Monotone(a: real, b: real, g: real)
    requires g > 0.0
    ensures a <= b ==> a * g <= b * g
    ensures a < b ==> a * g < b * g
  {
    if a < b { Positive(b - a, g, b * g - a * g); }
  }

  lemma Positive(a: real, b: real, p: real)
    requires a > 0.0 && b > 0.0 && p == a * b
    ensures p > 0.0
  {
  }

  /** An untouched chart returns to live by itself three minutes after its last gesture, unless paused. */
  lemma IdleReturnIff(v: TimeAxis, now: real)
    ensures IdleReturnDue(v, now) <==>
            !v.follow && !v.manualPersistent && v.lastInteraction.Some? && now - v.lastInteraction.value >= 180_000.0
  {
  }

  /** With several charts one Pause or one recent gesture holds them all; with none live returns at once. */
  lemma ReturnToLiveIff(last: Option<real>, now: real, follow: bool, manual: bool, charts: nat)
    ensures ShouldReturnToLive(last, now, follow, manual, charts) <==>
            !follow && (charts == 0 || (!manual && last.Some? && now - last.value >= 180_000.0))
  {
  }

  // ---- whole pixels ----

  /** A snapped edge stands a whole number of pixels from the epoch, and no further than half a pixel away. */
  lemma WholePixels(v: TimeAxis, edge: real) returns (px: int)
    ensures (v.QuantizeEdge(edge) - v.epoch) * Max(v.ppm, 0.000000001) == px as real
    ensures Abs((v.QuantizeEdge(edge) - edge) * Max(v.ppm, 0.000000001)) <= 0.5
  {
    px := v.Pixel(edge);
    var g := v.Guarded();
    var snapped := px as real / g;
    Snapped(edge - v.epoch, v.PixelsTo(edge), px, g, snapped);
    assert v.QuantizeEdge(edge) == snapped + v.epoch;
    assert v.QuantizeEdge(edge) - v.epoch == snapped && v.QuantizeEdge(edge) - edge == snapped - (edge - v.epoch);
  }

  lemma Snapped(rel: real, pixels: real, px: int, g: real, snapped: real)
    requires g > 0.0 && pixels == rel * g && Abs(pixels - px as real) <= 0.5 && snapped == px as real / g
    ensures snapped * g == px as real && Abs((snapped - rel) * g) <= 0.5
  {
    Undo(px as real, g);
    assert (snapped - rel) * g == snapped * g - rel * g;
  }

  lemma Undo(a: real, g: real)
    requires g > 0.0
    ensures a / g * g == a
  {
  }

  /** Parking, stopping the clock and following stand within half a pixel of the edge they are given. */
  lemma StopsStand(v: TimeAxis, now: real, edge: real)
    ensures var p := Park(v, now);
            && !p.follow && p.manualPersistent
            && if v.follow then WithinHalf(v, p.right, now + v.liveOffset) else p.right == v.right
    ensures !v.clockFrozen ==>
              var f := SetFrozen(v, true, now);
              && f.clockFrozen && f.follow == v.follow
              && if v.follow then WithinHalf(v, f.right, now + v.liveOffset) else f.right == v.right
    ensures if v.follow && !v.clockFrozen then WithinHalf(v, FollowEdge(v, edge).right, edge)
            else FollowEdge(v, edge) == v
  {
    HalfPixel(v, now + v.liveOffset);
    HalfPixel(v, edge);
  }

  lemma HalfPixel(v: TimeAxis, edge: real)
    ensures WithinHalf(v, v.QuantizeEdge(edge), edge)
  {
    var px := WholePixels(v, edge);
  }

  predicate WithinHalf(v: TimeAxis, right: real, edge: real) {
    Abs((right - edge) * Max(v.ppm, 0.000000001)) <= 0.5
  }

  /**
   A scale synced from another chart is taken over when it differs by more than a millionth; a live view
   stays at the live edge, every other one where it stands.
   */
  lemma SyncTakes(v: TimeAxis, ppm: real, now: real)
    requires 0.000000001 <= ppm <= 100.0 && Abs(v.ppm - ppm) > v.ppm * 0.000001
    ensures var s := Sync(v, Fin(ppm), now);
            && s.ppm == ppm && s.frame.None? && !s.xDefault && !s.xInit && s.lastInteraction == Some(now)
            && s.follow == v.follow && s.manualPersistent == v.manualPersistent
            && s.right == if v.follow && !v.clockFrozen then now + v.liveOffset else v.right
  {
  }

  // ---- the future clamp ----

  /** The window a plot shows. */
  function WindowOf(v: TimeAxis, areaW: real): real { areaW / Max(v.ppm, 0.000000001) }

  /**
   On a plot whose window is at most a year the clamp leaves a view alone exactly when the live edge is on
   the plot or right of it; otherwise it puts the live edge at the plot's left edge.
   */
  lemma ClampIff(v: TimeAxis, now: real, areaW: real)
    requires !v.follow && areaW >= 1.0 && 0.0 <= v.margin <= 1.0 && WindowOf(v, areaW) <= 31_536_000_000.0
    ensures var c := ClampFuture(v, now, areaW);
            && (c == v <==> v.TimeAt(areaW, 0.0) <= now + v.liveOffset)
            && (c != v ==> c.TimeAt(areaW, 0.0) == now + v.liveOffset && c == v.(right := c.right))
  {
    var w := WindowOf(v, areaW);
    var ahead := v.Ahead(w);
    assert w == v.Window(areaW);
    LeftOf(v, areaW, w);
    NonNegative(w, 1.0 - v.margin);
    assert ClampFuture(v, now, areaW) == if v.right <= now + v.liveOffset + ahead then v
                                         else v.(right := now + v.liveOffset + ahead);
    LeftOf(v.(right := now + v.liveOffset + ahead), areaW, w);
  }

  /** On a wider window the clamp holds the right edge within a year's window of live, less the margin. */
  lemma ClampCapped(v: TimeAxis, now: real, areaW: real)
    requires !v.follow && areaW >= 1.0 && 0.0 <= v.margin <= 1.0 && WindowOf(v, areaW) > 31_536_000_000.0
    ensures ClampFuture(v, now, areaW)
         == v.(right := Min(v.right, now + v.liveOffset + 31_536_000_000.0 * (1.0 - v.margin)))
  {
    assert WindowOf(v, areaW) == v.Window(areaW);
  }

  lemma NonNegative(a: real, b: real)
    requires a >= 0.0 && b >= 0.0
    ensures a * b >= 0.0
  {
  }

  /** The left edge of the plot stands a window, less the margin, before the right edge. */
  lemma LeftOf(v: TimeAxis, areaW: real, w: real)
    requires w == v.Window(areaW)
    ensures v.TimeAt(areaW, 0.0) == v.right - v.Ahead(w)
  {
    LeftAhead(v, areaW);
    assert 0.0 / v.Guarded() == 0.0;
  }

  // ---- zooms ----

  /** The narrowest window a gesture may settle on: its floor, the present window if narrower, never under 3 s. */
  function FloorWindow(v: TimeAxis, areaW: real, zoom: XZoom): real {
    Max(Min(if zoom == Super then 3_000.0 else 30_000.0, WindowOf(v, areaW)), 3_000.0)
  }

  /**
   A zoom multiplies the scale by its factor, and only the two limits of the window hold it back: the
   window becomes the asked one, a year if that is wider, or the floor if that is narrower.
   */
  lemma ZoomScales(v: TimeAxis, factor: real, areaW: real, zoom: XZoom)
    requires areaW >= 1.0 && v.ppm * factor > 0.0
    ensures var (asked, ppm) := (areaW / (v.ppm * factor), ZoomedPpm(v, factor, areaW, zoom));
            && ppm > 0.0
            && areaW / ppm == Min(Max(asked, FloorWindow(v, areaW, zoom)), 31_536_000_000.0)
  {
    var next, floor := v.ppm * factor, FloorWindow(v, areaW, zoom);
    assert floor == Max(Min(ZoomFloor(zoom), Max(areaW, 1.0) / v.Guarded()), SUPER_MIN_WINDOW_MS);
    ScaleAndWindow(areaW, next, floor, ZoomedPpm(v, factor, areaW, zoom));
  }

  lemma ScaleAndWindow(areaW: real, next: real, floor: real, ppm: real)
    requires areaW >= 1.0 && next > 0.0 && floor >= 3_000.0
    requires var (lo, hi) := (areaW / MAX_WINDOW_MS, Max(areaW / floor, areaW / MAX_WINDOW_MS));
             ppm == Clamp(next, lo, hi)
    ensures ppm > 0.0 && areaW / ppm == Min(Max(areaW / next, floor), 31_536_000_000.0)
  {
    DividesBack(areaW, MAX_WINDOW_MS);
    DividesBack(areaW, floor);
    DividesBack(areaW, next);
    DividesDown(areaW, MAX_WINDOW_MS, floor);
    DividesDown(areaW, next, areaW / MAX_WINDOW_MS);
    DividesDown(areaW, areaW / MAX_WINDOW_MS, next);
    DividesDown(areaW, next, areaW / floor);
    DividesDown(areaW, areaW / floor, next);
  }

  /** Which edges a zoom may stand at, in the terms of the view before it. */
  lemma MayStandIff(v: TimeAxis, factor: real, areaW: real, now: real, zoom: XZoom, edge: real)
    ensures var (live, window) := (now + v.liveOffset,
                                   areaW / Max(ZoomedPpm(v, factor, areaW, zoom), 0.000000001));
            MayStand(v, factor, areaW, now, zoom, edge) <==>
              && (edge <= v.right || edge <= live)
              && (areaW < 1.0 || edge <= live || edge <= live + Min(window, 31_536_000_000.0) * (1.0 - v.margin))
  {
    var z := Scaled(v, ZoomedPpm(v, factor, areaW, zoom), now);
    assert z.Window(areaW) == areaW / Max(ZoomedPpm(v, factor, areaW, zoom), 0.000000001);
  }

  /** Where the pointer is on the plot, a zoom holds on to that very point; off the plot, to the nearer end. */
  lemma PointerOnPlot(areaW: real, x: real)
    requires areaW >= 1.0
    ensures 0.0 <= x <= areaW ==> CursorIn(areaW, x) == x
    ensures x < 0.0 ==> CursorIn(areaW, x) == 0.0
    ensures x > areaW ==> CursorIn(areaW, x) == areaW
  {
  }

  // ---- frames ----

  /**
   Framing an interval of at least three seconds puts its ends exactly at the padding from the two ends of
   the plot, whenever the window that takes is between thirty seconds and a year.
   */
  lemma FrameFits(v: TimeAxis, start: real, end: real, areaW: real, padding: real)
    requires areaW >= 32.0 && 0.0 <= padding <= 0.45 && end - start >= 3_000.0
    requires 30_000.0 * (1.0 - 2.0 * padding) <= end - start <= 31_536_000_000.0 * (1.0 - 2.0 * padding)
    ensures var z := ShowRange(v, start, end, areaW, padding);
            && z.TimeAt(areaW, padding * areaW) == start && z.TimeAt(areaW, areaW - padding * areaW) == end
            && !z.follow && z.manualPersistent && !z.xDefault && !z.xInit
  {
    var k, span := 1.0 - 2.0 * padding, end - start;
    var w := span / k;
    WindowBetween(span, k, w);
    assert FramePad(padding) == padding;
    SameQuotient(Max(end - start, MIN_WINDOW_MS * 0.1), span, 1.0 - 2.0 * FramePad(padding), k);
    assert FrameWindow(start, end, padding) == w;
    FrameShows(v, start, end, areaW, padding);
    var z := ShowRange(v, start, end, areaW, padding);
    FrameScale(v, start, end, areaW, padding, w);
    FrameEnds(z, areaW, w, padding);
    assert w * k == w - 2.0 * (padding * w);
  }

  lemma FrameEnds(z: TimeAxis, areaW: real, w: real, padding: real)
    requires areaW > 0.0 && w > 0.0 && z.Guarded() == areaW / w
    ensures z.TimeAt(areaW, padding * areaW) == z.TimeAt(areaW, 0.0) + padding * w
    ensures z.TimeAt(areaW, areaW - padding * areaW) == z.TimeAt(areaW, 0.0) + (w - padding * w)
  {
    PlotPosition(areaW, w, padding, z.Guarded());
    AtPosition(z, areaW, padding * areaW, padding * w);
    AtPosition(z, areaW, areaW - padding * areaW, w - padding * w);
  }

  lemma WindowBetween(span: real, k: real, w: real)
    requires k > 0.0 && w == span / k && 30_000.0 * k <= span <= 31_536_000_000.0 * k
    ensures 30_000.0 <= w <= 31_536_000_000.0 && w * k == span
  {
    QuotientBack(span, k, w);
    Larger(w, 30_000.0, k, span, 30_000.0 * k);
    Larger(31_536_000_000.0, w, k, 31_536_000_000.0 * k, span);
  }

  lemma QuotientBack(a: real, g: real, q: real)
    requires g > 0.0 && q == a / g
    ensures q * g == a
  {
  }

  /** Products compare as their first factors do. */
  lemma Larger(a: real, b: real, g: real, p: real, q: real)
    requires g > 0.0 && p == a * g && q == b * g
    ensures a < b <==> p < q
  {
    Monotone(a, b, g);
    Monotone(b, a, g);
  }

  lemma SameQuotient(a: real, b: real, k: real, l: real)
    requires a == b && k == l && k != 0.0
    ensures a / k == b / l
  {
  }

  lemma FrameScale(v: TimeAxis, start: real, end: real, areaW: real, padding: real, w: real)
    requires start <= end && areaW >= 32.0 && w == FrameWindow(start, end, padding)
    ensures ShowRange(v, start, end, areaW, padding).Guarded() == areaW / w
  {
    DividesDown(areaW, MAX_WINDOW_MS, w);
    assert areaW / MAX_WINDOW_MS >= MIN_PX_PER_MS;
  }

  lemma PlotPosition(areaW: real, w: real, padding: real, g: real)
    requires areaW > 0.0 && w > 0.0 && g == areaW / w
    ensures g > 0.0 && padding * areaW / g == padding * w && (areaW - padding * areaW) / g == w - padding * w
  {
    DividesBack(areaW, w);
    assert areaW == w * g;
    var p := padding * w;
    Assoc(padding, w, g);
    QuotientIs(padding * areaW, p, g);
    assert (w - p) * g == w * g - p * g;
    QuotientIs(areaW - padding * areaW, w - p, g);
  }

  lemma Assoc(a: real, b: real, c: real)
    ensures a * b * c == a * (b * c)
  {
  }

  lemma QuotientIs(a: real, q: real, g: real)
    requires g > 0.0 && a == q * g
    ensures a / g == q
  {
  }

  lemma AtPosition(z: TimeAxis, areaW: real, x: real, t: real)
    requires x / z.Guarded() == t
    ensures z.TimeAt(areaW, x) == z.TimeAt(areaW, 0.0) + t
  {
    assert 0.0 / z.Guarded() == 0.0;
  }
}

/**
 The price axis in plain arithmetic: what a live, a historical and a fixed-percent frame draw, and what
 the price gestures do to the window (crates/moon-chart/src/view.rs).
 */
module ViewFit {
  import opened Floats
  import opened Seqs
  import opened ViewY

  /** The smallest window around a price: a millionth of it, or the least normal 32-bit float. */
  function Smallest(p: real): (r: real)
    ensures r > 0.0 && r == MinRange(p)
  {
    Max(Abs(p) / 1_000_000.0, 1.0 / 85070591730234615865843651857942052864.0)
  }

  /** A fitted window times the zoom, no smaller than the smallest. */
  function Drawn(fit: real, zoom: real, c: real): real { Max(fit * zoom, Smallest(c)) }

  lemma DrawnIs(fit: real, zoom: real, c: real)
    ensures Zoomed(fit, zoom, c) == Drawn(fit, zoom, c)
  {
  }

  // ---- live frames ----

  /** The price a live frame is about: the last one, or the middle of what is visible. */
  predicate IsLiveCentre(f: PriceFrame, c: real) {
    c == if f.last.Some? then f.last.value
         else if f.visible.Some? then (f.visible.value.0 + f.visible.value.1) / 2.0 else c
  }

  /** What a live automatic frame fits about a price: a fifth over the farther extreme, on both sides. */
  function LiveFit(c: real, lo: real, hi: real): real {
    Max(Max(c - lo, hi - c), Abs(c) / 2_000.0 + Smallest(c)) * 2.0 * 1.2
  }

  lemma LiveFitIs(v: PriceAxis, f: PriceFrame, lo: real, hi: real, c: real)
    requires f.live && v.auto && f.visible == Some((lo, hi)) && IsLiveCentre(f, c)
    ensures TargetCenter(f) == Some(c) && OwnRange(v, f, c) == Some(LiveFit(c, lo, hi))
    ensures LiveFit(c, lo, hi) >= 2.4 * Max(c - lo, hi - c) && LiveFit(c, lo, hi) > 0.0
  {
  }

  /**
   A live automatic frame makes room for both visible extremes about the last price, a fifth wider, at any
   zoom; and from a zoom of 1.15 / 1.2 on both are on screen about that price.
   */
  lemma LiveFitCovers(v: PriceAxis, f: PriceFrame, lo: real, hi: real, c: real, pow: (real, real) -> real)
    requires f.live && v.auto && !v.manual && f.visible == Some((lo, hi)) && IsLiveCentre(f, c)
    requires v.zoom > 0.0 && Smooths(v, f, pow)
    ensures var (u, half) := (UpdateY(v, f, pow), Max(c - lo, hi - c));
            && u.range >= Room(half, v.zoom)
            && (v.zoom * 1.2 >= 1.15 ==> c - u.renderRange / 2.0 <= lo && hi <= c + u.renderRange / 2.0)
  {
    LiveFitIs(v, f, lo, hi, c);
    LiveRangeCovers(v, f, c, LiveFit(c, lo, hi), pow);
    RoomFor(Max(c - lo, hi - c), LiveFit(c, lo, hi), v.zoom, c);
    HalfFits(Max(c - lo, hi - c), v.zoom, Zoomed(LiveFit(c, lo, hi), v.zoom, c), UpdateY(v, f, pow).renderRange);
  }

  /** Both sides of a price at the farther distance, a fifth wider, times the zoom. */
  function Room(half: real, zoom: real): real { 2.0 * 1.2 * half * zoom }

  lemma RoomFor(half: real, own: real, zoom: real, c: real)
    requires own >= 2.4 * half && zoom > 0.0
    ensures Zoomed(own, zoom, c) >= Room(half, zoom) && Zoomed(own, zoom, c) > 0.0
  {
    Enlarge(2.4 * half, own, zoom);
  }

  lemma Enlarge(a: real, b: real, k: real)
    requires a <= b && k > 0.0
    ensures a * k <= b * k
  {
    if a < b { assert (b - a) * k > 0.0; }
  }

  lemma HalfFits(half: real, zoom: real, target: real, drawn: real)
    requires target >= Room(half, zoom) && target > 0.0 && drawn * 1.15 >= target
    ensures zoom * 1.2 >= 1.15 ==> drawn >= 2.0 * half
  {
    if half > 0.0 && zoom * 1.2 >= 1.15 {
      var k := zoom * 1.2;
      assert Room(half, zoom) == 2.0 * half * k;
      assert 2.0 * half * (k - 1.15) >= 0.0;
    }
  }

  /** And it makes no more room than that: a first live frame draws exactly that fit, times the zoom. */
  lemma LiveFirstFit(v: PriceAxis, f: PriceFrame, lo: real, hi: real, c: real, pow: (real, real) -> real)
    requires f.live && v.auto && !v.manual && f.visible == Some((lo, hi)) && IsLiveCentre(f, c)
    requires v.center == 0.0 && v.renderRange <= Smallest(c)
    ensures var u := UpdateY(v, f, pow);
            u.center == c && u.renderRange == Drawn(LiveFit(c, lo, hi), v.zoom, c)
  {
    LiveFitIs(v, f, lo, hi, c);
    FirstFit(v, f, c, LiveFit(c, lo, hi), pow);
    DrawnIs(LiveFit(c, lo, hi), v.zoom, c);
  }

  lemma FirstFit(v: PriceAxis, f: PriceFrame, c: real, own: real, pow: (real, real) -> real)
    requires f.live && v.auto && !v.manual && TargetCenter(f) == Some(c) && OwnRange(v, f, c) == Some(own)
    requires v.center == 0.0 && v.renderRange <= MinRange(c)
    ensures var u := UpdateY(v, f, pow); u.center == c && u.renderRange == Zoomed(own, v.zoom, c)
  {
    var target := Zoomed(own, v.zoom, c);
    assert EaseRange(v, f, target, Lerp(AUTO_LERP, Elapsed(v, f.now), pow)) == target;
    var t := Repair(Fit(v, f, pow));
    assert t.center == c && t.range == target && t.renderRange == v.renderRange && t.auto && !t.manual;
    assert UpdateY(v, f, pow).renderRange == Render(t, f).renderRange;
  }

  /** The time a frame eases over, in sixtieths of a second: a millisecond to a quarter of a second, one at first. */
  function Frames(v: PriceAxis, now: real): real {
    (if v.lastUpdate <= 0.0 then 1000.0 / 60.0
     else if now - v.lastUpdate < 1.0 then 1.0
     else if now - v.lastUpdate > 250.0 then 250.0
     else now - v.lastUpdate) / (1000.0 / 60.0)
  }

  lemma LerpsAre(v: PriceAxis, now: real, pow: (real, real) -> real)
    ensures Lerp(AUTO_LERP, Elapsed(v, now), pow) == 1.0 - pow(0.85, Frames(v, now))
    ensures Lerp(TICK_LERP, Elapsed(v, now), pow) == 1.0 - pow(0.9, Frames(v, now))
  {
    assert Elapsed(v, now) / FRAME_REF == Frames(v, now);
    assert 1.0 - AUTO_LERP == 0.85 && 1.0 - TICK_LERP == 0.9;
  }

  /** A centre stays until the price has drifted a tenth of the window, and then closes in on it. */
  function EasedCentre(was: real, c: real, window: real, lerp: real): real {
    if window > Smallest(was) && Abs(c - was) / window > 0.1 then was + (c - was) * lerp else was
  }

  /** A window opens at once and eases shut. */
  function EasedWindow(was: real, fit: real, lerp: real): real {
    if fit > was then fit else was + (fit - was) * lerp
  }

  /**
   While nothing asks for a jump a live centre stays until the price has drifted a tenth of the window from
   it, and then closes in on it by a tenth a sixtieth of a second.
   */
  lemma LiveCentreEases(v: PriceAxis, f: PriceFrame, c: real, pow: (real, real) -> real)
    requires f.live && !v.manual && !v.snap && v.center != 0.0 && f.last == Some(c)
    ensures var fitted := Fit(v, f, pow);
            fitted.center == EasedCentre(v.center, c, fitted.range, 1.0 - pow(0.9, Frames(v, f.now)))
  {
    LerpsAre(v, f.now, pow);
    var lerp, fitted := Lerp(TICK_LERP, Elapsed(v, f.now), pow), Fit(v, f, pow);
    assert TargetCenter(f) == Some(c);
    assert fitted == EaseCenter(v.(range := fitted.range), f, c, lerp);
    CentreEases(v.(range := fitted.range), f, c, lerp);
  }

  lemma CentreEases(w: PriceAxis, f: PriceFrame, c: real, lerp: real)
    requires f.live && !w.snap && w.center != 0.0
    ensures EaseCenter(w, f, c, lerp).center == EasedCentre(w.center, c, w.range, lerp)
  {
  }

  /** A window eases shut by 0.15 a sixtieth of a second and opens at once, for any live automatic frame. */
  lemma LiveRangeEases(v: PriceAxis, f: PriceFrame, lo: real, hi: real, c: real, pow: (real, real) -> real)
    requires f.live && v.auto && !v.manual && f.visible == Some((lo, hi)) && IsLiveCentre(f, c)
    requires v.center != 0.0 && v.range > 0.0
    ensures Fit(v, f, pow).range
         == EasedWindow(v.range, Drawn(LiveFit(c, lo, hi), v.zoom, c), 1.0 - pow(0.85, Frames(v, f.now)))
  {
    LiveFitIs(v, f, lo, hi, c);
    LerpsAre(v, f.now, pow);
    DrawnIs(LiveFit(c, lo, hi), v.zoom, c);
    RangeEases(v, f, Drawn(LiveFit(c, lo, hi), v.zoom, c), Lerp(AUTO_LERP, Elapsed(v, f.now), pow));
    RangeIsEased(v, f, c, LiveFit(c, lo, hi), pow);
  }

  lemma RangeIsEased(v: PriceAxis, f: PriceFrame, c: real, own: real, pow: (real, real) -> real)
    requires !v.manual && TargetCenter(f) == Some(c) && OwnRange(v, f, c) == Some(own)
    ensures Fit(v, f, pow).range
         == EaseRange(v, f, Zoomed(own, v.zoom, c), Lerp(AUTO_LERP, Elapsed(v, f.now), pow))
  {
  }

  lemma RangeEases(v: PriceAxis, f: PriceFrame, fit: real, lerp: real)
    requires f.live && v.auto && v.center != 0.0 && v.range > 0.0
    ensures EaseRange(v, f, fit, lerp) == EasedWindow(v.range, fit, lerp)
  {
  }

  // ---- history frames ----

  /** What a historical automatic frame fits: a fifth over the visible span. */
  function HistoryFit(lo: real, hi: real): real {
    var mid := (lo + hi) / 2.0;
    Max(Abs(hi - lo), Abs(mid) / 2_000.0 + Smallest(mid)) * 1.2
  }

  /** The band from `c - r / 2` to `c + r / 2` holds both prices. */
  predicate Holds(c: real, r: real, lo: real, hi: real) { c - r / 2.0 <= lo && hi <= c + r / 2.0 }

  /** The window kept of one drawn before, for a new fit: the old one while the fit is within 15% of it. */
  function Kept(was: real, fit: real, smallest: real): real {
    if was > smallest && was / 1.15 <= fit <= was * 1.15 then was else fit
  }

  function PixelsPer(areaH: real, r: real, smallest: real): real
    requires smallest > 0.0
  {
    Max(areaH / Max(r, smallest), 0.000001)
  }

  /** The centre kept: the old one while the new is within eight pixels of it. */
  function KeptCentre(was: real, mid: real, px: real): real {
    if Pixels(Abs(mid - was), px) > 8.0 then mid else was
  }

  /**
   A historical automatic frame keeps the drawn window while its fit is within 15% of it, and the drawn
   centre while that is within eight pixels of the middle, unless what is kept would clip an extreme:
   then it draws the fit about the middle.
   */
  lemma HistoryDraws(v: PriceAxis, f: PriceFrame, lo: real, hi: real, pow: (real, real) -> real)
    requires HistoryFrame(v, f) && f.visible == Some((lo, hi))
    ensures var (u, mid) := (UpdateY(v, f, pow), (lo + hi) / 2.0);
            var fit := Drawn(HistoryFit(lo, hi), v.zoom, mid);
            var r := Kept(v.renderRange, fit, Smallest(mid));
            var c := KeptCentre(if v.snap then mid else v.renderCenter, mid, PixelsPer(f.areaH, r, Smallest(mid)));
            (u.renderCenter, u.renderRange) == if Holds(c, r, lo, hi) then (c, r) else (mid, fit)
  {
    var mid, t := (lo + hi) / 2.0, HistoryTarget(v, lo, hi);
    assert HistoryOwn(lo, hi) == HistoryFit(lo, hi);
    DrawnIs(HistoryFit(lo, hi), v.zoom, mid);
    assert t.center == mid && t.range == Drawn(HistoryFit(lo, hi), v.zoom, mid);
    TargetDraws(t, f, lo, hi);
    var shown := Unclip(t, Retained(t, f.areaH), f.visible);
    assert UpdateY(v, f, pow).renderCenter == shown.renderCenter;
    assert UpdateY(v, f, pow).renderRange == shown.renderRange;
  }

  lemma TargetDraws(t: PriceAxis, f: PriceFrame, lo: real, hi: real)
    requires t.auto && t.range >= Smallest(t.center) && f.visible == Some((lo, hi))
    ensures var shown := Unclip(t, Retained(t, f.areaH), f.visible);
            var r := Kept(t.renderRange, t.range, Smallest(t.center));
            var c := KeptCentre(t.renderCenter, t.center, PixelsPer(f.areaH, r, Smallest(t.center)));
            (shown.renderCenter, shown.renderRange) == if Holds(c, r, lo, hi) then (c, r) else (t.center, t.range)
  {
    var kept := Retained(t, f.areaH);
    var r := Kept(t.renderRange, t.range, Smallest(t.center));
    var px := PixelsPer(f.areaH, r, Smallest(t.center));
    assert kept.renderRange == r;
    CentreHeld(t.(renderRange := r), f.areaH, px);
  }

  lemma CentreHeld(t: PriceAxis, areaH: real, px: real)
    requires px == PixelsPer(areaH, t.renderRange, Smallest(t.center))
    ensures HoldCenter(t, areaH) == KeptCentre(t.renderCenter, t.center, px)
  {
    assert PxPerPrice(areaH, t.renderRange, t.center) == px;
    PixelsAre(Abs(t.center - t.renderCenter), px);
  }

  /** A stretch of price in pixels. */
  function Pixels(d: real, px: real): real { d * px }

  lemma PixelsAre(d: real, px: real)
    ensures OnScreen(d, px) == Pixels(d, px)
  {
  }

  // ---- fixed percent ----

  /** The price a percentage is of: the anchor, else the centre, else the price at hand. */
  function ReferencePrice(v: PriceAxis, c: real): real {
    if v.anchor > 0.0 then v.anchor else if v.center > 0.0 then v.center else Abs(c)
  }

  /** That part of the reference price, no smaller than the smallest window about it. */
  function PercentFit(reference: real, percent: real): real { Max(reference * percent, Smallest(reference)) }

  lemma PercentFitIs(v: PriceAxis, f: PriceFrame, c: real)
    requires !v.auto
    ensures OwnRange(v, f, c) == Some(PercentFit(ReferencePrice(v, c), v.percent))
  {
    var base := if v.Reference().Some? then v.Reference().value else Abs(c);
    assert base == ReferencePrice(v, c);
    assert PercentRange(base, v.percent) == PercentFit(base, v.percent);
  }

  /** A fixed percent draws that part of its reference price, times the zoom, about a centre that may jump. */
  lemma PercentDraws(v: PriceAxis, f: PriceFrame, lo: real, hi: real, c: real, pow: (real, real) -> real)
    requires !v.auto && !v.manual && f.visible == Some((lo, hi)) && (!f.live || v.snap || v.center == 0.0)
    requires if f.live then IsLiveCentre(f, c) else c == (lo + hi) / 2.0
    ensures UpdateY(v, f, pow).renderRange == Drawn(PercentFit(ReferencePrice(v, c), v.percent), v.zoom, c)
  {
    assert TargetCenter(f) == Some(c);
    PercentFitIs(v, f, c);
    PartDraws(v, f, c, PercentFit(ReferencePrice(v, c), v.percent), pow);
    DrawnIs(PercentFit(ReferencePrice(v, c), v.percent), v.zoom, c);
  }

  lemma PartDraws(v: PriceAxis, f: PriceFrame, c: real, part: real, pow: (real, real) -> real)
    requires !v.auto && !v.manual && TargetCenter(f) == Some(c) && OwnRange(v, f, c) == Some(part)
    requires !f.live || v.snap || v.center == 0.0
    ensures UpdateY(v, f, pow).renderRange == Zoomed(part, v.zoom, c)
  {
    var t := Repair(Fit(v, f, pow));
    assert t.center == c && t.range == Zoomed(part, v.zoom, c);
    assert UpdateY(v, f, pow).renderRange == Render(t, f).renderRange;
  }

  // ---- scale and gestures ----

  /** Every frame ends by recording its time, its pixel scale and, unless the user holds it, its reference. */
  lemma FrameEnds(v: PriceAxis, f: PriceFrame, pow: (real, real) -> real) returns (r: PriceAxis)
    ensures UpdateY(v, f, pow) == Finish(r, f) && r.anchor == v.anchor
  {
    r := Render(Repair(Fit(v, f, pow)), f);
  }

  /** The window drawn spans the plot: pixels per price times window is its height. */
  lemma WindowSpansPlot(v: PriceAxis, f: PriceFrame, pow: (real, real) -> real)
    ensures SpansPlot(UpdateY(v, f, pow), v, f)
  {
    var r := FrameEnds(v, f, pow);
    FinishSpans(r, v, f);
  }

  predicate SpansPlot(u: PriceAxis, v: PriceAxis, f: PriceFrame) {
    && u.lastUpdate == f.now
    && (u.renderRange >= Smallest(u.center) && f.areaH / u.renderRange >= 0.000001 ==> u.ppp * u.renderRange == f.areaH)
    && u.anchor == if !u.manual && u.renderCenter > 0.0 then u.renderCenter else v.anchor
  }

  lemma FinishSpans(r: PriceAxis, v: PriceAxis, f: PriceFrame)
    requires r.anchor == v.anchor
    ensures SpansPlot(Finish(r, f), v, f)
  {
    if r.renderRange >= Smallest(r.center) { Undo(f.areaH, r.renderRange); }
  }

  lemma Undo(a: real, b: real)
    requires b > 0.0
    ensures a / b * b == a
  {
  }

  /** A vertical drag moves the window by as many pixels as the pointer, and holds it there. */
  lemma PanFollowsPointer(v: PriceAxis, dy: real)
    requires v.ppp >= 0.000001
    ensures var p := PanY(v, dy);
            && (p.center - v.center) * v.ppp == dy && p.renderCenter == p.center
            && p.manual && !p.snap && p.range == v.range
  {
    Undo(dy, v.ppp);
    assert PanY(v, dy).center - v.center == dy / v.ppp;
  }

  /** A right-button drag draws the window pressed times its factor, at most fourfold either way, above the floor. */
  lemma DragDraws(v: PriceAxis, start: real, pressed: real, startZoom: Float, factor: real)
    requires pressed > 0.0
    ensures var u := RmbZoom(v, start, pressed, startZoom, factor);
            && u.renderRange == u.range
            && u.renderRange == Max(pressed * (if factor < 0.25 then 0.25 else if factor > 4.0 then 4.0 else factor),
                                    Smallest(start))
            && u.center == u.renderCenter == start && u.manual && !u.snap
  {
  }

  /** Locking a window shows exactly it, no smaller than the floor, and freezes the automatic fit. */
  lemma LockShows(v: PriceAxis, center: real, range: real)
    requires !SameWindow(v, center, range)
    ensures var u := SetWindow(v, center, range);
            && u.renderCenter == u.center == center && u.renderRange == u.range == Max(range, Smallest(center))
            && u.manual && !u.auto && !u.snap && (center > 0.0 ==> u.anchor == center)
  {
  }

  /** A window counts as locked already when both its centre and its size are within a floor of it. */
  lemma LockedAlready(v: PriceAxis, center: real, range: real)
    ensures SetWindow(v, center, range) == v <==>
            || (v.manual && Abs(v.center - center) < Smallest(center)
                && Abs(v.range - Max(range, Smallest(center))) < Smallest(center))
            || v == v.(auto := false, manual := true, snap := false, center := center, renderCenter := center,
                       range := Max(range, Smallest(center)), renderRange := Max(range, Smallest(center)),
                       anchor := if center > 0.0 then center else v.anchor)
  {
  }

  /** A window below the smallest becomes a tenth of the price, so nothing divides by it. */
  lemma DegenerateRepaired(v: PriceAxis)
    ensures Repair(v).range == if v.range >= Smallest(v.center) then v.range
                               else if v.center != 0.0 then Abs(v.center) / 10.0 else 1.0
  {
  }
}

/**
 The price axis of a chart view: the per-frame fit, the manual gestures, and what the history fit
 promises (crates/moon-chart/src/view.rs). The exponential smoothing of the live fit is a parameter.
 */
module ViewY {
  import opened Floats
  import opened Seqs

  const AUTO_LERP: real := 0.15
  const TICK_LERP: real := 0.10
  const CENTER_BUFFER: real := 0.10
  const RANGE_HYST: real := 1.15
  const CENTER_SNAP_PX: real := 8.0
  const FRAME_REF: real := 1000.0 / 60.0
  const MIN_RANGE_FRAC: real := 0.000001
  /** The least positive normal 32-bit float, two to the power of -126. */
  const MIN_POSITIVE: real := 1.0 / 85070591730234615865843651857942052864.0
  const PADDING: real := 1.20

  datatype PriceAxis = PriceAxis(
    center: real, range: real, auto: bool, manual: bool, percent: real, zoom: real, anchor: real,
    ppp: real, renderCenter: real, renderRange: real, lastUpdate: real, snap: bool)
  {
    /** Whether a price lies inside the rendered band. */
    predicate Shows(p: real) {
      renderCenter - renderRange * 0.5 <= p <= renderCenter + renderRange * 0.5
    }

    /** The price a scale percentage is measured against. */
    function Reference(): Option<real> {
      if anchor > 0.0 then Some(anchor) else if center > 0.0 then Some(center) else None
    }
  }

  type Band = Option<(real, real)>

  function MinRange(p: real): (r: real)
    ensures r > 0.0
  {
    Max(Abs(p) * MIN_RANGE_FRAC, MIN_POSITIVE)
  }

  function Mid(lo: real, hi: real): real { (lo + hi) * 0.5 }

  // ---- the per-frame fit ----

  /** One frame's inputs; `pow` stands for the floating-point power function. */
  datatype PriceFrame = PriceFrame(live: bool, now: real, areaH: real, visible: Band, last: Option<real>)

  function Elapsed(v: PriceAxis, now: real): real {
    if v.lastUpdate > 0.0 then Clamp(now - v.lastUpdate, 1.0, 250.0) else FRAME_REF
  }

  function Lerp(base: real, dt: real, pow: (real, real) -> real): real {
    1.0 - pow(1.0 - base, dt / FRAME_REF)
  }

  function TargetCenter(f: PriceFrame): Option<real> {
    var mid := if f.visible.Some? then Some(Mid(f.visible.value.0, f.visible.value.1)) else None;
    if f.live && f.last.Some? then f.last else mid
  }

  /** The window the picked scale fits on its own, before the zoom multiplier. */
  function OwnRange(v: PriceAxis, f: PriceFrame, c: real): Option<real> {
    if !v.auto then
      var base := if v.Reference().Some? then v.Reference().value else Abs(c);
      Some(PercentRange(base, v.percent))
    else if f.visible.Some? then
      var (lo, hi) := f.visible.value;
      if f.live then Some(Max(Max(c - lo, hi - c), Abs(c) * 0.0005 + MinRange(c)) * 2.0 * PADDING)
      else Some(HistoryOwn(lo, hi))
    else if f.live then Some(Max(Abs(c) * 0.001, MinRange(c)))
    else None
  }

  function PercentRange(base: real, percent: real): real {
    Max(base * percent, MinRange(base))
  }

  function HistoryOwn(lo: real, hi: real): real {
    var c := Mid(lo, hi);
    Max(Abs(hi - lo), Abs(c) * 0.0005 + MinRange(c)) * PADDING
  }

  /** Any window times the zoom multiplier, floored again. */
  function Zoomed(own: real, zoom: real, c: real): real {
    Max(own * zoom, MinRange(c))
  }

  function EaseRange(v: PriceAxis, f: PriceFrame, r: real, lerp: real): real {
    if f.live && v.auto && v.center != 0.0 && v.range > 0.0 && r <= v.range
    then Toward(v.range, r, lerp)
    else r
  }

  /** Moves the centre toward its target; consumes a pending snap. */
  function EaseCenter(v: PriceAxis, f: PriceFrame, c: real, lerp: real): PriceAxis {
    var w := v.(snap := false);
    if v.center == 0.0 || !f.live || v.snap then
      w.(center := c, renderCenter := if v.snap then c else v.renderCenter)
    else if v.range > MinRange(v.center) && Drift(v.center, c, v.range) > CENTER_BUFFER then
      w.(center := Toward(v.center, c, lerp))
    else w
  }

  /** How far a price stands from the centre, as a share of the window. */
  function Drift(center: real, c: real, range: real): real
    requires range > 0.0
  {
    Abs(c - center) / range
  }

  function Toward(from: real, to: real, lerp: real): real { from + (to - from) * lerp }

  /** The smooth target of this frame, before rendering. */
  function Fit(v: PriceAxis, f: PriceFrame, pow: (real, real) -> real): PriceAxis {
    var dt, target := Elapsed(v, f.now), TargetCenter(f);
    if v.manual || target.None? then v
    else
      var c := target.value;
      var own := OwnRange(v, f, c);
      var ranged := if own.None? then v
                    else v.(range := EaseRange(v, f, Zoomed(own.value, v.zoom, c), Lerp(AUTO_LERP, dt, pow)));
      EaseCenter(ranged, f, c, Lerp(TICK_LERP, dt, pow))
  }

  /** A degenerate window becomes a fraction of the price. */
  function Repair(v: PriceAxis): PriceAxis {
    if v.range >= MinRange(v.center) then v
    else v.(range := if Abs(v.center) > 0.0 then Abs(v.center) * 0.10 else 1.0)
  }

  /** Pixels per price unit at a rendered range. */
  function PxPerPrice(areaH: real, range: real, center: real): real {
    Max(areaH / Max(range, MinRange(center)), 0.000001)
  }

  /** The range shown: kept until the target leaves the hysteresis band. */
  function HoldRange(v: PriceAxis, target: real): real {
    if !v.auto || v.renderRange <= MinRange(v.center) || target > v.renderRange * RANGE_HYST
       || target < v.renderRange / RANGE_HYST
    then target else v.renderRange
  }

  function OnScreen(d: real, ppp: real): real { d * ppp }

  function HoldCenter(v: PriceAxis, areaH: real): real {
    if OnScreen(Abs(v.center - v.renderCenter), PxPerPrice(areaH, v.renderRange, v.center)) > CENTER_SNAP_PX
    then v.center else v.renderCenter
  }

  /** What hysteresis alone would show. */
  function Retained(v: PriceAxis, areaH: real): PriceAxis {
    var ranged := v.(renderRange := HoldRange(v, Max(v.range, MinRange(v.center))));
    ranged.(renderCenter := HoldCenter(ranged, areaH))
  }

  /** Refits at once when the retained band would clip the visible span. */
  function Unclip(v: PriceAxis, kept: PriceAxis, visible: Band): PriceAxis {
    if visible.Some? && !(kept.renderCenter - kept.renderRange * 0.5 <= visible.value.0
                          && visible.value.1 <= kept.renderCenter + kept.renderRange * 0.5)
    then kept.(renderCenter := v.center, renderRange := Max(v.range, MinRange(v.center)))
    else kept
  }

  function Render(v: PriceAxis, f: PriceFrame): PriceAxis {
    if !v.manual && (f.live || v.auto) then
      var kept := Retained(v, f.areaH);
      if f.live then kept
      else
        var shown := Unclip(v, kept, f.visible);
        shown.(center := shown.renderCenter, range := shown.renderRange)
    else v.(renderRange := Max(v.range, MinRange(v.center)), renderCenter := v.center)
  }

  /** Caches pixels per price and, unless the user holds the axis, re-anchors the scale reference. */
  function Finish(v: PriceAxis, f: PriceFrame): PriceAxis {
    v.(ppp := PxPerPrice(f.areaH, v.renderRange, v.center), lastUpdate := f.now,
       anchor := if !v.manual && v.renderCenter > 0.0 then v.renderCenter else v.anchor)
  }

  function UpdateY(v: PriceAxis, f: PriceFrame, pow: (real, real) -> real): PriceAxis {
    Finish(Render(Repair(Fit(v, f, pow)), f), f)
  }

  // ---- gestures ----

  function SetAuto(v: PriceAxis): PriceAxis {
    v.(auto := true, manual := false, zoom := 1.0)
  }

  function SetPercent(v: PriceAxis, percent: real): PriceAxis {
    var base := if v.Reference().Some? then v.Reference().value else v.range;
    var r := PercentRange(base, percent);
    v.(auto := false, manual := false, zoom := 1.0, percent := percent, range := r,
       renderRange := r, renderCenter := v.center)
  }

  predicate SameWindow(v: PriceAxis, center: real, range: real) {
    && v.manual
    && Abs(v.center - center) < MinRange(center)
    && Abs(v.range - Max(range, MinRange(center))) < MinRange(center)
  }

  function SetWindow(v: PriceAxis, center: real, range: real): PriceAxis {
    if SameWindow(v, center, range) then v
    else
      var r := Max(range, MinRange(center));
      v.(auto := false, manual := true, snap := false, center := center, range := r,
         renderCenter := center, renderRange := r, anchor := if center > 0.0 then center else v.anchor)
  }

  function PanY(v: PriceAxis, dy: real): PriceAxis {
    var c := v.center + dy / Max(v.ppp, 0.000001);
    v.(center := c, manual := true, snap := false, renderCenter := c)
  }

  /** The window a right-button drag draws; `factor` is two to the power of the travelled doublings. */
  function DragRange(startCenter: real, startRange: real, factor: real): real {
    Max(startRange * Clamp(factor, 0.25, 4.0), MinRange(startCenter))
  }

  /** The multiplier read back from the drawn window; a zero press-time window leaves it unchanged. */
  function DragZoom(zoom: real, startRange: real, startZoom: Float, r: real): real {
    var z := if startZoom.Fin? && startZoom.v > 0.0 then startZoom.v else 1.0;
    if startRange > 0.0 then r / (startRange / z) else zoom
  }

  function RmbZoom(v: PriceAxis, startCenter: real, startRange: real, startZoom: Float, factor: real): PriceAxis {
    var r := DragRange(startCenter, startRange, factor);
    v.(zoom := DragZoom(v.zoom, startRange, startZoom, r), center := startCenter, range := r, manual := true,
       snap := false, renderCenter := startCenter, renderRange := r)
  }

  function Center(v: PriceAxis): PriceAxis {
    v.(manual := false, snap := true)
  }

  // ---- the history fit ----

  /** Automatic scale, no manual view, and a frame that is not live. */
  predicate HistoryFrame(v: PriceAxis, f: PriceFrame) {
    !f.live && v.auto && !v.manual && f.visible.Some?
  }

  /** What rendering starts from in a history frame: the window's centre and its zoomed fit. */
  function HistoryTarget(v: PriceAxis, lo: real, hi: real): PriceAxis {
    v.(center := Mid(lo, hi), range := Zoomed(HistoryOwn(lo, hi), v.zoom, Mid(lo, hi)), snap := false,
       renderCenter := if v.snap then Mid(lo, hi) else v.renderCenter)
  }

  predicate CoversSpan(v: PriceAxis, lo: real, hi: real) {
    v.Shows(lo) && v.Shows(hi)
  }

  /**
   A history update shows both visible extremes exactly when the band hysteresis retains already covers
   them, or the zoomed fit is at least as wide as they are apart.
   */
  lemma HistoryShowsIff(v: PriceAxis, f: PriceFrame, pow: (real, real) -> real)
    requires HistoryFrame(v, f) && f.visible.value.0 <= f.visible.value.1
    ensures var (lo, hi) := f.visible.value;
            var t := HistoryTarget(v, lo, hi);
            CoversSpan(UpdateY(v, f, pow), lo, hi)
            <==> CoversSpan(Retained(t, f.areaH), lo, hi) || t.range >= hi - lo
  {
    var (lo, hi) := f.visible.value;
    var t := HistoryTarget(v, lo, hi);
    var shown, u := Unclip(t, Retained(t, f.areaH), f.visible), UpdateY(v, f, pow);
    assert u.renderCenter == shown.renderCenter && u.renderRange == shown.renderRange;
  }

  /** The padded fit covers the span whenever the zoom has not eaten the padding. */
  lemma FitCovers(lo: real, hi: real, zoom: real)
    requires lo <= hi && zoom * PADDING >= 1.0
    ensures Zoomed(HistoryOwn(lo, hi), zoom, Mid(lo, hi)) >= hi - lo
  {
    var wide := HistoryOwn(lo, hi) / PADDING;
    assert wide >= hi - lo;
    assert HistoryOwn(lo, hi) * zoom == wide * (zoom * PADDING);
    Scales(wide, zoom * PADDING);
  }

  lemma Scales(x: real, k: real)
    requires x >= 0.0 && k >= 1.0
    ensures x * k >= x
  {
    assert x * (k - 1.0) >= 0.0;
  }

  /**
   However hysteresis would have left the band, after a history update both visible extremes are on
   screen: for the plain scale and for any zoom that keeps the window at least the span's size.
   */
  lemma HistoryFitContains(v: PriceAxis, f: PriceFrame, pow: (real, real) -> real)
    requires HistoryFrame(v, f) && f.visible.value.0 <= f.visible.value.1 && v.zoom * PADDING >= 1.0
    ensures CoversSpan(UpdateY(v, f, pow), f.visible.value.0, f.visible.value.1)
  {
    FitCovers(f.visible.value.0, f.visible.value.1, v.zoom);
    HistoryShowsIff(v, f, pow);
  }

  /** A history frame of a sound view over positive prices. */
  predicate PricedFrame(v: PriceAxis, f: PriceFrame) {
    HistoryFrame(v, f) && PriceValid(v) && 0.0 < f.visible.value.0 <= f.visible.value.1
  }

  /** The promise at one zoom: no sound view and no window of prices is ever clipped. */
  ghost predicate NeverClips(zoom: real, pow: (real, real) -> real) {
    forall v: PriceAxis, f: PriceFrame ::
      PricedFrame(v, f) && v.zoom == zoom ==> CoversSpan(UpdateY(v, f, pow), f.visible.value.0, f.visible.value.1)
  }

  /** Prices from 1 to 3, fitted at a given zoom. */
  function ClippedAxis(zoom: real): PriceAxis {
    var fit := Zoomed(2.4, zoom, 2.0);
    PriceAxis(2.0, fit, true, false, 0.1, zoom, 2.0, 0.5, 2.0, fit, 0.0, false)
  }

  const CLIPPED_FRAME := PriceFrame(false, 0.0, 100.0, Some((1.0, 3.0)), None)

  lemma ZoomedInClips(zoom: real, pow: (real, real) -> real)
    requires 0.0 < zoom && zoom * PADDING < 1.0
    ensures PricedFrame(ClippedAxis(zoom), CLIPPED_FRAME)
    ensures !CoversSpan(UpdateY(ClippedAxis(zoom), CLIPPED_FRAME, pow), 1.0, 3.0)
  {
    var v := ClippedAxis(zoom);
    assert HistoryOwn(1.0, 3.0) == 2.4;
    var t := HistoryTarget(v, 1.0, 3.0);
    assert t.range == v.range < 2.0;
    assert Retained(t, 100.0).renderRange == t.range;
    HistoryShowsIff(v, CLIPPED_FRAME, pow);
  }

  /** A history fit at a positive zoom never clips exactly when the zoom leaves the padding standing. */
  lemma NeverClipsIff(zoom: real, pow: (real, real) -> real)
    requires zoom > 0.0
    ensures NeverClips(zoom, pow) <==> zoom * PADDING >= 1.0
  {
    if zoom * PADDING >= 1.0 {
      forall v: PriceAxis, f: PriceFrame | PricedFrame(v, f) && v.zoom == zoom
        ensures CoversSpan(UpdateY(v, f, pow), f.visible.value.0, f.visible.value.1)
      {
        HistoryFitContains(v, f, pow);
      }
    } else {
      ZoomedInClips(zoom, pow);
    }
  }

  // ---- a second frame ----

  /** The rendered part of a history frame. */
  function HistoryShown(t: PriceAxis, f: PriceFrame): PriceAxis {
    Unclip(t, Retained(t, f.areaH), f.visible)
  }

  /** Rendering from a band it has already rendered for the same target changes nothing. */
  lemma ShownIsSettled(t: PriceAxis, again: PriceAxis, f: PriceFrame, g: PriceFrame)
    requires t.auto && f.visible == g.visible && f.areaH == g.areaH
    requires var shown := HistoryShown(t, f);
             again.auto && again.center == t.center && again.range == t.range
             && again.renderCenter == shown.renderCenter && again.renderRange == shown.renderRange
    ensures var (shown, twice) := (HistoryShown(t, f), HistoryShown(again, g));
            twice.renderCenter == shown.renderCenter && twice.renderRange == shown.renderRange
  {
    var kept, target := Retained(t, f.areaH), Max(t.range, MinRange(t.center));
    assert kept.renderRange == target || (kept.renderRange == t.renderRange && HoldRange(t, target) == t.renderRange);
    assert HoldRange(again, target) == again.renderRange;
  }

  /**
   A second history update of the same window, at any later time and whatever the last price is,
   moves neither the rendered centre nor the rendered range.
   */
  lemma HistoryFitStable(v: PriceAxis, f: PriceFrame, g: PriceFrame, pow: (real, real) -> real)
    requires HistoryFrame(v, f) && !g.live && g.visible == f.visible && g.areaH == f.areaH
    ensures var (u, w) := (UpdateY(v, f, pow), UpdateY(UpdateY(v, f, pow), g, pow));
            w.renderCenter == u.renderCenter && w.renderRange == u.renderRange
  {
    var (lo, hi) := f.visible.value;
    var u := UpdateY(v, f, pow);
    ShownIsSettled(HistoryTarget(v, lo, hi), HistoryTarget(u, lo, hi), f, g);
  }

  // ---- manual views ----

  function UpdateAll(v: PriceAxis, fs: seq<PriceFrame>, pow: (real, real) -> real): PriceAxis
    decreases |fs|
  {
    if fs == [] then v else UpdateAll(UpdateY(v, fs[0], pow), fs[1..], pow)
  }

  /** A manual window at least as large as the floor. */
  predicate Held(v: PriceAxis) {
    && v.manual && v.range >= MinRange(v.center)
    && v.renderCenter == v.center && v.renderRange == v.range
  }

  /** However many frames pass, a view the user holds keeps its band and its scale reference. */
  lemma {:induction false} HeldViewStays(v: PriceAxis, fs: seq<PriceFrame>, pow: (real, real) -> real)
    requires Held(v)
    ensures var u := UpdateAll(v, fs, pow);
            && Held(u) && u.center == v.center && u.range == v.range
            && u.anchor == v.anchor && u.zoom == v.zoom
    decreases |fs|
  {
    if fs != [] {
      assert Held(UpdateY(v, fs[0], pow));
      HeldViewStays(UpdateY(v, fs[0], pow), fs[1..], pow);
    }
  }

  /** Every vertical drag, zoom and window lock leaves a held view, provided the window was not degenerate. */
  lemma GesturesHold(v: PriceAxis, dy: real, center: real, range: real, startZoom: Float, factor: real)
    ensures Held(RmbZoom(v, center, range, startZoom, factor))
    ensures !SameWindow(v, center, range) ==> Held(SetWindow(v, center, range))
    ensures var p := PanY(v, dy); v.renderRange == v.range >= MinRange(p.center) ==> Held(p)
  {
  }

  // ---- the right-button zoom ----

  /** The drawn window is the picked scale's own window times the multiplier, floored or not. */
  lemma DragFactorises(v: PriceAxis, center: real, range: real, zoom: real, factor: real)
    requires range > 0.0 && zoom > 0.0
    ensures var u := RmbZoom(v, center, range, Fin(zoom), factor);
            u.zoom > 0.0 && u.renderRange == range / zoom * u.zoom
  {
    var r, own := DragRange(center, range, factor), range / zoom;
    assert own > 0.0;
    assert r / own * own == r;
  }

  /** A window's own size depends only on the picked scale and the reference price. */
  lemma OwnSame(v: PriceAxis, w: PriceAxis, f: PriceFrame, c: real)
    requires v.auto == w.auto && v.percent == w.percent && v.anchor == w.anchor && v.center == w.center
    ensures OwnRange(v, f, c) == OwnRange(w, f, c)
  {
    assert v.Reference() == w.Reference();
  }

  lemma OwnPositive(v: PriceAxis, f: PriceFrame, c: real)
    ensures OwnRange(v, f, c).Some? ==> OwnRange(v, f, c).value > 0.0
  {
  }

  /** A drag over a window that was `own` at the multiplier `zoom` draws `own` at the new multiplier. */
  lemma DragFactors(v: PriceAxis, start: real, own: real, zoom: real, pressed: real, factor: real) returns (k: real)
    requires own > 0.0 && zoom > 0.0 && pressed == own * zoom
    ensures var d := RmbZoom(v, start, pressed, Fin(zoom), factor); d.zoom == k > 0.0 && d.renderRange == own * k
  {
    ProductPositive(own, zoom, pressed);
    DragFactorises(v, start, pressed, zoom, factor);
    DivideOut(own, zoom, pressed);
    k := RmbZoom(v, start, pressed, Fin(zoom), factor).zoom;
  }

  lemma ProductPositive(a: real, b: real, p: real)
    requires a > 0.0 && b > 0.0 && p == a * b
    ensures p > 0.0
  {
  }

  lemma DivideOut(a: real, b: real, p: real)
    requires b > 0.0 && p == a * b
    ensures p / b == a
  {
  }

  // ---- Center chart after a drag ----

  /** A view the user has just released by Center chart: its band is the window last drawn. */
  predicate Released(d: PriceAxis) {
    && !d.manual && d.snap && d.zoom > 0.0 && d.center == d.renderCenter
    && d.range == d.renderRange >= MinRange(d.center)
  }

  /** Whatever the press-time window was, a drag followed by Center chart leaves a released view. */
  lemma CenterReleases(v: PriceAxis, start: real, pressed: real, startZoom: Float, factor: real)
    requires v.zoom > 0.0
    ensures Released(Center(RmbZoom(v, start, pressed, startZoom, factor)))
  {
    DragZoomPositive(v.zoom, pressed, startZoom, DragRange(start, pressed, factor));
  }

  /** The window of the next frame's fit, eased as that frame eases it. */
  function NextFit(d: PriceAxis, f: PriceFrame, c: real, own: real, pow: (real, real) -> real): real {
    EaseRange(d, f, Zoomed(own, d.zoom, c), Lerp(AUTO_LERP, Elapsed(d, f.now), pow))
  }

  /** `x` is within the hysteresis of `w`. */
  predicate Near(x: real, w: real) { w / RANGE_HYST <= x <= w * RANGE_HYST }

  /**
   When the drawn window `w` outlives the next fit `s`: for Auto while `s` is within the hysteresis of it
   and, in history, `w` clips nothing; otherwise only if the fit is that very window.
   */
  predicate Survives(d: PriceAxis, f: PriceFrame, c: real, s: real) {
    var w := d.renderRange;
    || s == w
    || (d.auto && w > MinRange(c) && Near(s, w)
        && (f.live || f.visible.None? || f.visible.value.1 - f.visible.value.0 <= w))
  }

  /** Smoothing that neither overshoots nor turns back. */
  predicate Smooths(v: PriceAxis, f: PriceFrame, pow: (real, real) -> real) {
    0.0 <= Lerp(AUTO_LERP, Elapsed(v, f.now), pow) <= 1.0
  }

  /** The smooth target of the frame that snaps. */
  lemma SnapFits(d: PriceAxis, f: PriceFrame, c: real, own: real, pow: (real, real) -> real)
    requires Released(d) && TargetCenter(f) == Some(c) && OwnRange(d, f, c) == Some(own)
    requires NextFit(d, f, c, own, pow) >= MinRange(c)
    ensures Repair(Fit(d, f, pow))
         == d.(center := c, renderCenter := c, snap := false, range := NextFit(d, f, c, own, pow))
  {
  }

  /** How a frame renders a view about a centre already drawn. */
  lemma RenderSnapped(t: PriceAxis, f: PriceFrame)
    requires !t.manual && t.renderCenter == t.center && t.range >= MinRange(t.center) && t.renderRange > 0.0
    requires !f.live ==> f.visible.Some? && t.center == Mid(f.visible.value.0, f.visible.value.1)
    ensures var r := Render(t, f);
            && r.renderCenter == t.center
            && r.renderRange == if Survives(t, f, t.center, t.range) then t.renderRange else t.range
  {
    var kept := Retained(t, f.areaH);
    assert kept.renderCenter == t.center;
  }

  lemma SnapRenders(d: PriceAxis, f: PriceFrame, c: real, own: real, pow: (real, real) -> real)
    requires Released(d) && TargetCenter(f) == Some(c) && OwnRange(d, f, c) == Some(own)
    requires NextFit(d, f, c, own, pow) >= MinRange(c)
    ensures var (u, s) := (UpdateY(d, f, pow), NextFit(d, f, c, own, pow));
            u.renderCenter == c && u.renderRange == if Survives(d, f, c, s) then d.renderRange else s
  {
    SnapFits(d, f, c, own, pow);
    var t := d.(center := c, renderCenter := c, snap := false, range := NextFit(d, f, c, own, pow));
    RenderSnapped(t, f);
    assert UpdateY(d, f, pow) == Finish(Render(t, f), f);
    assert Survives(t, f, c, t.range) == Survives(d, f, c, t.range);
  }

  /**
   The first frame after Center chart, whatever window the drag was pressed at: the target is put in the
   middle, and the window drawn is kept exactly when it survives the next fit, else it is that fit.
   */
  lemma CenterWindowIff(d: PriceAxis, f: PriceFrame, c: real, own: real, pow: (real, real) -> real)
    requires Released(d) && TargetCenter(f) == Some(c) && OwnRange(d, f, c) == Some(own) && Smooths(d, f, pow)
    ensures var (u, s) := (UpdateY(d, f, pow), NextFit(d, f, c, own, pow));
            && u.renderCenter == c
            && u.renderRange == (if Survives(d, f, c, s) then d.renderRange else s)
            && (u.renderRange == d.renderRange <==> Survives(d, f, c, s))
  {
    EaseCovers(d, f, Zoomed(own, d.zoom, c), Lerp(AUTO_LERP, Elapsed(d, f.now), pow));
    SnapRenders(d, f, c, own, pow);
  }

  /** The next fit stands to the drawn window as the picked scale's fit stood to the window pressed. */
  lemma FitOfDrag(own: real, pressed: real, zoom: real, w: real, k: real, q: real)
    requires pressed > 0.0 && zoom > 0.0 && k == w / (pressed / zoom) && q == own * zoom / pressed
    ensures own * k == q * w
  {
    var unzoomed := pressed / zoom;
    assert unzoomed > 0.0 && unzoomed * zoom == pressed;
    Regroup(own, zoom, pressed, unzoomed, k, w, q);
  }

  lemma Regroup(own: real, zoom: real, pressed: real, unzoomed: real, k: real, w: real, q: real)
    requires pressed > 0.0 && unzoomed * zoom == pressed && k * unzoomed == w && q * pressed == own * zoom
    ensures own * k == q * w
  {
    assert own * k * pressed == own * w * zoom;
    assert q * w * pressed == own * w * zoom;
  }

  /** Scaling by a positive window changes neither a comparison nor an equality. */
  lemma ShareOf(w: real, e: real, x: real)
    requires w > 0.0 && x == e * w
    ensures (Near(x, w) <==> Near(e, 1.0)) && (x == w <==> e == 1.0) && (x <= w <==> e <= 1.0)
  {
    SameSign(e - 1.0, w, x - w);
    SameSign(e - RANGE_HYST, w, x - w * RANGE_HYST);
    SameSign(e - 1.0 / RANGE_HYST, w, x - w / RANGE_HYST);
  }

  lemma SameSign(a: real, w: real, p: real)
    requires w > 0.0 && p == a * w
    ensures (p >= 0.0 <==> a >= 0.0) && (p <= 0.0 <==> a <= 0.0)
  {
    if a > 0.0 { assert p > 0.0; } else if a < 0.0 { assert p < 0.0; }
  }

  /** How a fit `q` times the drawn window is eased, as a share of that window. */
  function EasedShare(q: real, lerp: real): real {
    if q <= 1.0 then Toward(1.0, q, lerp) else q
  }

  lemma TowardScales(w: real, q: real, fit: real, lerp: real)
    requires fit == q * w
    ensures Toward(w, fit, lerp) == Toward(1.0, q, lerp) * w
  {
    assert (fit - w) * lerp == (q - 1.0) * lerp * w;
  }

  /** Easing a scaled fit and comparing it with the window is easing and comparing the shares. */
  lemma EasedNear(w: real, q: real, fit: real, lerp: real)
    requires w > 0.0 && fit == q * w
    ensures Near(if fit <= w then Toward(w, fit, lerp) else fit, w) <==> Near(EasedShare(q, lerp), 1.0)
  {
    ShareOf(w, q, fit);
    if q <= 1.0 {
      TowardScales(w, q, fit, lerp);
      ShareOf(w, Toward(1.0, q, lerp), Toward(w, fit, lerp));
    }
  }

  /** What share of the window pressed the picked scale would have fitted. */
  function PressShare(own: real, zoom: real, pressed: real): real
    requires pressed > 0.0
  {
    own * zoom / pressed
  }

  function Times(q: real, w: real): real { q * w }

  /** Whether a window survives a fit that is `q` of it. */
  predicate ShareSurvives(d: PriceAxis, f: PriceFrame, w: real, q: real, lerp: real) {
    if !d.auto then q == 1.0
    else if f.live then Near(EasedShare(q, lerp), 1.0)
    else q == 1.0 || (Near(q, 1.0) && (f.visible.None? || f.visible.value.1 - f.visible.value.0 <= w))
  }

  lemma ShareDecides(d: PriceAxis, f: PriceFrame, c: real, q: real, fit: real, lerp: real)
    requires d.center != 0.0 && d.range == d.renderRange > MinRange(c) && fit == Times(q, d.renderRange)
    ensures Survives(d, f, c, EaseRange(d, f, fit, lerp)) <==> ShareSurvives(d, f, d.renderRange, q, lerp)
  {
    var w := d.renderRange;
    assert Near(w, w);
    if d.auto && f.live { EasedNear(w, q, fit, lerp); } else { ShareOf(w, q, fit); }
  }

  /**
   The same from the press: with no floor in play, whether Center chart keeps the window depends on the
   share `q` of the fit in the window pressed, not on how far the drag went. A percentage keeps it only
   at 1; live Auto while the eased share, and historical Auto while the share, is within the hysteresis.
   */
  lemma CenterKeepsIff(v: PriceAxis, f: PriceFrame, c: real, own: real, start: real, pressed: real, zoom: real,
                       factor: real, pow: (real, real) -> real)
    requires v.zoom > 0.0 && start != 0.0 && pressed > 0.0 && zoom > 0.0 && TargetCenter(f) == Some(c)
    requires OwnRange(v.(center := start), f, c) == Some(own) && Smooths(v, f, pow)
    requires DragRange(start, pressed, factor) > MinRange(c)
    requires Times(PressShare(own, zoom, pressed), DragRange(start, pressed, factor)) >= MinRange(c)
    ensures var dragged := RmbZoom(v, start, pressed, Fin(zoom), factor);
            var (w, q) := (dragged.renderRange, PressShare(own, zoom, pressed));
            UpdateY(Center(dragged), f, pow).renderRange == w
            <==> ShareSurvives(v, f, w, q, Lerp(AUTO_LERP, Elapsed(v, f.now), pow))
  {
    var d, q := Center(RmbZoom(v, start, pressed, Fin(zoom), factor)), PressShare(own, zoom, pressed);
    CenterReleases(v, start, pressed, Fin(zoom), factor);
    OwnSame(v.(center := start), d, f, c);
    var fit := DraggedFit(v, start, pressed, zoom, factor, own, q, c);
    var lerp := Lerp(AUTO_LERP, Elapsed(d, f.now), pow);
    FitSurvives(d, f, c, own, fit, lerp, pow);
    ShareDecides(d, f, c, q, fit, lerp);
  }

  /** The next fit of a dragged view, before any easing, when its floor is not in play. */
  lemma DraggedFit(v: PriceAxis, start: real, pressed: real, zoom: real, factor: real, own: real, q: real, c: real)
    returns (fit: real)
    requires pressed > 0.0 && zoom > 0.0 && q == PressShare(own, zoom, pressed)
    requires Times(q, DragRange(start, pressed, factor)) >= MinRange(c)
    ensures var d := Center(RmbZoom(v, start, pressed, Fin(zoom), factor));
            fit == Zoomed(own, d.zoom, c) && fit == Times(q, d.renderRange)
  {
    var d := RmbZoom(v, start, pressed, Fin(zoom), factor);
    fit := own * d.zoom;
    FitOfDrag(own, pressed, zoom, d.renderRange, d.zoom, q);
  }

  lemma FitSurvives(d: PriceAxis, f: PriceFrame, c: real, own: real, fit: real, lerp: real,
                    pow: (real, real) -> real)
    requires Released(d) && TargetCenter(f) == Some(c) && OwnRange(d, f, c) == Some(own) && Smooths(d, f, pow)
    requires fit == Zoomed(own, d.zoom, c) && lerp == Lerp(AUTO_LERP, Elapsed(d, f.now), pow)
    ensures UpdateY(d, f, pow).renderRange == d.renderRange <==> Survives(d, f, c, EaseRange(d, f, fit, lerp))
  {
    CenterWindowIff(d, f, c, own, pow);
  }

  /**
   A window pressed at the very fit of the picked scale is kept whatever the drag did, on live frames and
   in history, for Auto and for a percentage; only a floor of the new centre above it widens it.
   */
  lemma CenterKeepsDraggedWindow(v: PriceAxis, f: PriceFrame, c: real, own: real, start: real, zoom: real,
                                 factor: real, pow: (real, real) -> real)
    requires zoom > 0.0 && TargetCenter(f) == Some(c) && OwnRange(v.(center := start), f, c) == Some(own)
    ensures var dragged := RmbZoom(v, start, own * zoom, Fin(zoom), factor);
            var u := UpdateY(Center(dragged), f, pow);
            && u.renderCenter == c && u.renderRange == Max(dragged.renderRange, MinRange(c))
            && (start == c ==> u.renderRange == dragged.renderRange)
  {
    var pressed := own * zoom;
    var d := Center(RmbZoom(v, start, pressed, Fin(zoom), factor));
    OwnPositive(v.(center := start), f, c);
    OwnSame(v.(center := start), d, f, c);
    DraggedOwnFit(v, start, own, zoom, pressed, factor, c);
    OwnFitKept(d, f, c, own, pow);
  }

  /** Dragging a window pressed at its own fit leaves one that is its own fit. */
  lemma DraggedOwnFit(v: PriceAxis, start: real, own: real, zoom: real, pressed: real, factor: real, c: real)
    requires own > 0.0 && zoom > 0.0 && pressed == own * zoom
    ensures var d := Center(RmbZoom(v, start, pressed, Fin(zoom), factor));
            Released(d) && Zoomed(own, d.zoom, c) == Max(d.renderRange, MinRange(c))
  {
    var k := DragFactors(v, start, own, zoom, pressed, factor);
    FloorOf(own, k, RmbZoom(v, start, pressed, Fin(zoom), factor).renderRange, c);
  }

  lemma FloorOf(own: real, k: real, w: real, c: real)
    requires w == own * k
    ensures Zoomed(own, k, c) == Max(w, MinRange(c))
  {
  }

  /** A released view whose window is its own fit keeps it up to the floor, however the frame would ease. */
  lemma OwnFitKept(d: PriceAxis, f: PriceFrame, c: real, own: real, pow: (real, real) -> real)
    requires Released(d) && TargetCenter(f) == Some(c) && OwnRange(d, f, c) == Some(own)
    requires Zoomed(own, d.zoom, c) == Max(d.renderRange, MinRange(c))
    ensures var u := UpdateY(d, f, pow); u.renderCenter == c && u.renderRange == Max(d.renderRange, MinRange(c))
  {
    EaseToEqual(d, f, Zoomed(own, d.zoom, c), Lerp(AUTO_LERP, Elapsed(d, f.now), pow));
    SnapRenders(d, f, c, own, pow);
  }

  lemma EaseToEqual(v: PriceAxis, f: PriceFrame, r: real, lerp: real)
    requires r >= v.range
    ensures EaseRange(v, f, r, lerp) == r
  {
    if r == v.range { assert (r - v.range) * lerp == 0.0 * lerp; }
  }

  /** A live view holding half of what the market has come to span while it was held. */
  const OUTGROWN := PriceAxis(100.0, 12.0, true, false, 0.1, 1.0, 100.0, 50.0, 100.0, 12.0, 0.0, false)
  const WIDER_FRAME := PriceFrame(true, 1000.0, 600.0, Some((90.0, 110.0)), Some(100.0))

  /** Center chart after a drag that went nowhere then doubles the window. */
  lemma CenterRefitsOutgrown(pow: (real, real) -> real)
    ensures RmbZoom(OUTGROWN, 100.0, 12.0, Fin(1.0), 1.0).renderRange == 12.0
    ensures UpdateY(Center(RmbZoom(OUTGROWN, 100.0, 12.0, Fin(1.0), 1.0)), WIDER_FRAME, pow).renderRange == 24.0
  {
    var d := Center(RmbZoom(OUTGROWN, 100.0, 12.0, Fin(1.0), 1.0));
    CenterReleases(OUTGROWN, 100.0, 12.0, Fin(1.0), 1.0);
    assert d.zoom == 1.0;
    SnapRenders(d, WIDER_FRAME, 100.0, 24.0, pow);
  }

  // ---- scales ----

  /** The figure the scale badge shows, if there is one worth showing. */
  function VisiblePercent(v: PriceAxis): Option<real> {
    var r := v.Reference();
    if r.Some? && v.renderRange > 0.0 && v.renderRange / r.value * 100.0 < 100_000.0
    then Some(v.renderRange / r.value * 100.0) else None
  }

  /** Right after a percentage is picked the badge reports it, unless the window had to be floored. */
  lemma PercentIsReported(v: PriceAxis, percent: real, reference: real)
    requires v.Reference() == Some(reference) && MIN_RANGE_FRAC <= percent < 1000.0
    ensures reference * percent >= MIN_POSITIVE ==> VisiblePercent(SetPercent(v, percent)) == Some(percent * 100.0)
  {
    assert SetPercent(v, percent).Reference() == Some(reference);
    var r := reference * percent;
    if r >= MIN_POSITIVE {
      assert SetPercent(v, percent).renderRange == r;
      Ratio(reference, percent, r);
    }
  }

  lemma Ratio(a: real, b: real, r: real)
    requires a > 0.0 && r == a * b
    ensures r / a == b
  {
  }

  /** One easing step opens to its target at once and closes no further than it. */
  lemma EaseCovers(v: PriceAxis, f: PriceFrame, target: real, lerp: real)
    requires 0.0 <= lerp <= 1.0
    ensures target <= EaseRange(v, f, target, lerp) <= Max(target, v.range)
  {
    if target <= v.range { Between(v.range - target, lerp); }
  }

  lemma Between(d: real, k: real)
    requires d >= 0.0 && 0.0 <= k <= 1.0
    ensures 0.0 <= d * k <= d
  {
    assert d * (1.0 - k) >= 0.0;
  }

  /**
   A live automatic frame leaves the smooth window no narrower than the fit, and the rendered one
   short of it by the hysteresis factor at most, for any smoothing that does not overshoot.
   */
  lemma LiveRangeCovers(v: PriceAxis, f: PriceFrame, c: real, own: real, pow: (real, real) -> real)
    requires f.live && v.auto && !v.manual && TargetCenter(f) == Some(c) && OwnRange(v, f, c) == Some(own)
    requires 0.0 <= Lerp(AUTO_LERP, Elapsed(v, f.now), pow) <= 1.0
    ensures var (u, target) := (UpdateY(v, f, pow), Zoomed(own, v.zoom, c));
            u.range >= target && u.renderRange * RANGE_HYST >= target
  {
    var target := Zoomed(own, v.zoom, c);
    EaseCovers(v, f, target, Lerp(AUTO_LERP, Elapsed(v, f.now), pow));
    var fitted := Fit(v, f, pow);
    assert fitted.range >= target && fitted.auto && !fitted.manual;
    var t := Repair(fitted);
    RepairWidens(fitted);
    HoldCovers(t, Max(t.range, MinRange(t.center)));
    assert UpdateY(v, f, pow).renderRange == HoldRange(t, Max(t.range, MinRange(t.center)));
  }

  lemma RepairWidens(v: PriceAxis)
    requires v.range >= MIN_POSITIVE
    ensures Repair(v).range >= v.range && Repair(v).center == v.center
  {
  }

  lemma HoldCovers(v: PriceAxis, target: real)
    requires target > 0.0
    ensures HoldRange(v, target) * RANGE_HYST >= target
  {
  }

  /** Picking Auto shows the whole window of the next history frame, whatever zoom or drag came before. */
  lemma AutoShowsWindow(v: PriceAxis, f: PriceFrame, pow: (real, real) -> real)
    requires !f.live && f.visible.Some? && f.visible.value.0 <= f.visible.value.1
    ensures CoversSpan(UpdateY(SetAuto(v), f, pow), f.visible.value.0, f.visible.value.1)
  {
    HistoryFitContains(SetAuto(v), f, pow);
  }

  // ---- what every operation keeps ----

  /** The quantities other code divides by or multiplies into: all positive. */
  predicate PriceSane(zoom: real, range: real, renderRange: real, ppp: real) {
    zoom > 0.0 && range > 0.0 && renderRange > 0.0 && ppp > 0.0
  }

  predicate PriceValid(v: PriceAxis) {
    PriceSane(v.zoom, v.range, v.renderRange, v.ppp)
  }

  lemma DragZoomPositive(zoom: real, startRange: real, startZoom: Float, r: real)
    requires zoom > 0.0 && r > 0.0
    ensures DragZoom(zoom, startRange, startZoom, r) > 0.0
  {
    var z := if startZoom.Fin? && startZoom.v > 0.0 then startZoom.v else 1.0;
    if startRange > 0.0 {
      QuotientPositive(startRange, z);
      QuotientPositive(r, startRange / z);
    }
  }

  lemma QuotientPositive(a: real, b: real)
    requires a > 0.0 && b > 0.0
    ensures a / b > 0.0
  {
  }

  lemma UpdateKeepsValid(v: PriceAxis, f: PriceFrame, pow: (real, real) -> real)
    requires PriceValid(v)
    ensures PriceValid(UpdateY(v, f, pow))
  {
    var t := Repair(Fit(v, f, pow));
    assert t.zoom == v.zoom && t.range > 0.0 && t.renderRange == v.renderRange;
    var r := Render(t, f);
    assert r.zoom == v.zoom && r.range > 0.0 && r.renderRange > 0.0;
  }
}

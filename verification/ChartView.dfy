/**
 The mutable chart view: every method moves the time axis and the price axis exactly as their
 specifications say, and leaves the other axis alone (crates/moon-chart/src/view.rs).
 */
module ChartViews {
  import opened Floats
  import opened Seqs
  import opened ViewX
  import opened ViewY

  class ChartView {
    var epochMs: real
    var pxPerMs: real
    var rightTimeMs: real
    var follow: bool
    var liveOffsetMs: real
    var rightMarginFrac: real
    var centerPrice: real
    var priceRange: real
    var autoPrice: bool
    var manualPrice: bool
    var scalePercent: real
    var priceZoom: real
    var scaleAnchor: real
    var pxPerPrice: real
    var renderCenter: real
    var renderRange: real
    var xDefaultScale: bool
    var xInitPending: bool
    var lastPhaseAreaW: Option<real>
    var lastPhasePresentHz: Option<real>
    var phaseDefaultPxPerMs: real
    var lastUpdateMs: real
    var manualPersistent: bool
    var lastInteractionMs: Option<real>
    var clockFrozen: bool
    var frameRequest: Option<FrameRequest>
    var centerSnapPending: bool
    /** The farthest the right edge was ever entitled to stand: its start, a live edge seen, a frame shown. */
    ghost var farthest: real

    /** What callers rely on between any two calls. */
    ghost predicate Valid()
      reads this
    {
      && TimeSane(pxPerMs, follow, manualPersistent, frameRequest) && rightTimeMs <= farthest
      && PriceSane(priceZoom, priceRange, renderRange, pxPerPrice)
    }

    /** The time axis. */
    function X(): TimeAxis
      reads this`epochMs, this`pxPerMs, this`rightTimeMs, this`follow, this`liveOffsetMs,
            this`rightMarginFrac, this`xDefaultScale, this`xInitPending, this`phaseDefaultPxPerMs,
            this`manualPersistent, this`lastInteractionMs, this`clockFrozen, this`frameRequest,
            this`lastPhaseAreaW, this`lastPhasePresentHz
    {
      TimeAxis(epochMs, pxPerMs, rightTimeMs, follow, liveOffsetMs, rightMarginFrac, xDefaultScale, xInitPending,
        phaseDefaultPxPerMs, manualPersistent, lastInteractionMs, clockFrozen, frameRequest, lastPhaseAreaW,
        lastPhasePresentHz)
    }

    /** The price axis. */
    function Y(): PriceAxis
      reads this`centerPrice, this`priceRange, this`autoPrice, this`manualPrice, this`scalePercent,
            this`priceZoom, this`scaleAnchor, this`pxPerPrice, this`renderCenter, this`renderRange,
            this`lastUpdateMs, this`centerSnapPending
    {
      PriceAxis(centerPrice, priceRange, autoPrice, manualPrice, scalePercent, priceZoom, scaleAnchor, pxPerPrice,
        renderCenter, renderRange, lastUpdateMs, centerSnapPending)
    }

    constructor (epoch: real)
      ensures Valid() && farthest == epoch
      ensures X().follow && !X().manualPersistent && X().right == epoch && X().frame.None? && X().xInit
      ensures Y().auto && !Y().manual && Y().zoom == 1.0 && !Y().snap
    {
      epochMs, pxPerMs, rightTimeMs, follow := epoch, 0.05, epoch, true;
      liveOffsetMs, rightMarginFrac := 0.0, 0.10;
      centerPrice, priceRange, autoPrice, manualPrice := 0.0, 1.0, true, false;
      scalePercent, priceZoom, scaleAnchor, pxPerPrice := 0.10, 1.0, 0.0, 0.5;
      renderCenter, renderRange := 0.0, 1.0;
      xDefaultScale, xInitPending, lastPhaseAreaW, lastPhasePresentHz := true, true, None, None;
      phaseDefaultPxPerMs, lastUpdateMs := 0.0, 0.0;
      manualPersistent, lastInteractionMs, clockFrozen := false, None, false;
      frameRequest, centerSnapPending, farthest := None, false, epoch;
    }

    // ---- the time axis ----

    method ResumeLive(now: real)
      requires Valid()
      modifies this`farthest, this`frameRequest, this`follow, this`rightTimeMs, this`manualPersistent
      ensures Valid()
      ensures farthest <= Max(old(farthest), EdgeSeen(old(X()), GResume(now)))
      ensures X() == Resume(old(X()), now)
    {
      frameRequest := None;
      follow := true;
      rightTimeMs := X().LiveEdge(now);
      farthest := Max(farthest, rightTimeMs);
      manualPersistent := false;
    }

    method SetManualPersistent()
      requires Valid()
      modifies this`follow, this`manualPersistent
      ensures Valid()
      ensures X() == Persist(old(X()))
    {
      follow := false;
      manualPersistent := true;
    }

    method SetPxPerMsSync(ppm: Float, now: real) returns (changed: bool)
      requires Valid()
      modifies this`farthest, this`lastInteractionMs, this`frameRequest, this`pxPerMs, this`xDefaultScale,
               this`xInitPending, this`rightTimeMs
      ensures Valid()
      ensures farthest <= Max(old(farthest), EdgeSeen(old(X()), GSync(ppm, now)))
      ensures X() == Sync(old(X()), ppm, now)
      ensures changed ==> ppm.Fin? && pxPerMs == Clamp(ppm.v, MIN_PX_PER_MS, 100.0) && frameRequest.None?
      ensures !changed ==> X() == old(X()).(lastInteraction := X().lastInteraction)
    {
      if !ppm.Fin? || ppm.v <= 0.0 {
        return false;
      }
      lastInteractionMs := Some(now);
      var p := Clamp(ppm.v, MIN_PX_PER_MS, 100.0);
      if Abs(pxPerMs - p) <= pxPerMs * 0.000001 {
        return false;
      }
      frameRequest := None;
      pxPerMs := p;
      xDefaultScale := false;
      xInitPending := false;
      if follow && !clockFrozen {
        StandLive(now);
      }
      return true;
    }

    /** Puts the right edge at the live edge. */
    method StandLive(now: real)
      requires Valid()
      modifies this`farthest, this`rightTimeMs
      ensures Valid() && farthest <= Max(old(farthest), rightTimeMs)
      ensures X() == old(X()).(right := old(X()).LiveEdge(now))
    {
      rightTimeMs := X().LiveEdge(now);
      farthest := Max(farthest, rightTimeMs);
    }

    method SetLiveOffsetMs(offset: Float)
      requires Valid()
      modifies this`liveOffsetMs
      ensures Valid()
      ensures X() == SetOffset(old(X()), offset)
    {
      if offset.Fin? {
        liveOffsetMs := offset.v;
      }
    }

    method SetClockFrozen(frozen: bool, now: real) returns (changed: bool)
      requires Valid()
      modifies this`farthest, this`rightTimeMs, this`clockFrozen, this`frameRequest, this`follow, this`manualPersistent
      ensures Valid()
      ensures farthest <= Max(old(farthest), EdgeSeen(old(X()), GFreeze(frozen, now)))
      ensures X() == SetFrozen(old(X()), frozen, now)
      ensures changed <==> old(clockFrozen) != frozen
    {
      if clockFrozen == frozen {
        return false;
      }
      if frozen {
        if follow {
          rightTimeMs := X().QuantizeEdge(X().LiveEdge(now));
          farthest := Max(farthest, rightTimeMs);
        }
        clockFrozen := true;
      } else {
        clockFrozen := false;
        ResumeLive(now);
      }
      return true;
    }

    method ParkAtLiveEdge(now: real)
      requires Valid()
      modifies this`farthest, this`rightTimeMs, this`follow, this`manualPersistent
      ensures Valid()
      ensures farthest <= Max(old(farthest), EdgeSeen(old(X()), GPark(now)))
      ensures X() == Park(old(X()), now)
    {
      if follow {
        rightTimeMs := X().QuantizeEdge(X().LiveEdge(now));
        farthest := Max(farthest, rightTimeMs);
      }
      SetManualPersistent();
    }

    method FollowEdgeTo(edge: real)
      requires Valid()
      modifies this`farthest, this`rightTimeMs
      ensures Valid()
      ensures farthest <= Max(old(farthest), EdgeSeen(old(X()), GFollowEdge(edge)))
      ensures X() == FollowEdge(old(X()), edge)
    {
      if follow && !clockFrozen {
        rightTimeMs := X().QuantizeEdge(edge);
        farthest := Max(farthest, rightTimeMs);
      }
    }

    method ClampFutureAnchor(now: real, areaW: real) returns (moved: bool)
      requires Valid()
      modifies this`rightTimeMs
      ensures Valid()
      ensures X() == ClampFuture(old(X()), now, areaW)
      ensures moved <==> rightTimeMs != old(rightTimeMs)
    {
      if follow || rightTimeMs <= X().LiveEdge(now) || areaW < 1.0 {
        return false;
      }
      var ceiling := X().Ceiling(now, areaW);
      if rightTimeMs <= ceiling {
        return false;
      }
      rightTimeMs := ceiling;
      return true;
    }

    method SnapToLiveIfNear(now: real, areaW: real) returns (snapped: bool)
      requires Valid()
      modifies this`farthest, this`frameRequest, this`follow, this`rightTimeMs, this`manualPersistent
      ensures Valid()
      ensures farthest <= Max(old(farthest), EdgeSeen(old(X()), GSnap(now, areaW)))
      ensures X() == SnapIfNear(old(X()), now, areaW)
      ensures snapped <==> NearLive(old(X()), now, areaW)
    {
      if follow || manualPersistent {
        return false;
      }
      var tolerance := RejoinPx(areaW) / X().Guarded();
      if Abs(X().LiveEdge(now) - rightTimeMs) <= tolerance {
        ResumeLive(now);
        return true;
      }
      return false;
    }

    method PanXPx(dx: real, now: real, areaW: real)
      requires Valid()
      modifies this`farthest, this`lastInteractionMs, this`frameRequest, this`rightTimeMs, this`follow,
               this`manualPersistent
      ensures Valid()
      ensures farthest <= Max(old(farthest), EdgeSeen(old(X()), GPan(dx, now, areaW)))
      ensures X() == PanX(old(X()), dx, now, areaW)
    {
      ghost var v := X();
      var dt := dx / X().Guarded();
      lastInteractionMs := Some(now);
      frameRequest := None;
      StandAt(rightTimeMs - dt, now);
      assert X() == Dragged(v, dx, now);
      if dx < 0.0 {
        var _ := SnapToLiveIfNear(now, areaW);
      }
    }

    method ZoomXAt(factor: Float, areaW: real, cursorX: real, now: real, zoom: XZoom)
      requires Valid()
      modifies this`farthest, this`lastInteractionMs, this`frameRequest, this`pxPerMs, this`xDefaultScale,
               this`rightTimeMs, this`follow, this`manualPersistent
      ensures Valid()
      ensures farthest <= Max(old(farthest), EdgeSeen(old(X()), GZoom(factor, areaW, cursorX, now, zoom)))
      ensures X() == ZoomX(old(X()), factor, areaW, cursorX, now, zoom)
    {
      if !factor.Fin? || factor.v <= 0.0 {
        return;
      }
      var x := CursorIn(areaW, cursorX);
      var wasFollow, cursorTime := follow, X().TimeAt(areaW, x);
      ghost var v := X();
      Rescale(ZoomedPpm(X(), factor.v, areaW, zoom), now);
      if wasFollow && zoom == Plain {
        StayPinned(now);
        return;
      }
      StandAt(EdgeUnder(epochMs, rightMarginFrac, cursorTime, pxPerMs, areaW, x), now);
      assert X() == Anchored(v, pxPerMs, areaW, cursorX, now);
      var _ := ClampFutureAnchor(now, areaW);
      var _ := SnapToLiveIfNear(now, areaW);
    }

    /** Stays with live: at its edge, or wherever a stopped clock holds the anchor. */
    method StayPinned(now: real)
      requires Valid() && !manualPersistent
      modifies this`farthest, this`follow, this`rightTimeMs
      ensures Valid() && farthest <= Max(old(farthest), old(X()).LiveEdge(now))
      ensures X() == Pinned(old(X()), now)
    {
      if !clockFrozen {
        rightTimeMs := X().LiveEdge(now);
        farthest := Max(farthest, rightTimeMs);
      }
      follow := true;
    }

    /** Lets go of live and stands at an edge, no further ahead than the view was or live is. */
    method StandAt(edge: real, now: real)
      requires Valid()
      modifies this`farthest, this`follow, this`rightTimeMs
      ensures Valid() && farthest <= Max(old(farthest), old(X()).LiveEdge(now))
      ensures X() == old(X()).(follow := false, right := Min(edge, Max(old(rightTimeMs), old(X()).LiveEdge(now))))
    {
      farthest := Max(farthest, X().LiveEdge(now));
      follow := false;
      rightTimeMs := Min(edge, Max(rightTimeMs, X().LiveEdge(now)));
    }

    /** The part of a zoom that touches the scale alone. */
    method Rescale(ppm: real, now: real)
      requires Valid() && ppm > 0.0
      modifies this`lastInteractionMs, this`frameRequest, this`pxPerMs, this`xDefaultScale
      ensures Valid() && X() == Scaled(old(X()), ppm, now)
    {
      lastInteractionMs := Some(now);
      frameRequest := None;
      pxPerMs := ppm;
      xDefaultScale := Abs(pxPerMs - phaseDefaultPxPerMs) <= 0.000000001;
    }

    method ShowTimeRange(start: real, end: real, areaW: real, padding: real)
      requires Valid()
      modifies this`farthest, this`pxPerMs, this`rightTimeMs, this`xDefaultScale, this`xInitPending, this`follow,
               this`manualPersistent
      ensures Valid()
      ensures farthest <= Max(old(farthest), EdgeSeen(old(X()), GShowRange(start, end, areaW, padding)))
      ensures X() == ShowRange(old(X()), start, end, areaW, padding)
    {
      if end < start || areaW <= 0.0 {
        return;
      }
      var window := FrameWindow(start, end, padding);
      var left := start - window * FramePad(padding);
      StandFramed(Max(areaW / window, MIN_PX_PER_MS), left + window * (1.0 - rightMarginFrac));
      SetManualPersistent();
    }

    /** Takes a frame's scale and right edge, and leaves the default scale for good. */
    method StandFramed(ppm: real, right: real)
      requires Valid() && ppm > 0.0
      modifies this`farthest, this`pxPerMs, this`rightTimeMs, this`xDefaultScale, this`xInitPending
      ensures Valid() && farthest <= Max(old(farthest), right)
      ensures X() == old(X()).(ppm := ppm, right := right, xDefault := false, xInit := false)
    {
      pxPerMs := ppm;
      rightTimeMs := right;
      farthest := Max(farthest, right);
      xDefaultScale := false;
      xInitPending := false;
    }

    method RequestTimeRange(start: Float, end: Float, padding: real) returns (accepted: bool)
      requires Valid()
      modifies this`frameRequest, this`follow, this`manualPersistent
      ensures Valid()
      ensures X() == RequestRange(old(X()), start, end, padding)
      ensures accepted <==> start.Fin? && end.Fin? && start.v <= end.v
    {
      if !start.Fin? || !end.Fin? || end.v < start.v {
        return false;
      }
      frameRequest := Some(FrameRequest(start.v, end.v, padding, None));
      SetManualPersistent();
      return true;
    }

    method ApplyFrameRequest(areaW: real)
      requires Valid()
      modifies this`farthest, this`frameRequest, this`pxPerMs, this`rightTimeMs, this`xDefaultScale, this`xInitPending,
               this`follow, this`manualPersistent
      ensures Valid()
      ensures farthest <= Max(old(farthest), EdgeSeen(old(X()), GApplyFrame(areaW)))
      ensures X() == ApplyFrame(old(X()), areaW)
    {
      if frameRequest.None? {
        return;
      }
      var request := frameRequest.value;
      if areaW < MIN_FRAME_AREA_W || request.appliedW == Some(areaW) {
        return;
      }
      ShowTimeRange(request.start, request.end, areaW, request.padding);
      frameRequest := Some(request.(appliedW := Some(areaW)));
    }

    method EnsureDefaultWindow(areaW: real, presentHz: real, saved: Option<Float>, clean: real)
      requires Valid() && clean > 0.0
      modifies this`phaseDefaultPxPerMs, this`lastPhaseAreaW, this`lastPhasePresentHz, this`pxPerMs,
               this`xDefaultScale, this`xInitPending
      ensures Valid()
      ensures X() == EnsureDefault(old(X()), areaW, presentHz, saved, clean)
    {
      if areaW < 1.0 {
        return;
      }
      var areaChanged := WidthChanged(X(), areaW);
      RecordPhase(areaW, Max(presentHz, 1.0), clean);
      Refit(areaW, areaChanged, saved, clean);
    }

    method RecordPhase(areaW: real, hz: real, clean: real)
      requires Valid()
      modifies this`phaseDefaultPxPerMs, this`lastPhaseAreaW, this`lastPhasePresentHz
      ensures Valid() && X() == Phased(old(X()), areaW, hz, clean)
    {
      var hzChanged := lastPhasePresentHz.Some? && Abs(hz - lastPhasePresentHz.value) >= 0.5;
      if WidthChanged(X(), areaW) || hzChanged || xInitPending {
        phaseDefaultPxPerMs := clean;
        lastPhaseAreaW := Some(areaW);
        lastPhasePresentHz := Some(hz);
      }
    }

    method Refit(areaW: real, areaChanged: bool, saved: Option<Float>, clean: real)
      requires Valid() && areaW > 0.0 && clean > 0.0
      modifies this`pxPerMs, this`xDefaultScale, this`xInitPending
      ensures Valid() && X() == Refitted(old(X()), areaW, areaChanged, saved, clean)
    {
      if xInitPending && saved.Some? && saved.value.Fin? && saved.value.v > 0.0 {
        pxPerMs := Min(Max(saved.value.v, areaW / MAX_WINDOW_MS), 100.0);
        xDefaultScale := false;
        xInitPending := false;
        return;
      }
      if !xInitPending && !(xDefaultScale && areaChanged) {
        return;
      }
      pxPerMs := clean;
      xDefaultScale := true;
      xInitPending := false;
    }

    method ResetDefaultWindowOnNextPrepare()
      requires Valid()
      modifies this`xDefaultScale, this`xInitPending
      ensures Valid()
      ensures X() == ResetDefault(old(X()))
    {
      xDefaultScale := true;
      xInitPending := true;
    }

    // ---- the price axis ----

    method CenterOnPrice(now: real)
      requires Valid()
      modifies this`farthest, this`manualPrice, this`centerSnapPending, this`frameRequest, this`follow,
               this`rightTimeMs, this`manualPersistent
      ensures Valid()
      ensures farthest <= Max(old(farthest), EdgeSeen(old(X()), GCenter(now)))
      ensures X() == Resume(old(X()), now) && Y() == Center(old(Y()))
    {
      AskForCenter();
      ResumeLive(now);
    }

    /** The price half of Center chart: leaves the manual view and asks for a jump. */
    method AskForCenter()
      requires Valid()
      modifies this`manualPrice, this`centerSnapPending
      ensures Valid() && Y() == Center(old(Y()))
    {
      manualPrice := false;
      centerSnapPending := true;
    }

    method SetAutoPrice()
      requires Valid()
      modifies this`autoPrice, this`manualPrice, this`priceZoom
      ensures Valid()
      ensures Y() == SetAuto(old(Y()))
    {
      autoPrice := true;
      manualPrice := false;
      priceZoom := 1.0;
    }

    method SetScalePercent(percent: real)
      requires Valid()
      modifies this`autoPrice, this`manualPrice, this`priceZoom, this`scalePercent, this`priceRange,
               this`renderRange, this`renderCenter
      ensures Valid()
      ensures Y() == SetPercent(old(Y()), percent)
    {
      autoPrice := false;
      manualPrice := false;
      priceZoom := 1.0;
      scalePercent := percent;
      var reference := Y().Reference();
      var base := if reference.Some? then reference.value else priceRange;
      priceRange := PercentRange(base, percent);
      renderRange := priceRange;
      renderCenter := centerPrice;
    }

    method SetYWindow(center: real, range: real) returns (changed: bool)
      requires Valid()
      modifies this`autoPrice, this`manualPrice, this`centerSnapPending, this`centerPrice, this`priceRange,
               this`renderCenter, this`renderRange, this`scaleAnchor
      ensures Valid()
      ensures Y() == SetWindow(old(Y()), center, range)
      ensures changed <==> !SameWindow(old(Y()), center, range)
    {
      var r, eps := Max(range, MinRange(center)), MinRange(center);
      if manualPrice && Abs(centerPrice - center) < eps && Abs(priceRange - r) < eps {
        return false;
      }
      autoPrice := false;
      HoldWindow(center, r);
      if center > 0.0 {
        scaleAnchor := center;
      }
      return true;
    }

    method PanYPx(dy: real, now: real)
      requires Valid()
      modifies this`lastInteractionMs, this`centerPrice, this`manualPrice, this`centerSnapPending,
               this`renderCenter
      ensures Valid()
      ensures lastInteractionMs == Some(now) && Y() == PanY(old(Y()), dy)
    {
      lastInteractionMs := Some(now);
      var shift := dy / Max(pxPerPrice, 0.000001);
      centerPrice := centerPrice + shift;
      manualPrice := true;
      centerSnapPending := false;
      renderCenter := centerPrice;
    }

    method RmbZoomY(startCenter: real, startRange: real, startZoom: Float, factor: real, now: real)
      requires Valid()
      modifies this`lastInteractionMs, this`priceZoom, this`centerPrice, this`priceRange, this`manualPrice,
               this`centerSnapPending, this`renderCenter, this`renderRange
      ensures Valid()
      ensures lastInteractionMs == Some(now)
      ensures Y() == RmbZoom(old(Y()), startCenter, startRange, startZoom, factor)
    {
      lastInteractionMs := Some(now);
      var r := DragRange(startCenter, startRange, factor);
      DragZoomPositive(priceZoom, startRange, startZoom, r);
      priceZoom := DragZoom(priceZoom, startRange, startZoom, r);
      HoldWindow(startCenter, r);
    }

    /** Holds a window by hand, exactly as given. */
    method HoldWindow(center: real, range: real)
      requires Valid() && range > 0.0
      modifies this`centerPrice, this`priceRange, this`manualPrice, this`centerSnapPending, this`renderCenter,
               this`renderRange
      ensures Valid() && Y() == old(Y()).(center := center, range := range, manual := true, snap := false,
                                          renderCenter := center, renderRange := range)
    {
      centerPrice := center;
      priceRange := range;
      manualPrice := true;
      centerSnapPending := false;
      renderCenter := center;
      renderRange := range;
    }

    // ---- the per-frame price fit ----

    method AimCenter(f: PriceFrame, c: real, lerp: real)
      modifies this`centerPrice, this`renderCenter, this`centerSnapPending
      ensures Y() == EaseCenter(old(Y()), f, c, lerp)
    {
      var snap := centerSnapPending;
      centerSnapPending := false;
      if centerPrice == 0.0 || !f.live || snap {
        centerPrice := c;
        if snap {
          renderCenter := c;
        }
      } else if priceRange > MinRange(centerPrice) && Drift(centerPrice, c, priceRange) > CENTER_BUFFER {
        centerPrice := Toward(centerPrice, c, lerp);
      }
    }

    method FitPrice(f: PriceFrame, pow: (real, real) -> real)
      modifies this`priceRange, this`centerPrice, this`renderCenter, this`centerSnapPending
      ensures Y() == Fit(old(Y()), f, pow)
    {
      var dt, target := Elapsed(Y(), f.now), TargetCenter(f);
      if manualPrice || target.None? {
        return;
      }
      var own := OwnRange(Y(), f, target.value);
      if own.Some? {
        priceRange := EaseRange(Y(), f, Zoomed(own.value, priceZoom, target.value), Lerp(AUTO_LERP, dt, pow));
      }
      AimCenter(f, target.value, Lerp(TICK_LERP, dt, pow));
    }

    method RepairRange()
      modifies this`priceRange
      ensures Y() == Repair(old(Y()))
    {
      if priceRange < MinRange(centerPrice) {
        priceRange := if Abs(centerPrice) > 0.0 then Abs(centerPrice) * 0.10 else 1.0;
      }
    }

    method RenderPrice(f: PriceFrame)
      modifies this`priceRange, this`centerPrice, this`renderCenter, this`renderRange
      ensures Y() == Render(old(Y()), f)
    {
      if manualPrice || !(f.live || autoPrice) {
        renderRange := Max(priceRange, MinRange(centerPrice));
        renderCenter := centerPrice;
        return;
      }
      var target := Max(priceRange, MinRange(centerPrice));
      renderRange := HoldRange(Y(), target);
      renderCenter := HoldCenter(Y(), f.areaH);
      if f.live {
        return;
      }
      if f.visible.Some? {
        var (lo, hi) := f.visible.value;
        var half := renderRange * 0.5;
        if lo < renderCenter - half || hi > renderCenter + half {
          renderCenter := centerPrice;
          renderRange := target;
        }
      }
      centerPrice := renderCenter;
      priceRange := renderRange;
    }

    method CacheScale(f: PriceFrame)
      modifies this`pxPerPrice, this`lastUpdateMs, this`scaleAnchor
      ensures Y() == Finish(old(Y()), f)
    {
      pxPerPrice := PxPerPrice(f.areaH, renderRange, centerPrice);
      lastUpdateMs := f.now;
      if !manualPrice && renderCenter > 0.0 {
        scaleAnchor := renderCenter;
      }
    }

    method UpdateFrame(f: PriceFrame, pow: (real, real) -> real)
      modifies this`priceRange, this`centerPrice, this`renderCenter, this`renderRange, this`centerSnapPending,
               this`pxPerPrice, this`lastUpdateMs, this`scaleAnchor
      ensures Y() == ViewY.UpdateY(old(Y()), f, pow)
    {
      ghost var v := Y();
      FitPrice(f, pow);
      RepairRange();
      ghost var fitted := Repair(Fit(v, f, pow));
      assert Y() == fitted;
      RenderPrice(f);
      CacheScale(f);
      assert Y() == Finish(Render(fitted, f), f);
    }

    method UpdateY(now: real, areaH: real, visible: Band, last: Option<real>, pow: (real, real) -> real)
      requires Valid()
      modifies this`priceRange, this`centerPrice, this`renderCenter, this`renderRange, this`centerSnapPending,
               this`pxPerPrice, this`lastUpdateMs, this`scaleAnchor
      ensures Valid()
      ensures Y() == ViewY.UpdateY(old(Y()), PriceFrame(X().Live(), now, areaH, visible, last), pow)
    {
      UpdateKeepsValid(Y(), PriceFrame(X().Live(), now, areaH, visible, last), pow);
      UpdateFrame(PriceFrame(follow && !clockFrozen, now, areaH, visible, last), pow);
    }
  }
}

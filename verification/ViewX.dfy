/**
 The time axis of a chart view as a state machine: what each gesture does to it, and what holds over
 every run of gestures (crates/moon-chart/src/view.rs).
 */
module ViewX {
  import opened Floats
  import opened Seqs

  const MIN_PX_PER_MS: real := 0.000000001
  const MAX_WINDOW_MS: real := 31_536_000_000.0
  const MIN_WINDOW_MS: real := 30_000.0
  const SUPER_MIN_WINDOW_MS: real := 3_000.0
  const LIVE_REJOIN_FRAC: real := 0.05
  const LIVE_REJOIN_MIN_PX: real := 40.0
  const MIN_FRAME_AREA_W: real := 32.0
  const AUTO_RESUME_LIVE_MS: real := 180_000.0

  /** A framing request; `appliedW` is the width it was last honoured at. */
  datatype FrameRequest = FrameRequest(start: real, end: real, padding: real, appliedW: Option<real>)

  datatype XZoom = Plain | Ctrl | Super

  datatype TimeAxis = TimeAxis(
    epoch: real, ppm: real, right: real, follow: bool, liveOffset: real, margin: real,
    xDefault: bool, xInit: bool, phasePpm: real,
    manualPersistent: bool, lastInteraction: Option<real>, clockFrozen: bool, frame: Option<FrameRequest>,
    phaseArea: Option<real>, phaseHz: Option<real>)
  {
    function LiveEdge(now: real): real { now + liveOffset }

    predicate Live() { follow && !clockFrozen }

    function Guarded(): real { Max(ppm, MIN_PX_PER_MS) }

    function Window(areaW: real): real { areaW / Guarded() }

    /** Time at the left edge of the plot, relative to the epoch. */
    function LeftRel(areaW: real): real {
      (right - epoch) + Window(areaW) * margin - Window(areaW)
    }

    /** Absolute time drawn at plot coordinate `x`. */
    function TimeAt(areaW: real, x: real): real {
      epoch + LeftRel(areaW) + x / Guarded()
    }

    /** The right edge snapped to a whole pixel. */
    function QuantizeEdge(edge: real): real {
      Pixel(edge) as real / Guarded() + epoch
    }

    function Pixel(edge: real): (px: int)
      ensures Abs(PixelsTo(edge) - px as real) <= 0.5
    {
      RoundHalfAway(PixelsTo(edge))
    }

    function PixelsTo(edge: real): real { (edge - epoch) * Guarded() }

    /** Where the live edge reaches the left edge of the plot. */
    function Ceiling(now: real, areaW: real): real {
      LiveEdge(now) + Ahead(Min(Window(areaW), MAX_WINDOW_MS))
    }

    /** How far the right edge stands past the left one; the margin is drawn beyond it. */
    function Ahead(window: real): real { window * (1.0 - margin) }
  }

  // ---- one gesture each ----

  function Resume(v: TimeAxis, now: real): TimeAxis {
    v.(frame := None, follow := true, right := v.LiveEdge(now), manualPersistent := false)
  }

  function Persist(v: TimeAxis): TimeAxis {
    v.(follow := false, manualPersistent := true)
  }

  function RejoinPx(areaW: real): real {
    Max(Max(areaW, 1.0) * LIVE_REJOIN_FRAC, LIVE_REJOIN_MIN_PX)
  }

  predicate NearLive(v: TimeAxis, now: real, areaW: real) {
    && !v.follow && !v.manualPersistent
    && Abs(v.LiveEdge(now) - v.right) <= RejoinPx(areaW) / v.Guarded()
  }

  function SnapIfNear(v: TimeAxis, now: real, areaW: real): TimeAxis {
    if NearLive(v, now, areaW) then Resume(v, now) else v
  }

  function ClampFuture(v: TimeAxis, now: real, areaW: real): TimeAxis {
    if v.follow || v.right <= v.LiveEdge(now) || areaW < 1.0 then v
    else v.(right := Min(v.right, v.Ceiling(now, areaW)))
  }

  function Sync(v: TimeAxis, ppm: Float, now: real): TimeAxis {
    if !ppm.Fin? || ppm.v <= 0.0 then v
    else
      var noted := v.(lastInteraction := Some(now));
      var p := Clamp(ppm.v, MIN_PX_PER_MS, 100.0);
      if Abs(v.ppm - p) <= v.ppm * 0.000001 then noted
      else noted.(frame := None, ppm := p, xDefault := false, xInit := false,
                  right := if v.Live() then v.LiveEdge(now) else v.right)
  }

  function SetOffset(v: TimeAxis, offset: Float): TimeAxis {
    if offset.Fin? then v.(liveOffset := offset.v) else v
  }

  function SetFrozen(v: TimeAxis, frozen: bool, now: real): TimeAxis {
    if v.clockFrozen == frozen then v
    else if frozen then
      v.(right := if v.follow then v.QuantizeEdge(v.LiveEdge(now)) else v.right, clockFrozen := true)
    else Resume(v.(clockFrozen := false), now)
  }

  function Park(v: TimeAxis, now: real): TimeAxis {
    Persist(if v.follow then v.(right := v.QuantizeEdge(v.LiveEdge(now))) else v)
  }

  function FollowEdge(v: TimeAxis, edge: real): TimeAxis {
    if v.Live() then v.(right := v.QuantizeEdge(edge)) else v
  }

  /** Where a drag leaves the view before the pull-back is considered. */
  function Dragged(v: TimeAxis, dx: real, now: real): TimeAxis {
    v.(lastInteraction := Some(now), frame := None, follow := false,
       right := Min(v.right - dx / v.Guarded(), Max(v.right, v.LiveEdge(now))))
  }

  function PanX(v: TimeAxis, dx: real, now: real, areaW: real): TimeAxis {
    if dx < 0.0 then SnapIfNear(Dragged(v, dx, now), now, areaW) else Dragged(v, dx, now)
  }

  /** The scale a zoom step settles on: never below the gesture's window floor, never past the maximum. */
  function ZoomedPpm(v: TimeAxis, factor: real, areaW: real, zoom: XZoom): real {
    var lo := if areaW >= 1.0 then areaW / MAX_WINDOW_MS else 0.0005;
    var effective := Max(Min(ZoomFloor(zoom), Max(areaW, 1.0) / v.Guarded()), SUPER_MIN_WINDOW_MS);
    var hi := Max(Max(areaW, 1.0) / effective, lo);
    Clamp(v.ppm * factor, lo, hi)
  }

  function CursorIn(areaW: real, x: real): real {
    Clamp(x, 0.0, Max(areaW, 1.0))
  }

  /** The right edge that puts a time under the cursor at a new scale. */
  function EdgeUnder(epoch: real, margin: real, time: real, ppm: real, areaW: real, x: real): real
    requires ppm != 0.0
  {
    epoch + (time - epoch - x / ppm) + areaW / Max(ppm, MIN_PX_PER_MS) * (1.0 - margin)
  }

  function AnchorFor(v: TimeAxis, ppm: real, areaW: real, x: real): real
    requires ppm != 0.0
  {
    EdgeUnder(v.epoch, v.margin, v.TimeAt(areaW, x), ppm, areaW, x)
  }

  function Scaled(v: TimeAxis, ppm: real, now: real): TimeAxis {
    v.(lastInteraction := Some(now), frame := None, ppm := ppm, xDefault := Abs(ppm - v.phasePpm) <= 0.000000001)
  }

  /** The view scaled about the cursor, its right edge held at the live edge or where it already was. */
  function Anchored(v: TimeAxis, ppm: real, areaW: real, cursorX: real, now: real): TimeAxis
    requires ppm != 0.0
  {
    var anchor := AnchorFor(v, ppm, areaW, CursorIn(areaW, cursorX));
    Scaled(v, ppm, now).(follow := false, right := Min(anchor, Max(v.right, v.LiveEdge(now))))
  }

  /** Staying with live: at its edge, or wherever a stopped clock holds the anchor. */
  function Pinned(v: TimeAxis, now: real): TimeAxis {
    v.(follow := true, right := if v.clockFrozen then v.right else v.LiveEdge(now))
  }

  function ZoomX(v: TimeAxis, factor: Float, areaW: real, cursorX: real, now: real, zoom: XZoom): TimeAxis {
    if !factor.Fin? || factor.v <= 0.0 then v
    else
      var ppm := ZoomedPpm(v, factor.v, areaW, zoom);
      if v.follow && zoom == Plain then
        Pinned(Scaled(v, ppm, now), now)
      else
        SnapIfNear(ClampFuture(Anchored(v, ppm, areaW, cursorX, now), now, areaW), now, areaW)
  }

  function FramePad(padding: real): real { Clamp(padding, 0.0, 0.45) }

  /** The time span a framed interval is given, padding included. */
  function FrameWindow(start: real, end: real, padding: real): (w: real)
    ensures MIN_WINDOW_MS <= w <= MAX_WINDOW_MS
  {
    Clamp(Max(end - start, MIN_WINDOW_MS * 0.1) / (1.0 - 2.0 * FramePad(padding)), MIN_WINDOW_MS, MAX_WINDOW_MS)
  }

  function ShowRange(v: TimeAxis, start: real, end: real, areaW: real, padding: real): TimeAxis {
    if end < start || areaW <= 0.0 then v
    else
      var (pad, window) := (FramePad(padding), FrameWindow(start, end, padding));
      Persist(v.(ppm := Max(areaW / window, MIN_PX_PER_MS),
                 right := (start - window * pad) + window * (1.0 - v.margin),
                 xDefault := false, xInit := false))
  }

  function RequestRange(v: TimeAxis, start: Float, end: Float, padding: real): TimeAxis {
    if !start.Fin? || !end.Fin? || end.v < start.v then v
    else Persist(v.(frame := Some(FrameRequest(start.v, end.v, padding, None))))
  }

  function ApplyFrame(v: TimeAxis, areaW: real): TimeAxis {
    if v.frame.None? || areaW < MIN_FRAME_AREA_W || v.frame.value.appliedW == Some(areaW) then v
    else
      var f := v.frame.value;
      ShowRange(v, f.start, f.end, areaW, f.padding).(frame := Some(f.(appliedW := Some(areaW))))
  }

  /** Whether a width is new to the default scale: any shrink, or half a pixel of growth. */
  predicate WidthChanged(v: TimeAxis, areaW: real) {
    v.phaseArea.None? || !(0.0 <= areaW - v.phaseArea.value < 0.5)
  }

  /** Remembers the width, the refresh rate and their clean scale, if any of them is new. */
  function Phased(v: TimeAxis, areaW: real, hz: real, clean: real): TimeAxis {
    if WidthChanged(v, areaW) || (v.phaseHz.Some? && Abs(hz - v.phaseHz.value) >= 0.5) || v.xInit
    then v.(phasePpm := clean, phaseArea := Some(areaW), phaseHz := Some(hz))
    else v
  }

  /** Takes the saved scale during initialization, else the clean one where a refit is due. */
  function Refitted(v: TimeAxis, areaW: real, areaChanged: bool, saved: Option<Float>, clean: real): TimeAxis {
    if v.xInit && saved.Some? && saved.value.Fin? && saved.value.v > 0.0 then
      v.(ppm := Min(Max(saved.value.v, areaW / MAX_WINDOW_MS), 100.0), xDefault := false, xInit := false)
    else if v.xInit || (v.xDefault && areaChanged) then
      v.(ppm := clean, xDefault := true, xInit := false)
    else v
  }

  /**
   Refits the default scale; `clean` is the phase-clean scale of this width and refresh rate, and
   `saved` the user's own scale, honoured only during initialization.
   */
  function EnsureDefault(v: TimeAxis, areaW: real, presentHz: real, saved: Option<Float>, clean: real): TimeAxis {
    if areaW < 1.0 then v
    else Refitted(Phased(v, areaW, Max(presentHz, 1.0), clean), areaW, WidthChanged(v, areaW), saved, clean)
  }

  function ResetDefault(v: TimeAxis): TimeAxis { v.(xDefault := true, xInit := true) }

  /** A gesture that moves only prices still stamps the interaction clock. */
  function Touch(v: TimeAxis, now: real): TimeAxis { v.(lastInteraction := Some(now)) }

  // ---- runs ----

  datatype Gesture =
    | GPan(dx: real, now: real, areaW: real)
    | GZoom(factor: Float, areaW: real, cursorX: real, now: real, zoom: XZoom)
    | GSync(syncPpm: Float, now: real)
    | GClamp(now: real, areaW: real)
    | GSnap(now: real, areaW: real)
    | GOffset(offset: Float)
    | GFreeze(frozen: bool, now: real)
    | GPark(now: real)
    | GFollowEdge(edge: real)
    | GPause
    | GResume(now: real)
    | GCenter(now: real)
    | GRequest(start: Float, end: Float, padding: real)
    | GApplyFrame(areaW: real)
    | GShowRange(first: real, last: real, areaW: real, padding: real)
    | GEnsureDefault(areaW: real, presentHz: real, saved: Option<Float>, clean: real)
    | GResetDefault
    | GPriceDrag(now: real)
    | GPriceOnly

  function Step(v: TimeAxis, g: Gesture): TimeAxis {
    match g
    case GPan(dx, now, areaW) => PanX(v, dx, now, areaW)
    case GZoom(factor, areaW, cursorX, now, zoom) => ZoomX(v, factor, areaW, cursorX, now, zoom)
    case GSync(ppm, now) => Sync(v, ppm, now)
    case GClamp(now, areaW) => ClampFuture(v, now, areaW)
    case GSnap(now, areaW) => SnapIfNear(v, now, areaW)
    case GOffset(offset) => SetOffset(v, offset)
    case GFreeze(frozen, now) => SetFrozen(v, frozen, now)
    case GPark(now) => Park(v, now)
    case GFollowEdge(edge) => FollowEdge(v, edge)
    case GPause => Persist(v)
    case GResume(now) => Resume(v, now)
    case GCenter(now) => Resume(v, now)
    case GRequest(start, end, padding) => RequestRange(v, start, end, padding)
    case GApplyFrame(areaW) => ApplyFrame(v, areaW)
    case GShowRange(first, last, areaW, padding) => ShowRange(v, first, last, areaW, padding)
    case GEnsureDefault(areaW, hz, saved, clean) => EnsureDefault(v, areaW, hz, saved, clean)
    case GResetDefault => ResetDefault(v)
    case GPriceDrag(now) => Touch(v, now)
    case GPriceOnly => v
  }

  function Run(v: TimeAxis, gs: seq<Gesture>): TimeAxis {
    if gs == [] then v else Step(Run(v, gs[..|gs| - 1]), gs[|gs| - 1])
  }

  /** The Live button and its callers: Center chart, and restarting a stopped clock. */
  predicate AsksForLive(v: TimeAxis, g: Gesture) {
    g.GResume? || g.GCenter? || (g.GFreeze? && !g.frozen && v.clockFrozen)
  }

  /** No explicit Pause (or frame) is ever following. */
  predicate PauseConsistent(v: TimeAxis) {
    v.manualPersistent ==> !v.follow
  }

  /** What callers rely on: Pause excludes following, a scale to divide by, and a frame that has an interval. */
  predicate TimeSane(ppm: real, follow: bool, manualPersistent: bool, frame: Option<FrameRequest>) {
    && (manualPersistent ==> !follow) && ppm > 0.0
    && (frame.Some? ==> frame.value.start <= frame.value.end)
  }

  predicate TimeValid(v: TimeAxis) {
    TimeSane(v.ppm, v.follow, v.manualPersistent, v.frame)
  }

  /** A prepared frame brings a scale one can divide by. */
  predicate Sensible(g: Gesture) {
    g.GEnsureDefault? ==> g.clean > 0.0
  }

  lemma StepKeepsTimeValid(v: TimeAxis, g: Gesture)
    requires TimeValid(v) && Sensible(g)
    ensures TimeValid(Step(v, g))
  {
    match g
    case GZoom(factor, areaW, cursorX, now, zoom) => ZoomKeepsTimeValid(v, factor, areaW, cursorX, now, zoom);
    case GEnsureDefault(areaW, hz, saved, clean) => EnsureKeepsTimeValid(v, areaW, hz, saved, clean);
    case GShowRange(first, last, areaW, padding) => ShowKeepsTimeValid(v, first, last, areaW, padding);
    case GApplyFrame(areaW) =>
      if v.frame.Some? { ShowKeepsTimeValid(v, v.frame.value.start, v.frame.value.end, areaW, v.frame.value.padding); }
    case _ =>
  }

  lemma ZoomKeepsTimeValid(v: TimeAxis, factor: Float, areaW: real, cursorX: real, now: real, zoom: XZoom)
    requires TimeValid(v)
    ensures TimeValid(ZoomX(v, factor, areaW, cursorX, now, zoom))
  {
  }

  lemma EnsureKeepsTimeValid(v: TimeAxis, areaW: real, hz: real, saved: Option<Float>, clean: real)
    requires TimeValid(v) && clean > 0.0
    ensures TimeValid(EnsureDefault(v, areaW, hz, saved, clean))
  {
  }

  lemma ShowKeepsTimeValid(v: TimeAxis, start: real, end: real, areaW: real, padding: real)
    requires TimeValid(v)
    ensures TimeValid(ShowRange(v, start, end, areaW, padding))
  {
  }

  lemma StepKeepsPauseConsistent(v: TimeAxis, g: Gesture)
    requires PauseConsistent(v)
    ensures PauseConsistent(Step(v, g))
  {
  }

  /** A paused view leaves Pause exactly when something asks for live, and then it follows. */
  lemma PausedStep(v: TimeAxis, g: Gesture)
    requires v.manualPersistent && !v.follow
    ensures Step(v, g).follow <==> AsksForLive(v, g)
    ensures Step(v, g).manualPersistent <==> !AsksForLive(v, g)
  {
  }

  /** Over every run an explicit Pause and following exclude each other. */
  lemma {:induction false} PauseConsistentOverRuns(v: TimeAxis, gs: seq<Gesture>)
    requires PauseConsistent(v)
    ensures PauseConsistent(Run(v, gs))
  {
    if gs != [] {
      PauseConsistentOverRuns(v, gs[..|gs| - 1]);
      StepKeepsPauseConsistent(Run(v, gs[..|gs| - 1]), gs[|gs| - 1]);
    }
  }

  ghost predicate NobodyAsksForLive(v: TimeAxis, gs: seq<Gesture>) {
    forall i :: 0 <= i < |gs| ==> !AsksForLive(Run(v, gs[..i]), gs[i])
  }

  /** After an explicit Pause no sequence of other gestures restores follow. */
  lemma {:induction false} PauseHolds(v: TimeAxis, gs: seq<Gesture>)
    requires v.manualPersistent && !v.follow && NobodyAsksForLive(v, gs)
    ensures Run(v, gs).manualPersistent && !Run(v, gs).follow
  {
    if gs != [] {
      var init, last := gs[..|gs| - 1], gs[|gs| - 1];
      forall i | 0 <= i < |init|
        ensures !AsksForLive(Run(v, init[..i]), init[i])
      {
        assert init[..i] == gs[..i];
      }
      PauseHolds(v, init);
      assert gs[..|gs| - 1] == init && !AsksForLive(Run(v, gs[..|gs| - 1]), last);
      PausedStep(Run(v, init), last);
    }
  }

  // ---- idle return ----

  function ShouldReturnToLive(last: Option<real>, now: real, follow: bool, manual: bool, chartsOpen: nat): bool {
    if follow then false
    else if chartsOpen == 0 then true
    else if manual then false
    else last.Some? && now - last.value >= AUTO_RESUME_LIVE_MS
  }

  function IdleReturnDue(v: TimeAxis, now: real): bool {
    ShouldReturnToLive(v.lastInteraction, now, v.follow, v.manualPersistent, 1)
  }

  /** The idle timer never ends a Pause, over any run that nobody else ended it in. */
  lemma PauseNeverIdlesOut(v: TimeAxis, gs: seq<Gesture>, now: real)
    requires v.manualPersistent && !v.follow && NobodyAsksForLive(v, gs)
    ensures !IdleReturnDue(Run(v, gs), now)
  {
    PauseHolds(v, gs);
  }

  // ---- the stopped clock ----

  /** What may happen to a chart nobody drags: ticks, frames, syncs, price gestures and plain wheel notches. */
  predicate Passive(g: Gesture) {
    || g.GSync? || g.GClamp? || g.GSnap? || g.GOffset? || g.GFollowEdge? || g.GEnsureDefault? || g.GResetDefault?
    || g.GPriceDrag? || g.GPriceOnly? || (g.GZoom? && g.zoom == Plain) || (g.GFreeze? && g.frozen)
  }

  /** A chart whose clock was stopped at the live edge stands still there until it is dragged or restarted. */
  lemma {:induction false} FrozenStandsStill(v: TimeAxis, gs: seq<Gesture>)
    requires v.clockFrozen && v.follow && forall i :: 0 <= i < |gs| ==> Passive(gs[i])
    ensures var w := Run(v, gs); w.clockFrozen && w.follow && w.right == v.right
  {
    if gs != [] {
      FrozenStandsStill(v, gs[..|gs| - 1]);
    }
  }

  // ---- the right edge ----

  /** The newest live edge a gesture sees, whole-pixel where it quantizes; for a frame, where it stands. */
  function EdgeSeen(v: TimeAxis, g: Gesture): real {
    match g
    case GPan(_, now, _) => v.LiveEdge(now)
    case GZoom(_, _, _, now, _) => v.LiveEdge(now)
    case GSync(_, now) => v.LiveEdge(now)
    case GClamp(now, _) => v.LiveEdge(now)
    case GSnap(now, _) => v.LiveEdge(now)
    case GFreeze(frozen, now) => if frozen then v.QuantizeEdge(v.LiveEdge(now)) else v.LiveEdge(now)
    case GPark(now) => v.QuantizeEdge(v.LiveEdge(now))
    case GFollowEdge(edge) => v.QuantizeEdge(edge)
    case GResume(now) => v.LiveEdge(now)
    case GCenter(now) => v.LiveEdge(now)
    case GApplyFrame(areaW) => ApplyFrame(v, areaW).right
    case GShowRange(first, last, areaW, padding) => ShowRange(v, first, last, areaW, padding).right
    case _ => v.right
  }

  /** The largest of the initial right edge and every live edge seen or frame applied during a run. */
  ghost function FarthestEdge(v: TimeAxis, gs: seq<Gesture>): real {
    if gs == [] then v.right
    else Max(FarthestEdge(v, gs[..|gs| - 1]), EdgeSeen(Run(v, gs[..|gs| - 1]), gs[|gs| - 1]))
  }

  lemma StepBounded(v: TimeAxis, g: Gesture)
    ensures Step(v, g).right <= Max(v.right, EdgeSeen(v, g))
  {
    match g
    case GPan(dx, now, areaW) => PanBounded(v, dx, now, areaW);
    case GZoom(factor, areaW, cursorX, now, zoom) => ZoomBounded(v, factor, areaW, cursorX, now, zoom);
    case _ =>
  }

  lemma PanBounded(v: TimeAxis, dx: real, now: real, areaW: real)
    ensures PanX(v, dx, now, areaW).right <= Max(v.right, v.LiveEdge(now))
  {
  }

  lemma ZoomBounded(v: TimeAxis, factor: Float, areaW: real, cursorX: real, now: real, zoom: XZoom)
    ensures ZoomX(v, factor, areaW, cursorX, now, zoom).right <= Max(v.right, v.LiveEdge(now))
  {
  }

  /** However gestures interleave, only a frame can put the view further ahead than live ever was. */
  lemma {:induction false} RightEdgeBounded(v: TimeAxis, gs: seq<Gesture>)
    ensures Run(v, gs).right <= FarthestEdge(v, gs)
  {
    if gs != [] {
      RightEdgeBounded(v, gs[..|gs| - 1]);
      StepBounded(Run(v, gs[..|gs| - 1]), gs[|gs| - 1]);
    }
  }

  /** A quantized edge is within half a pixel of the edge itself. */
  lemma QuantizeIsClose(v: TimeAxis, edge: real)
    ensures Abs(v.QuantizeEdge(edge) - edge) * v.Guarded() <= 0.5
  {
    var g, px, e := v.Guarded(), v.Pixel(edge) as real, v.PixelsTo(edge);
    assert v.QuantizeEdge(edge) == px / g + v.epoch;
    var slip := px / g - (edge - v.epoch);
    AbsTimes(slip, g);
    assert Abs(slip * g) <= 0.5;
  }

  lemma AbsTimes(x: real, g: real)
    requires g > 0.0
    ensures Abs(x) * g == Abs(x * g)
  {
    if x >= 0.0 {
      assert x * g >= 0.0;
    } else {
      Grows(g, x, 0.0);
      assert Abs(x) * g == -(x * g);
    }
  }

  /** After the clamp the live edge of a view that does not follow is not left of the plot. */
  lemma ClampKeepsLiveEdgeVisible(v: TimeAxis, now: real, areaW: real)
    requires !v.follow && areaW >= 1.0 && v.margin <= 1.0
    ensures var c := ClampFuture(v, now, areaW); c.LiveEdge(now) >= c.epoch + c.LeftRel(areaW)
  {
    var w, c := v.Window(areaW), ClampFuture(v, now, areaW);
    AheadGrows(v, Min(w, MAX_WINDOW_MS), w);
    AheadGrows(v, 0.0, w);
    LeftAhead(c, areaW);
    assert c.Ahead(w) == v.Ahead(w);
  }

  lemma AheadGrows(v: TimeAxis, a: real, b: real)
    requires a <= b && v.margin <= 1.0
    ensures v.Ahead(a) <= v.Ahead(b)
  {
    ScaleUp(a, b, 1.0 - v.margin);
  }

  lemma LeftAhead(v: TimeAxis, areaW: real)
    ensures v.LeftRel(areaW) == v.right - v.epoch - v.Ahead(v.Window(areaW))
  {
    var w, m := v.Window(areaW), v.margin;
    assert w * (1.0 - m) == w - w * m;
  }

  lemma ScaleUp(a: real, b: real, k: real)
    requires a <= b && k >= 0.0
    ensures a * k <= b * k
  {
    if k == 0.0 {
      assert a * k == a * 0.0 && b * k == b * 0.0;
    } else if a < b {
      Grows(k, a, b);
    }
  }

  // ---- the scale of a zoom ----

  lemma DividesBack(a: real, b: real)
    requires a > 0.0 && b > 0.0
    ensures a / b > 0.0 && a / (a / b) == b
  {
    var p := a / b;
    assert p * b == a;
  }

  /** Dividing by more gives less. */
  lemma DividesDown(a: real, b: real, c: real)
    requires a > 0.0 && b > 0.0 && c > 0.0
    ensures a / b <= a / c <==> c <= b
  {
    if c < b {
      SlowerDivides(a, c, b);
    } else if b < c {
      SlowerDivides(a, b, c);
    }
  }

  function ZoomFloor(zoom: XZoom): real { if zoom == Super then SUPER_MIN_WINDOW_MS else MIN_WINDOW_MS }

  /**
   Whatever the factor, a zoom on a real plot settles on a window between three seconds and a year,
   and never under its gesture's floor unless the window already was.
   */
  lemma ZoomWindowBounded(v: TimeAxis, factor: real, areaW: real, zoom: XZoom)
    requires areaW >= 1.0
    ensures var window := areaW / ZoomedPpm(v, factor, areaW, zoom);
            && SUPER_MIN_WINDOW_MS <= window <= MAX_WINDOW_MS
            && Min(ZoomFloor(zoom), v.Window(areaW)) <= window
  {
    var narrowest := Narrowest(v, areaW, zoom);
    RealPlotScale(v, factor, areaW, zoom, v.ppm * factor);
    DividesDown(areaW, MAX_WINDOW_MS, narrowest);
    ScaleBetween(areaW, ZoomedPpm(v, factor, areaW, zoom), narrowest);
  }

  lemma ScaleBetween(areaW: real, p: real, narrowest: real)
    requires areaW > 0.0 && 0.0 < narrowest && areaW / MAX_WINDOW_MS <= p <= areaW / narrowest
    ensures p > 0.0 && narrowest <= areaW / p <= MAX_WINDOW_MS
  {
    DividesBack(areaW, MAX_WINDOW_MS);
    DividesBack(areaW, narrowest);
    DividesDown(areaW, areaW / narrowest, p);
    DividesDown(areaW, p, areaW / MAX_WINDOW_MS);
  }

  /**
   At any scale at all, a zoom-in step never coarsens it exactly while the window is at least three
   seconds wide: a scale synced from a narrower pane can be finer, and any zoom step then coarsens it.
   A plot under one pixel has a single scale, which every step settles on.
   */
  lemma ZoomInNeverWidensIff(v: TimeAxis, factor: real, areaW: real, zoom: XZoom)
    requires factor >= 1.0
    ensures areaW >= 1.0 ==>
              (ZoomedPpm(v, factor, areaW, zoom) >= v.ppm <==> v.Window(areaW) >= SUPER_MIN_WINDOW_MS)
    ensures areaW < 1.0 ==> ZoomedPpm(v, factor, areaW, zoom) == 0.0005
  {
    if areaW >= 1.0 {
      var next := v.ppm * factor;
      if v.ppm > 0.0 { Enlarges(v.ppm, factor, next); }
      RealPlotScale(v, factor, areaW, zoom, next);
      RealPlotZoomIn(v, areaW, zoom, next);
    } else {
      SubpixelScale(v, factor, areaW, zoom);
    }
  }

  lemma RealPlotZoomIn(v: TimeAxis, areaW: real, zoom: XZoom, next: real)
    requires areaW >= 1.0 && (v.ppm > 0.0 ==> next >= v.ppm)
    ensures Clamp(next, areaW / MAX_WINDOW_MS, Finest(v, areaW, zoom)) >= v.ppm
            <==> v.Window(areaW) >= SUPER_MIN_WINDOW_MS
  {
    FinestReaches(v.ppm, v.Guarded(), areaW, v.Window(areaW), Narrowest(v, areaW, zoom), ZoomFloor(zoom));
    DividesBack(areaW, MAX_WINDOW_MS);
    NeverCoarser(next, v.ppm, areaW / MAX_WINDOW_MS, Finest(v, areaW, zoom));
  }

  function Narrowest(v: TimeAxis, areaW: real, zoom: XZoom): (w: real)
    ensures w >= SUPER_MIN_WINDOW_MS
  {
    Max(Min(ZoomFloor(zoom), v.Window(areaW)), SUPER_MIN_WINDOW_MS)
  }

  function Finest(v: TimeAxis, areaW: real, zoom: XZoom): (p: real)
    ensures areaW / MAX_WINDOW_MS <= p
  {
    Max(areaW / Narrowest(v, areaW, zoom), areaW / MAX_WINDOW_MS)
  }

  lemma RealPlotScale(v: TimeAxis, factor: real, areaW: real, zoom: XZoom, next: real)
    requires areaW >= 1.0 && next == v.ppm * factor
    ensures ZoomedPpm(v, factor, areaW, zoom) == Clamp(next, areaW / MAX_WINDOW_MS, Finest(v, areaW, zoom))
  {
  }

  lemma SubpixelScale(v: TimeAxis, factor: real, areaW: real, zoom: XZoom)
    requires areaW < 1.0
    ensures ZoomedPpm(v, factor, areaW, zoom) == 0.0005
  {
    var narrowest := Max(Min(ZoomFloor(zoom), 1.0 / v.Guarded()), SUPER_MIN_WINDOW_MS);
    DividesDown(1.0, narrowest, SUPER_MIN_WINDOW_MS);
  }

  lemma Enlarges(ppm: real, factor: real, next: real)
    requires ppm > 0.0 && factor >= 1.0 && next == ppm * factor
    ensures next >= ppm
  {
    if factor > 1.0 { Grows(ppm, 1.0, factor); }
  }

  lemma NeverCoarser(next: real, ppm: real, lo: real, hi: real)
    requires 0.0 < lo <= hi && (ppm > 0.0 ==> next >= ppm)
    ensures Clamp(next, lo, hi) >= ppm <==> hi >= ppm
  {
  }

  /** The finest scale of a gesture is no coarser than the current one while the window is not under three seconds. */
  lemma FinestReaches(ppm: real, g: real, areaW: real, window: real, narrowest: real, floor: real)
    requires g == Max(ppm, MIN_PX_PER_MS) && areaW >= 1.0 && window == areaW / g
    requires SUPER_MIN_WINDOW_MS <= floor <= MIN_WINDOW_MS && narrowest == Max(Min(floor, window), SUPER_MIN_WINDOW_MS)
    ensures Max(areaW / narrowest, areaW / MAX_WINDOW_MS) >= ppm <==> window >= SUPER_MIN_WINDOW_MS
  {
    DividesDown(areaW, MAX_WINDOW_MS, narrowest);
    DividesBack(areaW, g);
    DividesDown(areaW, window, narrowest);
    if ppm < MIN_PX_PER_MS {
      assert window >= 1_000_000_000.0 by { GuardedWindow(areaW, window); }
    }
  }

  lemma GuardedWindow(areaW: real, window: real)
    requires areaW >= 1.0 && window == areaW / MIN_PX_PER_MS
    ensures window >= 1_000_000_000.0
  {
  }

  /** A one-second window, as a sync can set it: zooming in by half widens it. */
  lemma ZoomInCanWiden(v: TimeAxis)
    requires v.ppm == 1.0
    ensures ZoomedPpm(v, 1.5, 1000.0, Ctrl) < v.ppm
  {
    ZoomInNeverWidensIff(v, 1.5, 1000.0, Ctrl);
  }

  // ---- the default scale ----

  /**
   Preparing a frame rescales only a real plot that is initializing or whose width changed in default
   mode, and then to the saved scale or the clean one: never because the refresh rate alone moved.
   */
  lemma EnsureDefaultRescalesOnly(v: TimeAxis, areaW: real, presentHz: real, saved: Option<Float>, clean: real)
    ensures var p := EnsureDefault(v, areaW, presentHz, saved, clean).ppm;
            var wider := v.phaseArea.None? || areaW < v.phaseArea.value || areaW >= v.phaseArea.value + 0.5;
            var rescales := areaW >= 1.0 && (v.xInit || (v.xDefault && wider));
            var picks := v.xInit && saved.Some? && saved.value.Fin? && saved.value.v > 0.0;
            p == if !rescales then v.ppm
                 else if picks then Min(Max(saved.value.v, areaW / MAX_WINDOW_MS), 100.0)
                 else clean
  {
  }

  /** Once prepared at a width, further frames of that width keep the scale, whatever the rate or saved scale. */
  lemma EnsureDefaultSettles(v: TimeAxis, areaW: real, hz: real, saved: Option<Float>, clean: real,
                             laterHz: real, laterSaved: Option<Float>, laterClean: real)
    ensures var once := EnsureDefault(v, areaW, hz, saved, clean);
            var twice := EnsureDefault(once, areaW, laterHz, laterSaved, laterClean);
            twice.ppm == once.ppm && (twice.xDefault, twice.xInit) == (once.xDefault, once.xInit)
  {
  }

  // ---- framed intervals ----

  /** The first and the last instant on the plot. */
  function Shown(v: TimeAxis, areaW: real): (real, real) {
    (v.TimeAt(areaW, 0.0), v.TimeAt(areaW, areaW))
  }

  /** Framing shows the same instants at every real width, whatever the margin: the interval less its padding. */
  lemma FrameShows(v: TimeAxis, start: real, end: real, areaW: real, padding: real)
    requires start <= end && areaW >= MIN_FRAME_AREA_W
    ensures var left := start - FrameWindow(start, end, padding) * FramePad(padding);
            Shown(ShowRange(v, start, end, areaW, padding), areaW) == (left, left + FrameWindow(start, end, padding))
  {
    var window := FrameWindow(start, end, padding);
    var left := start - window * FramePad(padding);
    var z := ShowRange(v, start, end, areaW, padding);
    assert z.Guarded() == areaW / window && z.Window(areaW) == window;
    LeftAhead(z, areaW);
    assert z.right == left + z.Ahead(window);
  }

  /** So the whole interval is on the plot exactly when it and one padding fit the window. */
  lemma FrameContainsIff(v: TimeAxis, start: real, end: real, areaW: real, padding: real)
    requires start <= end && areaW >= MIN_FRAME_AREA_W
    ensures var shown := Shown(ShowRange(v, start, end, areaW, padding), areaW);
            var window := FrameWindow(start, end, padding);
            shown.0 <= start && (end <= shown.1 <==> end - start <= window - window * FramePad(padding))
  {
    FrameShows(v, start, end, areaW, padding);
  }

  /** Any interval that fits the widest window with its padding is shown whole. */
  lemma FrameContains(v: TimeAxis, start: real, end: real, areaW: real, padding: real)
    requires start <= end && areaW >= MIN_FRAME_AREA_W
    requires end - start <= MAX_WINDOW_MS * (1.0 - 2.0 * FramePad(padding))
    ensures var shown := Shown(ShowRange(v, start, end, areaW, padding), areaW); shown.0 <= start <= end <= shown.1
  {
    var pad, window := FramePad(padding), FrameWindow(start, end, padding);
    var k, span := 1.0 - 2.0 * pad, Max(end - start, MIN_WINDOW_MS * 0.1);
    WindowHolds(end - start, span, k, window);
    FrameContainsIff(v, start, end, areaW, padding);
  }

  lemma WindowHolds(span: real, asked: real, k: real, window: real)
    requires k > 0.0 && span <= asked && span <= MAX_WINDOW_MS * k
    requires window == Clamp(asked / k, MIN_WINDOW_MS, MAX_WINDOW_MS)
    ensures span <= window * k
  {
    var q := asked / k;
    assert q * k == asked;
    if q <= window {
      ScaleUp(q, window, k);
    }
  }

  /** A retained frame re-draws the same interval at any other real width, instead of a wider one. */
  lemma ResizeKeepsFrame(v: TimeAxis, first: real, second: real)
    requires v.frame.Some? && v.frame.value.appliedW.None? && v.frame.value.start <= v.frame.value.end
    requires first >= MIN_FRAME_AREA_W && second >= MIN_FRAME_AREA_W
    ensures var before := ApplyFrame(v, first); var after := ApplyFrame(before, second);
            Shown(after, second) == Shown(before, first) && after.frame.Some? && after.manualPersistent && !after.follow
  {
    var f, before := v.frame.value, ApplyFrame(v, first);
    FrameShows(v, f.start, f.end, first, f.padding);
    FrameShows(before, f.start, f.end, second, f.padding);
    FrameTag(ShowRange(v, f.start, f.end, first, f.padding), before, first);
    if first != second {
      FrameTag(ShowRange(before, f.start, f.end, second, f.padding), ApplyFrame(before, second), second);
    }
  }

  /** Marking a frame as honoured does not move the picture. */
  lemma FrameTag(a: TimeAxis, b: TimeAxis, areaW: real)
    requires b == a.(frame := b.frame)
    ensures Shown(a, areaW) == Shown(b, areaW)
  {
    assert a.Window(areaW) == b.Window(areaW);
    LeftAhead(a, areaW);
    LeftAhead(b, areaW);
    assert a.Ahead(a.Window(areaW)) == b.Ahead(b.Window(areaW));
  }

  // ---- pans and syncs ----

  /** Dragging into history moves the picture with the pointer, pixel for pixel, and leaves live. */
  lemma PanIntoHistory(v: TimeAxis, dx: real, now: real, areaW: real, x: real)
    requires dx >= 0.0
    ensures var p := PanX(v, dx, now, areaW);
            !p.follow && p.TimeAt(areaW, x + dx) == v.TimeAt(areaW, x)
  {
    SumOver(x, dx, v.Guarded());
    SameScale(Dragged(v, dx, now), v, areaW);
  }

  /**
   Dragging toward live rejoins exactly when the dragged view is near live; otherwise it moves the
   picture with the pointer, exactly unless it is cut at the live edge.
   */
  lemma PanTowardLive(v: TimeAxis, dx: real, now: real, areaW: real, x: real)
    requires dx < 0.0
    ensures PanX(v, dx, now, areaW).follow <==> NearLive(Dragged(v, dx, now), now, areaW)
    ensures !NearLive(Dragged(v, dx, now), now, areaW) ==>
              (PanX(v, dx, now, areaW).TimeAt(areaW, x + dx) == v.TimeAt(areaW, x)
               <==> v.right - dx / v.Guarded() <= Max(v.right, v.LiveEdge(now)))
  {
    var g, p := v.Guarded(), Dragged(v, dx, now);
    assert PanX(v, dx, now, areaW) == SnapIfNear(p, now, areaW);
    SumOver(x, dx, g);
    SameScale(p, v, areaW);
  }

  lemma SumOver(x: real, y: real, g: real)
    requires g > 0.0
    ensures (x + y) / g == x / g + y / g
  {
  }

  /** Views of one scale, origin and margin differ on screen by their right edges alone. */
  lemma SameScale(a: TimeAxis, b: TimeAxis, areaW: real)
    requires a.Guarded() == b.Guarded() && a.epoch == b.epoch && a.margin == b.margin
    ensures a.LeftRel(areaW) - b.LeftRel(areaW) == a.right - b.right
  {
    assert a.Window(areaW) == b.Window(areaW);
  }

  /** A repeated sync of one scale changes nothing more, so charts do not echo each other forever. */
  lemma SyncSettles(v: TimeAxis, ppm: Float, now: real, later: real)
    ensures var once := Sync(v, ppm, now);
            Sync(once, ppm, later) == if ppm.Fin? && ppm.v > 0.0 then Touch(once, later) else once
  {
  }

  // ---- the time under the cursor ----

  /** An unmodified notch on a following chart is pinned to live; every other zoom is anchored at the cursor. */
  predicate CursorAnchored(v: TimeAxis, zoom: XZoom) {
    !(v.follow && zoom == Plain)
  }

  /** The view a cursor-anchored zoom leaves before the pull-back is considered. */
  function Settled(v: TimeAxis, factor: real, areaW: real, cursorX: real, now: real, zoom: XZoom): TimeAxis {
    ClampFuture(Anchored(v, ZoomedPpm(v, factor, areaW, zoom), areaW, cursorX, now), now, areaW)
  }

  /** The right edge that would keep the time under the cursor. */
  function Anchor(v: TimeAxis, factor: real, areaW: real, cursorX: real, zoom: XZoom): real {
    AnchorFor(v, ZoomedPpm(v, factor, areaW, zoom), areaW, CursorIn(areaW, cursorX))
  }

  /** The edge may stand there: no further ahead than it was or live is, nor past the future ceiling. */
  predicate MayStand(v: TimeAxis, factor: real, areaW: real, now: real, zoom: XZoom, edge: real) {
    && edge <= Max(v.right, v.LiveEdge(now))
    && (areaW < 1.0 || edge <= v.LiveEdge(now)
        || edge <= Scaled(v, ZoomedPpm(v, factor, areaW, zoom), now).Ceiling(now, areaW))
  }

  /** An edge cut to the farthest one allowed, and past live to the ceiling of a real plot. */
  function CutEdge(edge: real, farthest: real, live: real, ceiling: real, areaW: real): real {
    var held := Min(edge, farthest);
    if held <= live || areaW < 1.0 then held else Min(held, ceiling)
  }

  lemma CutEdgeIff(edge: real, farthest: real, live: real, ceiling: real, areaW: real)
    ensures var cut := CutEdge(edge, farthest, live, ceiling, areaW);
            cut <= edge && (cut == edge <==> edge <= farthest && (areaW < 1.0 || edge <= live || edge <= ceiling))
  {
  }

  lemma SettledIsCut(v: TimeAxis, factor: real, areaW: real, cursorX: real, now: real, zoom: XZoom)
    ensures var live := v.LiveEdge(now);
            var ceiling := Scaled(v, ZoomedPpm(v, factor, areaW, zoom), now).Ceiling(now, areaW);
            Settled(v, factor, areaW, cursorX, now, zoom).right
            == CutEdge(Anchor(v, factor, areaW, cursorX, zoom), Max(v.right, live), live, ceiling, areaW)
  {
    var ppm := ZoomedPpm(v, factor, areaW, zoom);
    CeilingOfScale(Anchored(v, ppm, areaW, cursorX, now), Scaled(v, ppm, now), now, areaW);
  }

  lemma CeilingOfScale(a: TimeAxis, b: TimeAxis, now: real, areaW: real)
    requires a.ppm == b.ppm && a.margin == b.margin && a.liveOffset == b.liveOffset
    ensures a.Ceiling(now, areaW) == b.Ceiling(now, areaW)
  {
    assert a.Window(areaW) == b.Window(areaW);
    assert a.Ahead(Min(a.Window(areaW), MAX_WINDOW_MS)) == b.Ahead(Min(b.Window(areaW), MAX_WINDOW_MS));
  }

  /**
   The edge a cursor-anchored zoom settles on is never past the anchor, and is the anchor exactly when
   that may stand: no further ahead than the view was or live is, and not past the future ceiling.
   */
  lemma ZoomCutIff(v: TimeAxis, factor: real, areaW: real, cursorX: real, now: real, zoom: XZoom)
    ensures var (edge, a) := (Settled(v, factor, areaW, cursorX, now, zoom).right,
                              Anchor(v, factor, areaW, cursorX, zoom));
            edge <= a && (edge == a <==> MayStand(v, factor, areaW, now, zoom, a))
  {
    var live := v.LiveEdge(now);
    var ceiling := Scaled(v, ZoomedPpm(v, factor, areaW, zoom), now).Ceiling(now, areaW);
    SettledIsCut(v, factor, areaW, cursorX, now, zoom);
    CutEdgeIff(Anchor(v, factor, areaW, cursorX, zoom), Max(v.right, live), live, ceiling, areaW);
  }

  /**
   Whether a zoom leaves the view following: a pinned notch does and keeps it at the live edge unless
   the clock is stopped; a cursor-anchored one does exactly when its settled view is near live.
   */
  lemma ZoomRejoinsIff(v: TimeAxis, factor: real, areaW: real, cursorX: real, now: real, zoom: XZoom)
    requires factor > 0.0
    ensures var z := ZoomX(v, Fin(factor), areaW, cursorX, now, zoom);
            if CursorAnchored(v, zoom) then
              var settled := Settled(v, factor, areaW, cursorX, now, zoom);
              && (z.follow <==> NearLive(settled, now, areaW))
              && z.right == if z.follow then v.LiveEdge(now) else settled.right
            else z.follow && z.right == if v.clockFrozen then v.right else v.LiveEdge(now)
  {
  }

  /** How far the time under the cursor moves when the edge stands off its anchor. */
  lemma TimeOffAnchor(z: TimeAxis, v: TimeAxis, ppm: real, areaW: real, x: real)
    requires ppm > 0.0 && z.ppm == ppm && z.epoch == v.epoch && z.margin == v.margin
    ensures z.TimeAt(areaW, x) - v.TimeAt(areaW, x)
         == (z.right - AnchorFor(v, ppm, areaW, x)) - (x / ppm - x / Max(ppm, MIN_PX_PER_MS))
  {
    var w := areaW / Max(ppm, MIN_PX_PER_MS);
    Halves(w, v.margin);
    assert z.LeftRel(areaW) == (z.right - z.epoch) + w * v.margin - w;
  }

  lemma Halves(w: real, m: real)
    ensures w * (1.0 - m) + w * m - w == 0.0
  {
  }

  /** What the division guard costs a cursor off the left edge: nothing at the guard, something below it. */
  lemma GuardSlip(x: real, ppm: real)
    requires x >= 0.0 && ppm > 0.0
    ensures x / ppm >= x / Max(ppm, MIN_PX_PER_MS)
    ensures x / ppm == x / Max(ppm, MIN_PX_PER_MS) <==> ppm >= MIN_PX_PER_MS || x == 0.0
  {
    if ppm < MIN_PX_PER_MS && x > 0.0 {
      SlowerDivides(x, ppm, MIN_PX_PER_MS);
    }
  }

  lemma SlowerDivides(x: real, a: real, b: real)
    requires 0.0 < a < b && x > 0.0
    ensures x / a > x / b
  {
    var p, q := x / a, x / b;
    assert p * a == x && q * b == x && q > 0.0;
    Grows(q, a, b);
  }

  lemma Grows(q: real, a: real, b: real)
    requires a < b && q > 0.0
    ensures q * a < q * b
  {
  }

  /**
   A cursor-anchored zoom that does not rejoin keeps the time under the cursor exactly when the anchor
   may stand and either the scale is not below the division guard or the cursor is at the left edge.
   */
  lemma ZoomKeepsCursorTime(v: TimeAxis, factor: real, areaW: real, cursorX: real, now: real, zoom: XZoom)
    requires factor > 0.0 && CursorAnchored(v, zoom)
    requires !NearLive(Settled(v, factor, areaW, cursorX, now, zoom), now, areaW)
    ensures var (z, x) := (ZoomX(v, Fin(factor), areaW, cursorX, now, zoom), CursorIn(areaW, cursorX));
            z.TimeAt(areaW, x) == v.TimeAt(areaW, x) <==>
              && MayStand(v, factor, areaW, now, zoom, Anchor(v, factor, areaW, cursorX, zoom))
              && (ZoomedPpm(v, factor, areaW, zoom) >= MIN_PX_PER_MS || x == 0.0)
  {
    var ppm, x := ZoomedPpm(v, factor, areaW, zoom), CursorIn(areaW, cursorX);
    var z := Settled(v, factor, areaW, cursorX, now, zoom);
    assert ZoomX(v, Fin(factor), areaW, cursorX, now, zoom) == z;
    ZoomCutIff(v, factor, areaW, cursorX, now, zoom);
    TimeOffAnchor(z, v, ppm, areaW, x);
    GuardSlip(x, ppm);
  }

  /** One that rejoins moves it by exactly as far as the live edge stands from the anchor, less the guard's slip. */
  lemma RejoinMovesCursorTime(v: TimeAxis, factor: real, areaW: real, cursorX: real, now: real, zoom: XZoom)
    requires factor > 0.0 && CursorAnchored(v, zoom)
    requires NearLive(Settled(v, factor, areaW, cursorX, now, zoom), now, areaW)
    ensures var (z, x) := (ZoomX(v, Fin(factor), areaW, cursorX, now, zoom), CursorIn(areaW, cursorX));
            var ppm := ZoomedPpm(v, factor, areaW, zoom);
            z.TimeAt(areaW, x) - v.TimeAt(areaW, x)
            == (v.LiveEdge(now) - Anchor(v, factor, areaW, cursorX, zoom)) - (x / ppm - x / Max(ppm, MIN_PX_PER_MS))
  {
    var z := Settled(v, factor, areaW, cursorX, now, zoom);
    assert ZoomX(v, Fin(factor), areaW, cursorX, now, zoom) == Resume(z, now);
    TimeOffAnchor(Resume(z, now), v, ZoomedPpm(v, factor, areaW, zoom), areaW, CursorIn(areaW, cursorX));
  }

  /** On any plot at least 31.536 px wide the guard is never reached: not being cut is all it takes. */
  lemma WidePlotKeepsCursorTime(v: TimeAxis, factor: real, areaW: real, cursorX: real, now: real, zoom: XZoom)
    requires factor > 0.0 && areaW >= 31.536 && CursorAnchored(v, zoom)
    requires !NearLive(Settled(v, factor, areaW, cursorX, now, zoom), now, areaW)
    ensures ZoomX(v, Fin(factor), areaW, cursorX, now, zoom).TimeAt(areaW, CursorIn(areaW, cursorX))
         == v.TimeAt(areaW, CursorIn(areaW, cursorX))
         <==> MayStand(v, factor, areaW, now, zoom, Anchor(v, factor, areaW, cursorX, zoom))
  {
    ZoomKeepsCursorTime(v, factor, areaW, cursorX, now, zoom);
  }

  const SLIPPING := TimeAxis(0.0, MIN_PX_PER_MS, 0.0, false, 0.0, 0.1, false, false, 0.0, false, None, false, None,
                             None, None)
  const SLIP_NOW := 1_000_000_000_000.0
  const SLIPPED_PPM := 0.0000000001

  lemma SlipAnchor()
    ensures ZoomedPpm(SLIPPING, 0.1, 1.0, Ctrl) == SLIPPED_PPM && CursorIn(1.0, 1.0) == 1.0
    ensures Anchor(SLIPPING, 0.1, 1.0, 1.0, Ctrl) == -9_000_000_000.0
  {
    assert SLIPPING.TimeAt(1.0, 1.0) == 100_000_000.0;
  }

  lemma SlipStaysAway()
    ensures Settled(SLIPPING, 0.1, 1.0, 1.0, SLIP_NOW, Ctrl).right == -9_000_000_000.0
    ensures !NearLive(Settled(SLIPPING, 0.1, 1.0, 1.0, SLIP_NOW, Ctrl), SLIP_NOW, 1.0)
  {
    SlipAnchor();
    SettledIsCut(SLIPPING, 0.1, 1.0, 1.0, SLIP_NOW, Ctrl);
    FarFromLive(Settled(SLIPPING, 0.1, 1.0, 1.0, SLIP_NOW, Ctrl));
  }

  lemma FarFromLive(z: TimeAxis)
    requires z.ppm == SLIPPED_PPM && z.liveOffset == 0.0 && z.right == -9_000_000_000.0
    ensures !NearLive(z, SLIP_NOW, 1.0)
  {
    assert RejoinPx(1.0) / MIN_PX_PER_MS == 40_000_000_000.0;
  }

  /** A one-pixel plot zoomed far out: the time under the cursor slips although nothing cut the zoom. */
  lemma NarrowPlotSlips()
    ensures MayStand(SLIPPING, 0.1, 1.0, SLIP_NOW, Ctrl, Anchor(SLIPPING, 0.1, 1.0, 1.0, Ctrl))
    ensures ZoomX(SLIPPING, Fin(0.1), 1.0, 1.0, SLIP_NOW, Ctrl).TimeAt(1.0, 1.0) != SLIPPING.TimeAt(1.0, 1.0)
  {
    SlipAnchor();
    SlipStaysAway();
    ZoomKeepsCursorTime(SLIPPING, 0.1, 1.0, 1.0, SLIP_NOW, Ctrl);
  }
}

/**
 Hit-testing drawn arrows, over all of them or only those near the cursor
 (crates/moon-chart/src/trade_marks.rs).
 */
module TradeHits {
  import opened Floats
  import opened Seqs
  import opened Sorting
  import opened TradeClusters

  const ARROW_HALF_H: real := 6.0
  const ARROW_HALF_W: real := 4.5
  const HIT_SLACK: real := 4.0
  const ARROW_SCALE_MIN: real := 0.4
  const ARROW_SCALE_MAX: real := 3.0
  const GROWTH_CAP: real := 1.75

  /** One arrow as the hit test sees it; a buy's body hangs below its apex, a sell's above. */
  datatype MarkAt = MarkAt(x: real, apexY: real, buy: bool, count: nat)

  datatype Hit = Hit(nearest: nat, stack: seq<nat>)

  /** Cursor, device scale and user arrow scale; `growth` is how much a cluster's arrow grows. */
  datatype Probe = Probe(cx: real, cy: real, scale: real, arrowScale: Float, growth: nat -> real) {
    function Scale(): real { Max(scale, 0.1) }
    function Arrow(): real {
      if arrowScale.Fin? then Clamp(arrowScale.v, ARROW_SCALE_MIN, ARROW_SCALE_MAX) else 1.0
    }
    function Slack(): real { HIT_SLACK * Scale() }
    function HalfW(): real { ARROW_HALF_W * Scale() * Arrow() }
    function BodyFull(): real { 2.0 * ARROW_HALF_H * Scale() * Arrow() }
    ghost predicate GrowthBounded() { forall n :: 1.0 <= growth(n) <= GROWTH_CAP }
  }

  function Top(p: Probe, m: MarkAt): real {
    if m.buy then m.apexY - p.Slack() else m.apexY - p.BodyFull() * p.growth(m.count) - p.Slack()
  }

  function Bottom(p: Probe, m: MarkAt): real {
    if m.buy then m.apexY + p.BodyFull() * p.growth(m.count) + p.Slack() else m.apexY + p.Slack()
  }

  predicate WithinX(p: Probe, m: MarkAt) {
    Abs(p.cx - m.x) <= p.HalfW() * p.growth(m.count) + p.Slack()
  }

  predicate WithinY(p: Probe, m: MarkAt) {
    Top(p, m) <= p.cy <= Bottom(p, m)
  }

  predicate Touches(p: Probe, m: MarkAt) {
    WithinX(p, m) && WithinY(p, m)
  }

  /** Squared distance from the cursor to the glyph's centre. */
  function Dist(p: Probe, m: MarkAt): real {
    var (dx, dy) := (p.cx - m.x, p.cy - (Top(p, m) + Bottom(p, m)) * 0.5);
    dx * dx + dy * dy
  }

  /** `a` is the better hit: nearer, or as near with the smaller index. */
  predicate Nearer(p: Probe, marks: seq<MarkAt>, a: nat, b: nat)
    requires a < |marks| && b < |marks|
  {
    Dist(p, marks[a]) < Dist(p, marks[b]) || (Dist(p, marks[a]) == Dist(p, marks[b]) && a <= b)
  }

  ghost function Touched(p: Probe, marks: seq<MarkAt>): set<nat> {
    set i: nat | i < |marks| && Touches(p, marks[i])
  }

  /** What a hit test must answer, whatever order it looks in. */
  ghost predicate IsHit(p: Probe, marks: seq<MarkAt>, r: Option<Hit>) {
    if r.None? then Touched(p, marks) == {}
    else
      && Elems(r.value.stack) == Touched(p, marks)
      && Pairwise(r.value.stack, (a: nat, b: nat) => a < b)
      && r.value.nearest in Touched(p, marks)
      && forall i :: i in Touched(p, marks) ==> Nearer(p, marks, r.value.nearest, i)
  }

  /** The answer is unique. */
  lemma HitUnique(p: Probe, marks: seq<MarkAt>, r: Option<Hit>, s: Option<Hit>)
    requires IsHit(p, marks, r) && IsHit(p, marks, s)
    ensures r == s
  {
    if r.Some? && s.Some? {
      StrictUnique(r.value.stack, s.value.stack, (a: nat, b: nat) => a < b);
    }
  }

  /** The pairs a scan visits: some of the marks, each under its own index, none twice. */
  ghost predicate Visits(order: seq<nat>, n: nat) {
    Distinct(order) && forall i :: 0 <= i < |order| ==> order[i] < n
  }

  /** `a` ranks no worse than `b`. */
  ghost predicate RanksFirst(dist: nat -> real, a: nat, b: nat) {
    dist(a) < dist(b) || (dist(a) == dist(b) && a <= b)
  }

  /** The scan state after visiting `seen`: the touched indices, and the best of them. */
  ghost predicate Scanned(touch: nat -> bool, dist: nat -> real, seen: seq<nat>, stack: seq<nat>,
                          nearest: nat, best: Option<real>)
  {
    && (forall k :: k in stack <==> k in seen && touch(k))
    && Distinct(stack)
    && (best.None? <==> stack == [])
    && (best.Some? ==> nearest in stack && best.value == dist(nearest))
    && (best.Some? ==> forall k :: k in stack ==> RanksFirst(dist, nearest, k))
  }

  function TouchOf(p: Probe, marks: seq<MarkAt>): nat -> bool {
    (k: nat) => k < |marks| && Touches(p, marks[k])
  }

  function DistOf(p: Probe, marks: seq<MarkAt>): nat -> real {
    (k: nat) => if k < |marks| then Dist(p, marks[k]) else 0.0
  }

  /**
   Both hit tests' body: visits the marks named by `order`, in that order.
   */
  method HitIndexed(p: Probe, marks: seq<MarkAt>, order: seq<nat>) returns (r: Option<Hit>)
    requires Visits(order, |marks|)
    requires forall k :: k in Touched(p, marks) ==> k in order
    ensures IsHit(p, marks, r)
  {
    ghost var touch, dist := TouchOf(p, marks), DistOf(p, marks);
    var stack: seq<nat>, nearest: nat, best: Option<real> := [], 0, None;
    var i := 0;
    while i < |order|
      invariant 0 <= i <= |order|
      invariant Scanned(touch, dist, order[..i], stack, nearest, best)
    {
      var index := order[i];
      var mark := marks[index];
      assert order[..i + 1] == order[..i] + [index] && index !in order[..i];
      i := i + 1;
      if !WithinX(p, mark) || !WithinY(p, mark) {
        continue;
      }
      var d := Dist(p, mark);
      if best.None? || d < best.value || (d == best.value && index < nearest) {
        best := Some(d);
        nearest := index;
      }
      stack := stack + [index];
    }
    assert order[..i] == order;
    r := if stack != [] then Some(Hit(nearest, SortIndices(stack))) else None;
    StackIsTouched(p, marks, order, stack, nearest, best);
  }

  function SortIndices(s: seq<nat>): seq<nat> {
    Sort(s, (a: nat, b: nat) => a <= b)
  }

  lemma StackIsTouched(p: Probe, marks: seq<MarkAt>, order: seq<nat>, stack: seq<nat>, nearest: nat, best: Option<real>)
    requires Visits(order, |marks|) && Scanned(TouchOf(p, marks), DistOf(p, marks), order, stack, nearest, best)
    requires forall k :: k in Touched(p, marks) ==> k in order
    ensures IsHit(p, marks, if stack != [] then Some(Hit(nearest, SortIndices(stack))) else None)
  {
    var le := (a: nat, b: nat) => a <= b;
    var sorted := SortIndices(stack);
    SortSorted(stack, le);
    PermutationMembers(stack, sorted);
    DistinctSorted(stack, sorted);
    assert forall k :: k in Touched(p, marks) <==> k in stack;
    assert forall i :: i in stack ==> RanksFirst(DistOf(p, marks), nearest, i);
    assert Elems(sorted) == Touched(p, marks);
  }

  lemma DistinctSorted(s: seq<nat>, r: seq<nat>)
    requires Distinct(s) && multiset(r) == multiset(s) && Pairwise(r, (a: nat, b: nat) => a <= b)
    ensures Pairwise(r, (a: nat, b: nat) => a < b)
  {
    DistinctPermutation(s, r);
  }

  /** The unwindowed hit test: every mark in its own order. */
  method HitTradeMarks(p: Probe, marks: seq<MarkAt>) returns (r: Option<Hit>)
    ensures IsHit(p, marks, r)
  {
    var all := Indices(|marks|);
    forall k | k in Touched(p, marks) ensures k in all { assert all[k] == k; }
    r := HitIndexed(p, marks, all);
  }

  // ---- where an arrow is hit ----

  /** Device pixels per logical pixel of an arrow, and of its slack alone. */
  function ArrowUnit(p: Probe, n: nat): real {
    Max(p.scale, 0.1)
    * (if !p.arrowScale.Fin? then 1.0 else if p.arrowScale.v < 0.4 then 0.4
       else if p.arrowScale.v > 3.0 then 3.0 else p.arrowScale.v)
    * p.growth(n)
  }

  function SlackPx(p: Probe): real { 4.0 * Max(p.scale, 0.1) }

  /** How far past the apex the cursor is, on the side the body hangs: below a buy's apex, above a sell's. */
  function Depth(p: Probe, m: MarkAt): real {
    if m.buy then p.cy - m.apexY else m.apexY - p.cy
  }

  /**
   An arrow is hit over its body, nine pixels wide and twelve long from the apex away from the price, and
   four pixels around it; nowhere else.
   */
  lemma TouchesIff(p: Probe, m: MarkAt)
    ensures Touches(p, m) <==>
            && Abs(p.cx - m.x) <= 4.5 * ArrowUnit(p, m.count) + SlackPx(p)
            && -SlackPx(p) <= Depth(p, m) <= 12.0 * ArrowUnit(p, m.count) + SlackPx(p)
  {
    GlyphIs(p, m.count);
  }

  lemma GlyphIs(p: Probe, n: nat)
    ensures p.HalfW() * p.growth(n) == 4.5 * ArrowUnit(p, n) && p.BodyFull() * p.growth(n) == 12.0 * ArrowUnit(p, n)
    ensures p.Slack() == SlackPx(p)
  {
    Regroup(4.5, p.Scale(), p.Arrow(), p.growth(n));
    Regroup(12.0, p.Scale(), p.Arrow(), p.growth(n));
  }

  lemma Regroup(k: real, a: real, b: real, c: real)
    ensures k * a * b * c == k * (a * b * c)
  {
  }

  function Square(x: real): real { x * x }

  /** Arrows are ranked by how far the cursor is from the middle of the body. */
  lemma DistIs(p: Probe, m: MarkAt)
    ensures Dist(p, m) == Square(p.cx - m.x) + Square(Depth(p, m) - 6.0 * ArrowUnit(p, m.count))
  {
    GlyphIs(p, m.count);
    var dy := p.cy - (Top(p, m) + Bottom(p, m)) * 0.5;
    var depth := Depth(p, m) - 6.0 * ArrowUnit(p, m.count);
    assert dy == if m.buy then depth else -depth;
    assert Square(dy) == Square(depth);
    assert Dist(p, m) == Square(p.cx - m.x) + Square(dy);
  }

  /** A cluster is hit where its arrow is drawn: its apex at its time and price. */
  lemma ClusterTouchedIff(p: Probe, clusters: seq<Cluster>, xOf: real -> real, yOf: real -> real, i: nat)
    requires i < |clusters|
    ensures i in Touched(p, MarksOf(clusters, xOf, yOf)) <==>
            && Abs(p.cx - xOf(clusters[i].t)) <= 4.5 * ArrowUnit(p, |clusters[i].members|) + SlackPx(p)
            && var depth := if clusters[i].buy then p.cy - yOf(clusters[i].price) else yOf(clusters[i].price) - p.cy;
               -SlackPx(p) <= depth <= 12.0 * ArrowUnit(p, |clusters[i].members|) + SlackPx(p)
  {
    TouchesIff(p, MarksOf(clusters, xOf, yOf)[i]);
  }

  // ---- the windowed test ----

  predicate SoonerOrSame(clusters: seq<Cluster>, a: nat, b: nat) {
    if a < |clusters| && b < |clusters| then
      clusters[a].t < clusters[b].t || (clusters[a].t == clusters[b].t && a <= b)
    else if a < |clusters| then true
    else if b < |clusters| then false
    else a <= b
  }

  /** Cluster indices by `(time, index)`. */
  function OrderByTime(clusters: seq<Cluster>): seq<nat> {
    Sort(Indices(|clusters|), (a: nat, b: nat) => SoonerOrSame(clusters, a, b))
  }

  function MarkOf(c: Cluster, xOf: real -> real, yOf: real -> real): MarkAt {
    MarkAt(xOf(c.t), yOf(c.price), c.buy, |c.members|)
  }

  function MarksOf(clusters: seq<Cluster>, xOf: real -> real, yOf: real -> real): (r: seq<MarkAt>)
    ensures |r| == |clusters|
  {
    seq(|clusters|, i requires 0 <= i < |clusters| => MarkOf(clusters[i], xOf, yOf))
  }

  /** Farthest any arrow can reach on x at rest, plus the slack and a pixel. */
  function GlyphReach(p: Probe): real {
    p.HalfW() * GROWTH_CAP + p.Slack() + 1.0
  }

  /** No mark can touch the cursor from farther away than that. */
  lemma ReachBoundsGlyph(p: Probe, m: MarkAt)
    requires p.GrowthBounded() && Touches(p, m)
    ensures Abs(p.cx - m.x) < GlyphReach(p)
  {
    assert p.growth(m.count) <= GROWTH_CAP;
    GrownWithin(p.HalfW(), p.growth(m.count), p.Slack(), Abs(p.cx - m.x));
  }

  lemma GrownWithin(w: real, g: real, slack: real, d: real)
    requires w >= 0.0 && g <= GROWTH_CAP && d <= w * g + slack
    ensures d < w * GROWTH_CAP + slack + 1.0
  {
    assert w * g <= w * GROWTH_CAP;
  }

  lemma OrderByTimeSorts(clusters: seq<Cluster>)
    ensures Visits(OrderByTime(clusters), |clusters|)
    ensures forall k: nat :: k < |clusters| ==> k in OrderByTime(clusters)
    ensures forall i, j :: 0 <= i < j < |OrderByTime(clusters)| ==>
              clusters[OrderByTime(clusters)[i]].t <= clusters[OrderByTime(clusters)[j]].t
  {
    var le := (a: nat, b: nat) => SoonerOrSame(clusters, a, b);
    var all, order := Indices(|clusters|), OrderByTime(clusters);
    SortSorted(all, le);
    PermutationMembers(all, order);
    forall k: nat | k < |clusters| ensures k in order { assert all[k] == k; }
    forall i | 0 <= i < |order| ensures order[i] < |clusters| { assert order[i] in all; }
    forall i, j | 0 <= i < j < |order|
      ensures clusters[order[i]].t <= clusters[order[j]].t
    {
      assert le(order[i], order[j]);
    }
    DistinctPermutation(all, order);
  }

  ghost predicate NonDecreasing(f: real -> real) {
    forall a, b :: a <= b ==> f(a) <= f(b)
  }

  /**
   The hit test over only the clusters near the cursor gives the answer of the full scan, for any
   non-decreasing time axis.
   */
  method HitWindowed(p: Probe, clusters: seq<Cluster>, order: seq<nat>, xOf: real -> real, yOf: real -> real)
    returns (r: Option<Hit>)
    requires p.GrowthBounded() && NonDecreasing(xOf) && order == OrderByTime(clusters)
    ensures IsHit(p, MarksOf(clusters, xOf, yOf), r)
  {
    OrderByTimeSorts(clusters);
    var reach := GlyphReach(p);
    var start := PartitionPoint(order, (i: nat) => i < |clusters| && xOf(clusters[i].t) < p.cx - reach);
    var end := PartitionPoint(order, (i: nat) => i < |clusters| && xOf(clusters[i].t) <= p.cx + reach);
    end := if end >= start then end else start;
    NearCoversTouched(p, clusters, order, xOf, yOf, start, end);
    r := HitIndexed(p, MarksOf(clusters, xOf, yOf), order[start..end]);
  }

  lemma NearCoversTouched(p: Probe, clusters: seq<Cluster>, order: seq<nat>, xOf: real -> real, yOf: real -> real,
                          start: nat, end: nat)
    requires p.GrowthBounded() && NonDecreasing(xOf) && order == OrderByTime(clusters)
    requires Visits(order, |clusters|) && forall k: nat :: k < |clusters| ==> k in order
    requires forall i, j :: 0 <= i < j < |order| ==> clusters[order[i]].t <= clusters[order[j]].t
    requires start <= end <= |order|
    requires forall i :: 0 <= i < start ==> xOf(clusters[order[i]].t) < p.cx - GlyphReach(p)
    requires end < |order| ==> !(xOf(clusters[order[end]].t) <= p.cx + GlyphReach(p))
    ensures forall k :: k in Touched(p, MarksOf(clusters, xOf, yOf)) ==> k in order[start..end]
  {
    forall i | end <= i < |order|
      ensures xOf(clusters[order[i]].t) > p.cx + GlyphReach(p)
    {
      assert clusters[order[end]].t <= clusters[order[i]].t;
    }
    forall k | k in Touched(p, MarksOf(clusters, xOf, yOf))
      ensures k in order[start..end]
    {
      ReachBoundsGlyph(p, MarksOf(clusters, xOf, yOf)[k]);
      assert k in order;
      var i: nat :| i < |order| && order[i] == k;
      assert start <= i < end;
      assert order[start..end][i - start] == k;
    }
  }
}

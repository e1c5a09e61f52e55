/**
 The cross reduction stated on the ticks themselves: which ticks the bitmap keeps, and that it shows the
 same picture (crates/moon-chart/src/tick_volume.rs, `reduce_crosses`; the drawing rules are those of
 crates/moon-ui-gpui/src/chartdx/shaders/crosses.hlsl).
 */
module LodImage {
  import opened Floats
  import opened Seqs
  import opened LodRows
  import opened LodTicks
  import opened LodCross

  /** Past this many pixels outside the bitmap the shader culls a cross. */
  function CullMargin(g: BakeColumns): real {
    Max(Max(g.markerHalf, 8.0), g.markerHalf + 1.0)
  }

  predicate CrossDrawn(g: BakeColumns, t: Tick) {
    var cull := CullMargin(g);
    var (col, row) := (Round(t.sx), Round(t.sy));
    && !(g.bubbles && t.side < 2)
    && col.Fin? && row.Fin?
    && -cull <= col.v <= g.width + cull
    && -cull <= row.v <= g.height + cull
  }

  function CrossRows(ticks: seq<Tick>, g: BakeColumns): seq<LodRow> {
    Keyed(ticks, (t: Tick) => CrossDrawn(g, t))
  }

  // ---- the drawn ticks ----

  /** The shader draws a tick whose pixel is no further outside the bitmap than its mark can reach. */
  predicate Stamped(g: BakeColumns, t: Tick) {
    && t.sx.Fin? && t.sy.Fin? && (t.side >= 2 || !g.bubbles)
    && InReach(RoundTiesEven(t.sx.v), g.width, g.markerHalf)
    && InReach(RoundTiesEven(t.sy.v), g.height, g.markerHalf)
  }

  predicate InReach(c: int, side: real, markerHalf: real) {
    && -(c as real) <= Max(8.0, markerHalf + 1.0)
    && c as real - side <= Max(8.0, markerHalf + 1.0)
  }

  lemma DrawnIsStamped(g: BakeColumns, t: Tick)
    ensures CrossDrawn(g, t) <==> Stamped(g, t)
  {
  }

  /** Two ticks on one pixel. */
  predicate OnePixel(a: Tick, b: Tick)
    requires a.sx.Fin? && a.sy.Fin? && b.sx.Fin? && b.sy.Fin?
  {
    RoundTiesEven(a.sx.v) == RoundTiesEven(b.sx.v) && RoundTiesEven(a.sy.v) == RoundTiesEven(b.sy.v)
  }

  /** A drawn tick that no later one repaints. */
  predicate OnTop(ticks: seq<Tick>, g: BakeColumns, i: nat) {
    && i < |ticks| && Stamped(g, ticks[i])
    && forall j :: i < j < |ticks| && Stamped(g, ticks[j]) ==> !OnePixel(ticks[j], ticks[i])
  }

  /** The ticks on top in the pixel column of tick `i`. */
  ghost function ColumnOf(ticks: seq<Tick>, g: BakeColumns, i: nat): set<nat>
    requires OnTop(ticks, g, i)
  {
    set j: nat | j < |ticks| && OnTop(ticks, g, j) && RoundTiesEven(ticks[j].sx.v) == RoundTiesEven(ticks[i].sx.v)
  }

  /** Those of its own kind: buys, sells, or liquidations. */
  ghost function KindOf(ticks: seq<Tick>, g: BakeColumns, i: nat): set<nat>
    requires OnTop(ticks, g, i)
  {
    set j | j in ColumnOf(ticks, g, i) &&
            (ticks[j].side == ticks[i].side || (ticks[j].side >= 2 && ticks[i].side >= 2))
  }

  /** And those of them on a lower pixel row. */
  ghost function LowerOf(ticks: seq<Tick>, g: BakeColumns, i: nat): set<nat>
    requires OnTop(ticks, g, i)
  {
    set j | j in KindOf(ticks, g, i) && RoundTiesEven(ticks[j].sy.v) < RoundTiesEven(ticks[i].sy.v)
  }

  /**
   A tick is kept when it is on top and its column holds at most 32 of them, or it stands at a multiple
   of a 32nd of its kind, rounded up, or last.
   */
  ghost predicate Keeps(ticks: seq<Tick>, g: BakeColumns, i: nat) {
    && OnTop(ticks, g, i)
    && (|| |ColumnOf(ticks, g, i)| <= 32
        || AtStride(|LowerOf(ticks, g, i)|, |KindOf(ticks, g, i)|)
        || |LowerOf(ticks, g, i)| + 1 == |KindOf(ticks, g, i)|)
  }

  predicate AtStride(rank: nat, n: nat) {
    n > 0 && rank % ((n + 31) / 32) == 0
  }

  // ---- the keyed rows are the drawn ticks ----

  /** `rows` are the keys of the drawn ticks, whose indices are `d`. */
  ghost predicate KeysOf(ticks: seq<Tick>, g: BakeColumns, rows: seq<LodRow>, d: seq<nat>) {
    && |rows| == |d| && Pairwise(d, (a: nat, b: nat) => a < b)
    && (forall i: nat :: i in d <==> i < |ticks| && Stamped(g, ticks[i]))
    && forall k :: 0 <= k < |d| ==>
         && d[k] < |ticks| && Stamped(g, ticks[d[k]])
         && rows[k].col == RoundTiesEven(ticks[d[k]].sx.v) && rows[k].row == RoundTiesEven(ticks[d[k]].sy.v)
         && rows[k].side == ticks[d[k]].side
  }

  lemma RowsAreTicks(ticks: seq<Tick>, g: BakeColumns) returns (d: seq<nat>)
    requires Addressable(g)
    ensures d == Drawn(ticks, (t: Tick) => CrossDrawn(g, t)) && KeysOf(ticks, g, CrossRows(ticks, g), d)
  {
    var p := (t: Tick) => CrossDrawn(g, t);
    d := Drawn(ticks, p);
    RowsOfDrawn(ticks, p);
    DrawnMembers(ticks, p);
    forall i: nat ensures i in d <==> i < |ticks| && Stamped(g, ticks[i]) {
      if i < |ticks| { DrawnIsStamped(g, ticks[i]); }
    }
    forall k | 0 <= k < |d|
      ensures d[k] < |ticks| && Stamped(g, ticks[d[k]])
      ensures ToKey(Round(ticks[d[k]].sx)) == RoundTiesEven(ticks[d[k]].sx.v)
      ensures ToKey(Round(ticks[d[k]].sy)) == RoundTiesEven(ticks[d[k]].sy.v)
    {
      assert d[k] in d;
      KeyIsRounded(ticks[d[k]].sx);
      KeyIsRounded(ticks[d[k]].sy);
    }
  }

  lemma TopIsLast(ticks: seq<Tick>, g: BakeColumns, rows: seq<LodRow>, d: seq<nat>, k: nat)
    requires KeysOf(ticks, g, rows, d) && k < |d|
    ensures OnTop(ticks, g, d[k]) <==> LastOfTexel(rows, k)
  {
    if LastOfTexel(rows, k) {
      forall j | d[k] < j < |ticks| && Stamped(g, ticks[j])
        ensures !OnePixel(ticks[j], ticks[d[k]])
      {
        var m := PositionOf(d, k, j);
        assert !SameTexel(rows[m], rows[k]);
      }
    }
    if OnTop(ticks, g, d[k]) {
      forall m | k < m < |rows| ensures !SameTexel(rows[m], rows[k]) {
        assert d[k] < d[m];
      }
    }
  }

  /** Where a later drawn tick stands in the draw order. */
  lemma PositionOf(d: seq<nat>, k: nat, j: nat) returns (m: nat)
    requires Pairwise(d, (a: nat, b: nat) => a < b) && k < |d| && j in d && d[k] < j
    ensures k < m < |d| && d[m] == j
  {
    m :| m < |d| && d[m] == j;
  }

  lemma CountsAgree(ticks: seq<Tick>, g: BakeColumns, rows: seq<LodRow>, d: seq<nat>, k: nat)
    requires KeysOf(ticks, g, rows, d) && k < |d| && LastOfTexel(rows, k) && OnTop(ticks, g, d[k])
    ensures |Column(rows, rows[k].col)| == |ColumnOf(ticks, g, d[k])|
    ensures |Group(rows, rows[k].col, Class(rows[k]))| == |KindOf(ticks, g, d[k])|
    ensures |Ahead(rows, k)| == |LowerOf(ticks, g, d[k])|
  {
    forall j | 0 <= j < |d| ensures OnTop(ticks, g, d[j]) <==> LastOfTexel(rows, j) {
      TopIsLast(ticks, g, rows, d, j);
    }
    SameSize(d, Column(rows, rows[k].col), ColumnOf(ticks, g, d[k]));
    SameSize(d, Group(rows, rows[k].col, Class(rows[k])), KindOf(ticks, g, d[k]));
    SameSize(d, Ahead(rows, k), LowerOf(ticks, g, d[k]));
  }

  lemma KeepsIsKept(ticks: seq<Tick>, g: BakeColumns, rows: seq<LodRow>, d: seq<nat>, k: nat)
    requires KeysOf(ticks, g, rows, d) && k < |d|
    ensures CrossKept(rows, k) <==> Keeps(ticks, g, d[k])
  {
    TopIsLast(ticks, g, rows, d, k);
    if LastOfTexel(rows, k) {
      CountsAgree(ticks, g, rows, d, k);
      assert k in Group(rows, rows[k].col, Class(rows[k]));
    }
  }

  /** The ticks a reduced bake keeps, in draw order. */
  ghost function KeptTicks(ticks: seq<Tick>, g: BakeColumns): (s: seq<nat>)
    ensures forall i :: 0 <= i < |s| ==> s[i] < |ticks|
  {
    Ticks(ticks, (i: nat) => Keeps(ticks, g, i))
  }

  /** The slots of the kept rows are those of the kept ticks. */
  lemma KeptRowsAreTicks(ticks: seq<Tick>, g: BakeColumns)
    requires Addressable(g)
    ensures Slots(CrossRows(ticks, g), CrossPicks(CrossRows(ticks, g))) == PickSlots(ticks, KeptTicks(ticks, g))
  {
    var rows, p := CrossRows(ticks, g), (t: Tick) => CrossDrawn(g, t);
    var d := RowsAreTicks(ticks, g);
    forall k | 0 <= k < |d| ensures CrossKept(rows, k) <==> Keeps(ticks, g, d[k]) {
      KeepsIsKept(ticks, g, rows, d, k);
    }
    forall i: nat | i < |ticks| && Keeps(ticks, g, i) ensures p(ticks[i]) {
      DrawnIsStamped(g, ticks[i]);
    }
    RowChoice(ticks, p, (k: nat) => CrossKept(rows, k), (i: nat) => Keeps(ticks, g, i));
  }

  // ---- the picture ----

  /** Whether tick `i`, drawn at its pixel, covers the pixel `(x, y)`; `stamp` is the shape of a mark. */
  ghost predicate Covers(ticks: seq<Tick>, g: BakeColumns, i: nat, stamp: (int, int) -> bool, x: int, y: int) {
    && i < |ticks| && Stamped(g, ticks[i])
    && stamp(x - RoundTiesEven(ticks[i].sx.v), y - RoundTiesEven(ticks[i].sy.v))
  }

  /** The tick that shows at a pixel once some ticks are painted in order, later ones over earlier ones. */
  ghost function Image(ticks: seq<Tick>, g: BakeColumns, picks: seq<nat>, stamp: (int, int) -> bool, x: int, y: int)
    : Option<nat>
  {
    if picks == [] then None
    else if Covers(ticks, g, picks[|picks| - 1], stamp, x, y) then Some(picks[|picks| - 1])
    else Image(ticks, g, picks[..|picks| - 1], stamp, x, y)
  }

  /** Painted in draw order, a pixel shows the latest tick covering it. */
  lemma {:induction false} ImageShowsLatest(ticks: seq<Tick>, g: BakeColumns, picks: seq<nat>,
                                            stamp: (int, int) -> bool, x: int, y: int)
    requires Pairwise(picks, (a: nat, b: nat) => a < b)
    ensures var shown := Image(ticks, g, picks, stamp, x, y);
            && (forall i :: i in picks && Covers(ticks, g, i, stamp, x, y) ==> shown.Some? && i <= shown.value)
            && (shown.Some? ==> shown.value in picks && Covers(ticks, g, shown.value, stamp, x, y))
  {
    if picks != [] {
      var init, top := picks[..|picks| - 1], picks[|picks| - 1];
      ImageShowsLatest(ticks, g, init, stamp, x, y);
      assert forall i :: i in picks ==> i in init || i == top;
    }
  }

  /** Dropping every tick a later one repaints exactly leaves every pixel of the picture as it was. */
  lemma OnTopKeepsImage(ticks: seq<Tick>, g: BakeColumns, stamp: (int, int) -> bool, x: int, y: int)
    ensures Image(ticks, g, Ticks(ticks, (i: nat) => OnTop(ticks, g, i)), stamp, x, y)
         == Image(ticks, g, Indices(|ticks|), stamp, x, y)
  {
    var all, some := Indices(|ticks|), Ticks(ticks, (i: nat) => OnTop(ticks, g, i));
    IndicesEnumerate(|ticks|);
    TicksMembers(ticks, (i: nat) => OnTop(ticks, g, i));
    ImageShowsLatest(ticks, g, all, stamp, x, y);
    ImageShowsLatest(ticks, g, some, stamp, x, y);
    var shown := Image(ticks, g, all, stamp, x, y);
    if shown.Some? {
      ShownIsOnTop(ticks, g, shown.value, stamp, x, y);
      assert shown.value in some;
    }
  }

  lemma ShownIsOnTop(ticks: seq<Tick>, g: BakeColumns, i: nat, stamp: (int, int) -> bool, x: int, y: int)
    requires Covers(ticks, g, i, stamp, x, y)
    requires forall j :: j in Indices(|ticks|) && Covers(ticks, g, j, stamp, x, y) ==> j <= i
    ensures OnTop(ticks, g, i)
  {
    forall j | i < j < |ticks| && Stamped(g, ticks[j])
      ensures !OnePixel(ticks[j], ticks[i])
    {
      assert Indices(|ticks|)[j] == j;
      assert Covers(ticks, g, j, stamp, x, y) || !OnePixel(ticks[j], ticks[i]);
    }
  }

  /** No pixel column has more than 32 ticks on top. */
  ghost predicate Uncrowded(ticks: seq<Tick>, g: BakeColumns) {
    forall i: nat :: OnTop(ticks, g, i) ==> |ColumnOf(ticks, g, i)| <= 32
  }

  /**
   While no column is crowded, painting the kept ticks gives at every pixel, for any opaque mark, what
   painting every tick gives.
   */
  lemma KeptTicksKeepImage(ticks: seq<Tick>, g: BakeColumns, stamp: (int, int) -> bool, x: int, y: int)
    requires Uncrowded(ticks, g)
    ensures Image(ticks, g, KeptTicks(ticks, g), stamp, x, y) == Image(ticks, g, Indices(|ticks|), stamp, x, y)
  {
    OnTopKeepsImage(ticks, g, stamp, x, y);
    SameTicks(ticks, (i: nat) => Keeps(ticks, g, i), (i: nat) => OnTop(ticks, g, i));
  }

  /** A mark no larger than the culling margin loses nothing on the bitmap by being culled. */
  lemma CulledIsOffBitmap(g: BakeColumns, t: Tick, stamp: (int, int) -> bool, x: int, y: int)
    requires t.sx.Fin? && t.sy.Fin? && (t.side >= 2 || !g.bubbles) && !Stamped(g, t)
    requires 0.0 <= x as real <= g.width && 0.0 <= y as real <= g.height
    requires forall dx, dy :: stamp(dx, dy) ==>
               Max(Abs(dx as real), Abs(dy as real)) <= Max(8.0, g.markerHalf + 1.0)
    ensures !stamp(x - RoundTiesEven(t.sx.v), y - RoundTiesEven(t.sy.v))
  {
  }

  // ---- what a crowded column keeps ----

  ghost function KeptOfKind(ticks: seq<Tick>, g: BakeColumns, i: nat): set<nat>
    requires OnTop(ticks, g, i)
  {
    set j | j in KindOf(ticks, g, i) && Keeps(ticks, g, j)
  }

  /** Ticks of one kind and column stand on different rows, each with its own rank. */
  lemma RanksDiffer(ticks: seq<Tick>, g: BakeColumns, i: nat, j: nat, k: nat)
    requires OnTop(ticks, g, i) && j in KindOf(ticks, g, i) && k in KindOf(ticks, g, i) && j != k
    ensures RoundTiesEven(ticks[j].sy.v) != RoundTiesEven(ticks[k].sy.v)
    ensures |LowerOf(ticks, g, j)| != |LowerOf(ticks, g, k)|
  {
    assert j < k ==> !OnePixel(ticks[k], ticks[j]);
    assert k < j ==> !OnePixel(ticks[j], ticks[k]);
    var rowJ, rowK := RoundTiesEven(ticks[j].sy.v), RoundTiesEven(ticks[k].sy.v);
    var lo, hi := if rowJ < rowK then j else k, if rowJ < rowK then k else j;
    StrictSubset(LowerOf(ticks, g, lo), LowerOf(ticks, g, hi), lo);
  }

  lemma RankBelowSize(ticks: seq<Tick>, g: BakeColumns, i: nat, j: nat)
    requires OnTop(ticks, g, i) && j in KindOf(ticks, g, i)
    ensures KindOf(ticks, g, j) == KindOf(ticks, g, i) && ColumnOf(ticks, g, j) == ColumnOf(ticks, g, i)
    ensures |LowerOf(ticks, g, j)| < |KindOf(ticks, g, i)|
  {
    StrictSubset(LowerOf(ticks, g, j), KindOf(ticks, g, i), j);
  }

  lemma MultipleFromQuotient(a: nat, b: nat, s: nat)
    requires s > 0 && a % s == 0 && b % s == 0 && a / s == b / s
    ensures a == b
  {
    assert a == s * (a / s) + a % s && b == s * (b / s) + b % s;
  }

  lemma QuotientsDiffer(a: nat, b: nat, s: nat)
    requires s > 0 && a % s == 0 && b % s == 0 && a != b
    ensures a / s != b / s
  {
    if a / s == b / s { MultipleFromQuotient(a, b, s); }
  }

  lemma QuotientBelow(rank: nat, n: nat)
    requires rank < n
    ensures (n + 31) / 32 > 0 && rank / ((n + 31) / 32) < 32
  {
    var s := (n + 31) / 32;
    var q := rank / s;
    assert n <= 32 * s && q * s <= rank;
    Cancel(q, 32, s);
  }

  lemma Cancel(q: nat, k: nat, s: nat)
    requires q * s < k * s
    ensures q < k
  {
  }

  /** Which multiple of a stride a tick's rank is. */
  ghost function Multiple(ticks: seq<Tick>, g: BakeColumns, j: nat, s: nat): nat {
    if OnTop(ticks, g, j) && s > 0 then |LowerOf(ticks, g, j)| / s else 0
  }

  lemma MultiplesDiffer(ticks: seq<Tick>, g: BakeColumns, i: nat, s: nat, a: nat, b: nat)
    requires OnTop(ticks, g, i) && a in KindOf(ticks, g, i) && b in KindOf(ticks, g, i) && a != b
    requires s > 0 && |LowerOf(ticks, g, a)| % s == 0 && |LowerOf(ticks, g, b)| % s == 0
    ensures Multiple(ticks, g, a, s) != Multiple(ticks, g, b, s)
  {
    RanksDiffer(ticks, g, i, a, b);
    QuotientsDiffer(|LowerOf(ticks, g, a)|, |LowerOf(ticks, g, b)|, s);
  }

  lemma MultipleBelow(ticks: seq<Tick>, g: BakeColumns, i: nat, j: nat)
    requires OnTop(ticks, g, i) && j in KindOf(ticks, g, i)
    ensures Multiple(ticks, g, j, (|KindOf(ticks, g, i)| + 31) / 32) < 32
  {
    RankBelowSize(ticks, g, i, j);
    QuotientBelow(|LowerOf(ticks, g, j)|, |KindOf(ticks, g, i)|);
  }

  /** At most one tick of a kind stands at each multiple of its stride. */
  lemma StridedBudget(ticks: seq<Tick>, g: BakeColumns, i: nat, strided: set<nat>)
    requires OnTop(ticks, g, i)
    requires forall j :: j in strided ==>
      j in KindOf(ticks, g, i) && AtStride(|LowerOf(ticks, g, j)|, |KindOf(ticks, g, i)|)
    ensures |strided| <= 32
  {
    var s := (|KindOf(ticks, g, i)| + 31) / 32;
    var multiple := (j: nat) => Multiple(ticks, g, j, s);
    forall a | a in strided ensures multiple(a) < 32 {
      MultipleBelow(ticks, g, i, a);
    }
    forall a, b | a in strided && b in strided && a != b ensures multiple(a) != multiple(b) {
      MultiplesDiffer(ticks, g, i, s, a, b);
    }
    Pigeonhole(strided, multiple, 32);
  }

  /** A crowded column keeps at most 33 ticks of a kind. */
  lemma CrowdedKindBudget(ticks: seq<Tick>, g: BakeColumns, i: nat)
    requires OnTop(ticks, g, i) && |ColumnOf(ticks, g, i)| > 32
    ensures |KeptOfKind(ticks, g, i)| <= 33
  {
    var kind, n := KindOf(ticks, g, i), |KindOf(ticks, g, i)|;
    var strided := set j | j in kind && AtStride(|LowerOf(ticks, g, j)|, n);
    var last := set j | j in kind && |LowerOf(ticks, g, j)| + 1 == n;
    StridedBudget(ticks, g, i, strided);
    forall a, b | a in last && b in last && a != b ensures false {
      RanksDiffer(ticks, g, i, a, b);
    }
    Pigeonhole(last, (j: nat) => 0, 1);
    forall j | j in KeptOfKind(ticks, g, i) ensures j in strided + last {
      RankBelowSize(ticks, g, i, j);
    }
    SubsetSize(KeptOfKind(ticks, g, i), strided + last);
  }

  /** Every kind keeps its lowest and its highest pixel row, crowded or not. */
  lemma EndsOfKindKept(ticks: seq<Tick>, g: BakeColumns, i: nat)
    requires OnTop(ticks, g, i)
    requires || (forall j :: j in KindOf(ticks, g, i) ==>
                   RoundTiesEven(ticks[i].sy.v) <= RoundTiesEven(ticks[j].sy.v))
             || (forall j :: j in KindOf(ticks, g, i) ==>
                   RoundTiesEven(ticks[j].sy.v) <= RoundTiesEven(ticks[i].sy.v))
    ensures Keeps(ticks, g, i)
  {
    var kind := KindOf(ticks, g, i);
    assert i in kind;
    if forall j :: j in kind ==> RoundTiesEven(ticks[i].sy.v) <= RoundTiesEven(ticks[j].sy.v) {
      assert LowerOf(ticks, g, i) == {};
    } else {
      forall j | j in kind && j != i
        ensures RoundTiesEven(ticks[j].sy.v) < RoundTiesEven(ticks[i].sy.v)
      {
        RanksDiffer(ticks, g, i, j, i);
      }
      assert LowerOf(ticks, g, i) == kind - {i};
    }
  }
}

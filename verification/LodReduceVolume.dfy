/**
 The bar reduction as a whole, stated on the ticks themselves
 (crates/moon-chart/src/tick_volume.rs, `reduce_volume`).
 */
module LodReduceVolume {
  import opened Floats
  import opened Seqs
  import opened LodRows
  import opened LodTicks
  import opened LodVolume

  predicate VolumeDrawn(g: BakeColumns, t: Tick) {
    Le(Fin(-2.0), t.sx) && Le(t.sx, Fin(g.width + 2.0)) && Lt(Fin(0.0), t.qty) && t.side < 2
  }

  /** Whole-pixel height of a bar whose unclamped height the shader computes as `raw`. */
  function BarHeightPx(raw: Float): (h: nat)
    ensures h <= LOD_BAR_MAX_PX
  {
    if raw.Fin? then
      if raw.v < 0.0 then 0 else if raw.v.Floor < LOD_BAR_MAX_PX then raw.v.Floor else LOD_BAR_MAX_PX
    else LOD_BAR_MAX_PX
  }

  function VolumeRows(ticks: seq<Tick>, g: BakeColumns): seq<LodRow> {
    Keyed(ticks, (t: Tick) => VolumeDrawn(g, t))
  }

  function RowPx(r: LodRow, rawHeight: (nat, Float) -> Float): (h: nat)
    ensures h <= LOD_BAR_MAX_PX
  {
    BarHeightPx(rawHeight(r.side, r.qty))
  }

  function BarsOf(rows: seq<LodRow>, rawHeight: (nat, Float) -> Float): Bars {
    Bars(rows, seq<nat>(|rows|, i requires 0 <= i < |rows| => RowPx(rows[i], rawHeight)))
  }

  lemma DrawnBarsOk(ticks: seq<Tick>, g: BakeColumns, rawHeight: (nat, Float) -> Float)
    ensures BarsOf(VolumeRows(ticks, g), rawHeight).Ok()
  {
    var p := (t: Tick) => VolumeDrawn(g, t);
    var kept := Filter(ticks, p);
    FilterMembers(ticks, p);
    assert forall i :: 0 <= i < |kept| ==> kept[i] in kept;
  }

  // ---- the bars of the ticks ----

  /** A trade of positive quantity whose bar touches the band; liquidations draw none. */
  predicate Barred(g: BakeColumns, t: Tick) {
    && t.sx.Fin? && -2.0 <= t.sx.v && t.sx.v - g.width <= 2.0
    && (t.qty == PosInf || (t.qty.Fin? && t.qty.v > 0.0)) && (t.side == 0 || t.side == 1)
  }

  lemma DrawnIsBarred(g: BakeColumns, t: Tick)
    ensures VolumeDrawn(g, t) <==> Barred(g, t)
  {
  }

  /** The whole pixels of a tick's bar, at most 72. */
  function BarPx(t: Tick, rawHeight: (nat, Float) -> Float): nat {
    var raw := rawHeight(t.side, t.qty);
    if !raw.Fin? || raw.v >= 72.0 then 72 else if raw.v < 0.0 then 0 else raw.v.Floor
  }

  predicate OneColumn(g: BakeColumns, a: Tick, b: Tick) {
    && Barred(g, a) && Barred(g, b)
    && RoundTiesEven(a.sx.v) == RoundTiesEven(b.sx.v)
  }

  /** The latest of the tallest bars of its pixel column and side. */
  ghost predicate TallestBar(ticks: seq<Tick>, g: BakeColumns, rawHeight: (nat, Float) -> Float, i: nat) {
    && i < |ticks|
    && forall j :: 0 <= j < |ticks| && OneColumn(g, ticks[j], ticks[i]) && ticks[j].side == ticks[i].side ==>
         && BarPx(ticks[j], rawHeight) <= BarPx(ticks[i], rawHeight)
         && (i < j ==> BarPx(ticks[j], rawHeight) < BarPx(ticks[i], rawHeight))
  }

  /** The kept bars drawn over bar `i` that are no shorter. */
  ghost function Over(ticks: seq<Tick>, g: BakeColumns, rawHeight: (nat, Float) -> Float, kept: set<nat>, i: nat)
    : set<nat>
    requires i < |ticks|
  {
    set j | j in kept && i < j < |ticks| && OneColumn(g, ticks[j], ticks[i])
            && BarPx(ticks[j], rawHeight) >= BarPx(ticks[i], rawHeight)
  }

  /** A bar is kept exactly when it is a tallest one or fewer than `v` kept bars cover it. */
  ghost predicate GreedyBars(ticks: seq<Tick>, g: BakeColumns, rawHeight: (nat, Float) -> Float, v: nat,
                             kept: set<nat>)
  {
    forall i: nat :: i in kept <==>
      && i < |ticks| && Barred(g, ticks[i])
      && (TallestBar(ticks, g, rawHeight, i) || |Over(ticks, g, rawHeight, kept, i)| < v)
  }

  /** There is only one such choice of bars. */
  lemma {:induction false} GreedyBarsAgree(ticks: seq<Tick>, g: BakeColumns, rawHeight: (nat, Float) -> Float, v: nat,
                                           a: set<nat>, b: set<nat>, i: nat)
    requires GreedyBars(ticks, g, rawHeight, v, a) && GreedyBars(ticks, g, rawHeight, v, b)
    ensures forall j :: i <= j ==> (j in a <==> j in b)
    decreases |ticks| - i
  {
    if i < |ticks| {
      GreedyBarsAgree(ticks, g, rawHeight, v, a, b, i + 1);
      assert Over(ticks, g, rawHeight, a, i) == Over(ticks, g, rawHeight, b, i);
    }
  }

  // ---- the keyed bars are the drawn ticks ----

  /** `b` holds the keys and heights of the barred ticks, whose indices are `d`. */
  ghost predicate BarsAre(ticks: seq<Tick>, g: BakeColumns, rawHeight: (nat, Float) -> Float, b: Bars, d: seq<nat>) {
    && b.Ok() && |b.rows| == |d| && Pairwise(d, (x: nat, y: nat) => x < y)
    && (forall i: nat :: i in d <==> i < |ticks| && Barred(g, ticks[i]))
    && forall k :: 0 <= k < |d| ==>
         && d[k] < |ticks| && Barred(g, ticks[d[k]])
         && b.rows[k].col == RoundTiesEven(ticks[d[k]].sx.v) && b.rows[k].side == ticks[d[k]].side
         && b.px[k] == BarPx(ticks[d[k]], rawHeight)
  }

  lemma BarsAreTicks(ticks: seq<Tick>, g: BakeColumns, rawHeight: (nat, Float) -> Float) returns (d: seq<nat>)
    requires Addressable(g)
    ensures d == Drawn(ticks, (t: Tick) => VolumeDrawn(g, t))
    ensures BarsAre(ticks, g, rawHeight, BarsOf(VolumeRows(ticks, g), rawHeight), d)
  {
    var p := (t: Tick) => VolumeDrawn(g, t);
    d := Drawn(ticks, p);
    DrawnBarsOk(ticks, g, rawHeight);
    RowsOfDrawn(ticks, p);
    DrawnMembers(ticks, p);
    forall i: nat ensures i in d <==> i < |ticks| && Barred(g, ticks[i]) {
      if i < |ticks| { DrawnIsBarred(g, ticks[i]); }
    }
    forall k | 0 <= k < |d|
      ensures d[k] < |ticks| && Barred(g, ticks[d[k]])
      ensures ToKey(Round(ticks[d[k]].sx)) == RoundTiesEven(ticks[d[k]].sx.v)
    {
      assert d[k] in d;
      KeyIsRounded(ticks[d[k]].sx);
    }
  }

  lemma TallestIsTallest(ticks: seq<Tick>, g: BakeColumns, rawHeight: (nat, Float) -> Float, b: Bars, d: seq<nat>,
                         k: nat)
    requires BarsAre(ticks, g, rawHeight, b, d) && k < |d|
    ensures Tallest(b, k) <==> TallestBar(ticks, g, rawHeight, d[k])
  {
    if Tallest(b, k) {
      forall j | 0 <= j < |ticks| && OneColumn(g, ticks[j], ticks[d[k]]) && ticks[j].side == ticks[d[k]].side
        ensures BarPx(ticks[j], rawHeight) <= BarPx(ticks[d[k]], rawHeight)
        ensures d[k] < j ==> BarPx(ticks[j], rawHeight) < BarPx(ticks[d[k]], rawHeight)
      {
        assert j in d;
        var m: nat :| m < |d| && d[m] == j;
        DrawnOrder(d, m, k);
      }
    }
    if TallestBar(ticks, g, rawHeight, d[k]) {
      forall j | 0 <= j < |b.rows| && b.rows[j].col == b.rows[k].col && b.rows[j].side == b.rows[k].side
        ensures b.px[j] < b.px[k] || (b.px[j] == b.px[k] && j <= k)
      {
        assert OneColumn(g, ticks[d[j]], ticks[d[k]]);
        DrawnOrder(d, j, k);
      }
    }
  }

  lemma OverIsCovering(ticks: seq<Tick>, g: BakeColumns, rawHeight: (nat, Float) -> Float, b: Bars, d: seq<nat>,
                       rows: set<nat>, kept: set<nat>, k: nat)
    requires BarsAre(ticks, g, rawHeight, b, d) && k < |d|
    requires forall j :: j in rows ==> j < |d|
    requires forall i :: i in kept ==> i in d
    requires forall j :: 0 <= j < |d| ==> (d[j] in kept <==> j in rows)
    ensures |Over(ticks, g, rawHeight, kept, d[k])| == |Covering(b, rows, k)|
  {
    forall j | 0 <= j < |d|
      ensures d[j] in Over(ticks, g, rawHeight, kept, d[k]) <==> j in Covering(b, rows, k)
    {
      DrawnOrder(d, j, k);
    }
    SameSize(d, Covering(b, rows, k), Over(ticks, g, rawHeight, kept, d[k]));
  }

  /** The ticks whose bars the reduction keeps. */
  ghost function KeptBars(ticks: seq<Tick>, g: BakeColumns, rawHeight: (nat, Float) -> Float, v: nat): set<nat> {
    DrawnBarsOk(ticks, g, rawHeight);
    var d := Drawn(ticks, (t: Tick) => VolumeDrawn(g, t));
    set k | k in Kept(BarsOf(VolumeRows(ticks, g), rawHeight), v) && k < |d| :: d[k]
  }

  lemma KeptBarsAre(ticks: seq<Tick>, g: BakeColumns, rawHeight: (nat, Float) -> Float, v: nat) returns (d: seq<nat>)
    requires Addressable(g)
    ensures d == Drawn(ticks, (t: Tick) => VolumeDrawn(g, t))
    ensures BarsAre(ticks, g, rawHeight, BarsOf(VolumeRows(ticks, g), rawHeight), d)
    ensures forall i :: i in KeptBars(ticks, g, rawHeight, v) ==> i in d
    ensures forall k :: 0 <= k < |d| ==>
      (d[k] in KeptBars(ticks, g, rawHeight, v) <==> k in Kept(BarsOf(VolumeRows(ticks, g), rawHeight), v))
  {
    d := BarsAreTicks(ticks, g, rawHeight);
    forall k | 0 <= k < |d| && d[k] in KeptBars(ticks, g, rawHeight, v)
      ensures k in Kept(BarsOf(VolumeRows(ticks, g), rawHeight), v)
    {
      var m :| m in Kept(BarsOf(VolumeRows(ticks, g), rawHeight), v) && m < |d| && d[m] == d[k];
      DrawnOrder(d, m, k);
    }
  }

  /** The bars kept are the greedy choice, and their slots are what the reduction returns. */
  lemma KeptBarsGreedy(ticks: seq<Tick>, g: BakeColumns, rawHeight: (nat, Float) -> Float, v: nat)
    requires Addressable(g)
    ensures BarsOf(VolumeRows(ticks, g), rawHeight).Ok()
    ensures GreedyBars(ticks, g, rawHeight, v, KeptBars(ticks, g, rawHeight, v))
    ensures var b := BarsOf(VolumeRows(ticks, g), rawHeight);
            Slots(b.rows, VolumePicks(b, v))
              == PickSlots(ticks, Ticks(ticks, (i: nat) => i in KeptBars(ticks, g, rawHeight, v)))
  {
    var b, kept := BarsOf(VolumeRows(ticks, g), rawHeight), KeptBars(ticks, g, rawHeight, v);
    var d := KeptBarsAre(ticks, g, rawHeight, v);
    forall k | 0 <= k < |d|
      ensures d[k] in kept <==> TallestBar(ticks, g, rawHeight, d[k]) || |Over(ticks, g, rawHeight, kept, d[k])| < v
    {
      KeptIff(b, v, k);
      TallestIsTallest(ticks, g, rawHeight, b, d, k);
      OverIsCovering(ticks, g, rawHeight, b, d, Kept(b, v), kept, k);
    }
    forall i: nat | i < |ticks| && i in kept ensures VolumeDrawn(g, ticks[i]) {
      DrawnIsBarred(g, ticks[i]);
    }
    RowChoice(ticks, (t: Tick) => VolumeDrawn(g, t), (k: nat) => k in Kept(b, v), (i: nat) => i in kept);
  }

  /** A pixel column keeps at most 73 bars for each that may cover one, and a tallest of each side. */
  lemma BarBudget(ticks: seq<Tick>, g: BakeColumns, rawHeight: (nat, Float) -> Float, v: nat, i: nat)
    requires Addressable(g) && i < |ticks|
    ensures |set j | j in KeptBars(ticks, g, rawHeight, v) && j < |ticks| && OneColumn(g, ticks[j], ticks[i])|
            <= v * 73 + 2
  {
    var b, kept := BarsOf(VolumeRows(ticks, g), rawHeight), KeptBars(ticks, g, rawHeight, v);
    var d := KeptBarsAre(ticks, g, rawHeight, v);
    var column := set j | j in kept && j < |ticks| && OneColumn(g, ticks[j], ticks[i]);
    if Barred(g, ticks[i]) {
      var col := RoundTiesEven(ticks[i].sx.v);
      SameSize(d, ColumnKept(b, v, col), column);
      ColumnBudget(b, v, col);
    } else {
      assert column == {};
    }
  }

  /** `keep` is how many overlapping bars of the current opacity make one more invisible. */
  method ReduceVolume(ticks: seq<Tick>, g: BakeColumns, rawHeight: (nat, Float) -> Float, keep: nat, out: LodPick)
    modifies out
    ensures BarsOf(VolumeRows(ticks, g), rawHeight).Ok()
    ensures var b := BarsOf(VolumeRows(ticks, g), rawHeight);
            out.volume == Slots(b.rows, VolumePicks(b, keep))
    ensures Addressable(g) ==>
              && GreedyBars(ticks, g, rawHeight, keep, KeptBars(ticks, g, rawHeight, keep))
              && out.volume == PickSlots(ticks, Ticks(ticks, (i: nat) => i in KeptBars(ticks, g, rawHeight, keep)))
    ensures out.cross == old(out.cross)
  {
    if Addressable(g) { KeptBarsGreedy(ticks, g, rawHeight, keep); }
    DrawnBarsOk(ticks, g, rawHeight);
    out.volume := [];
    var rows, span := KeyRows(ticks, (t: Tick) => VolumeDrawn(g, t));
    if |rows| == 0 {
      return;
    }
    var b := BarsOf(rows, rawHeight);
    var order := VolumeOrder(rows, span);
    KeptIsGreedy(b, keep);
    var flags := CullBars(b, keep, Kept(b, keep), order);
    out.volume := CollectSlots(rows, flags, (k: nat) => k in Kept(b, keep));
  }
}

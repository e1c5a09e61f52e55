/**
 Horizontal volumes: rolling sums over a price profile at every pixel of a zone, by two pointers,
 and the readout under the cursor (crates/moon-chart/src/hvol.rs).
 */
module HVol {
  import opened Floats
  import opened Seqs
  import opened Sorting

  /** Bought and sold turnover between two prices. */
  datatype Row = Row(lo: real, hi: real, buy: real, sell: real)

  datatype Grid = Grid(top: Float, pxPerPrice: Float, height: nat)

  function Centre(b: Row): real { (b.lo + b.hi) * 0.5 }

  /** One side's turnover; a malformed negative figure counts as nothing. */
  function Weight(b: Row, buying: bool): real { Max(if buying then b.buy else b.sell, 0.0) }

  predicate ByCentre(a: Row, b: Row) { Centre(a) <= Centre(b) }

  const CENTRE_ORDER := (a: Row, b: Row) => ByCentre(a, b)

  // ---- the direct sums ----

  /** A side's turnover over the bins whose centre lies in `[from, to)`. */
  function DirectSum(bins: seq<Row>, from: real, to: real, buying: bool): (sum: real)
    ensures sum >= 0.0
  {
    if bins == [] then 0.0
    else
      var last := bins[|bins| - 1];
      DirectSum(bins[..|bins| - 1], from, to, buying) + if from <= Centre(last) < to then Weight(last, buying) else 0.0
  }

  function Total(bins: seq<Row>, buying: bool): (sum: real)
    ensures sum >= 0.0
  {
    if bins == [] then 0.0 else Total(bins[..|bins| - 1], buying) + Weight(bins[|bins| - 1], buying)
  }

  lemma {:induction false} TotalDropFirst(bins: seq<Row>, buying: bool)
    requires bins != []
    ensures Total(bins[1..], buying) == Total(bins, buying) - Weight(bins[0], buying)
  {
    if |bins| == 1 {
      assert bins[1..] == [] && bins[..0] == [];
    } else {
      var init := bins[..|bins| - 1];
      TotalDropFirst(init, buying);
      assert bins[1..][..|bins| - 2] == init[1..];
    }
  }

  lemma {:induction false} DirectConcat(a: seq<Row>, b: seq<Row>, from: real, to: real, buying: bool)
    ensures DirectSum(a + b, from, to, buying) == DirectSum(a, from, to, buying) + DirectSum(b, from, to, buying)
  {
    if b == [] {
      assert a + b == a;
    } else {
      assert (a + b)[..|a + b| - 1] == a + b[..|b| - 1];
      DirectConcat(a, b[..|b| - 1], from, to, buying);
    }
  }

  lemma {:induction false} DirectNone(bins: seq<Row>, from: real, to: real, buying: bool)
    requires forall i :: 0 <= i < |bins| ==> !(from <= Centre(bins[i]) < to)
    ensures DirectSum(bins, from, to, buying) == 0.0
  {
    if bins != [] { DirectNone(bins[..|bins| - 1], from, to, buying); }
  }

  lemma {:induction false} DirectAll(bins: seq<Row>, from: real, to: real, buying: bool)
    requires forall i :: 0 <= i < |bins| ==> from <= Centre(bins[i]) < to
    ensures DirectSum(bins, from, to, buying) == Total(bins, buying)
  {
    if bins != [] { DirectAll(bins[..|bins| - 1], from, to, buying); }
  }

  /** Where the two pointers stand once both loops have run for a window. */
  predicate Stands(bins: seq<Row>, lo: nat, hi: nat, from: real, to: real) {
    && lo <= hi <= |bins|
    && (forall i :: 0 <= i < lo ==> Centre(bins[i]) < from)
    && (lo < hi ==> from <= Centre(bins[lo]))
    && (forall i :: 0 <= i < hi ==> Centre(bins[i]) < to)
    && (hi < |bins| ==> to <= Centre(bins[hi]))
  }

  lemma DirectSplit(bins: seq<Row>, lo: nat, hi: nat, from: real, to: real, buying: bool)
    requires lo <= hi <= |bins|
    ensures DirectSum(bins, from, to, buying)
         == DirectSum(bins[..lo], from, to, buying) + DirectSum(bins[lo..hi], from, to, buying)
            + DirectSum(bins[hi..], from, to, buying)
  {
    assert bins == bins[..lo] + bins[lo..hi] + bins[hi..];
    DirectConcat(bins[..lo] + bins[lo..hi], bins[hi..], from, to, buying);
    DirectConcat(bins[..lo], bins[lo..hi], from, to, buying);
  }

  /** Sorted bins stay on their pointer's side of the window's edges. */
  lemma StandsSorted(bins: seq<Row>, lo: nat, hi: nat, from: real, to: real)
    requires Pairwise(bins, CENTRE_ORDER) && Stands(bins, lo, hi, from, to)
    ensures forall i :: lo <= i < hi ==> from <= Centre(bins[i]) < to
    ensures forall i :: hi <= i < |bins| ==> to <= Centre(bins[i])
  {
    forall i | lo < i < hi ensures from <= Centre(bins[i]) { assert CENTRE_ORDER(bins[lo], bins[i]); }
    forall i | hi < i < |bins| ensures to <= Centre(bins[i]) { assert CENTRE_ORDER(bins[hi], bins[i]); }
  }

  /** Over sorted bins the pointers bracket exactly the window's bins. */
  lemma StandsIsDirect(bins: seq<Row>, lo: nat, hi: nat, from: real, to: real, buying: bool)
    requires Pairwise(bins, CENTRE_ORDER) && from < to && Stands(bins, lo, hi, from, to)
    ensures DirectSum(bins, from, to, buying) == Total(bins[lo..hi], buying)
  {
    var a, b, c := bins[..lo], bins[lo..hi], bins[hi..];
    StandsSorted(bins, lo, hi, from, to);
    DirectSplit(bins, lo, hi, from, to, buying);
    DirectNone(a, from, to, buying);
    DirectAll(b, from, to, buying);
    DirectNone(c, from, to, buying);
  }

  // ---- the samples ----

  predicate Drawable(bins: seq<Row>, window: Float, grid: Grid) {
    && window.Fin? && window.v > 0.0
    && grid.pxPerPrice.Fin? && grid.pxPerPrice.v > 0.0
    && grid.top.Fin? && grid.height > 0 && bins != []
  }

  /** The price at the top edge of pixel row `y`; one row down is its bottom edge. */
  function Edge(top: real, px: real, y: nat): real { top - y as real * px }

  function PixelCentre(top: real, px: real, y: nat): real { (Edge(top, px, y) + Edge(top, px, y + 1)) * 0.5 }

  /** The row a pixel ought to show: the direct sums around its centre. */
  function Sample(bins: seq<Row>, half: real, top: real, px: real, y: nat): Row {
    var c := PixelCentre(top, px, y);
    Row(Edge(top, px, y + 1), Edge(top, px, y),
        DirectSum(bins, c - half, c + half, true), DirectSum(bins, c - half, c + half, false))
  }

  predicate Shown(r: Row) { r.buy > 0.0 || r.sell > 0.0 }

  /** The shown samples of rows `y..height`, bottom-up. */
  function Samples(bins: seq<Row>, half: real, top: real, px: real, y: nat, height: nat): seq<Row>
    requires y <= height
    decreases height - y
  {
    if y == height then []
    else
      var r := Sample(bins, half, top, px, y);
      Samples(bins, half, top, px, y + 1, height) + if Shown(r) then [r] else []
  }

  lemma TotalGrow(bins: seq<Row>, lo: nat, hi: nat, buying: bool)
    requires lo <= hi < |bins|
    ensures Total(bins[lo..hi + 1], buying) == Total(bins[lo..hi], buying) + Weight(bins[hi], buying)
  {
    assert bins[lo..hi + 1][..hi - lo] == bins[lo..hi];
  }

  lemma TotalShrink(bins: seq<Row>, lo: nat, hi: nat, buying: bool)
    requires lo < hi <= |bins|
    ensures Total(bins[lo + 1..hi], buying) == Total(bins[lo..hi], buying) - Weight(bins[lo], buying)
  {
    assert bins[lo..hi][1..] == bins[lo + 1..hi];
    TotalDropFirst(bins[lo..hi], buying);
  }

  /** Takes in the bins below the window's upper edge. */
  method TakeIn(bins: seq<Row>, to: real, lo: nat, hi0: nat, buy0: real, sell0: real)
    returns (hi: nat, buy: real, sell: real)
    requires lo <= hi0 <= |bins| && forall i :: 0 <= i < hi0 ==> Centre(bins[i]) < to
    requires buy0 == Total(bins[lo..hi0], true) && sell0 == Total(bins[lo..hi0], false)
    ensures hi0 <= hi <= |bins| && (forall i :: 0 <= i < hi ==> Centre(bins[i]) < to)
    ensures hi < |bins| ==> to <= Centre(bins[hi])
    ensures buy == Total(bins[lo..hi], true) && sell == Total(bins[lo..hi], false)
  {
    hi, buy, sell := hi0, buy0, sell0;
    while hi < |bins| && Centre(bins[hi]) < to
      invariant hi0 <= hi <= |bins|
      invariant forall i :: 0 <= i < hi ==> Centre(bins[i]) < to
      invariant buy == Total(bins[lo..hi], true) && sell == Total(bins[lo..hi], false)
    {
      TotalGrow(bins, lo, hi, true);
      TotalGrow(bins, lo, hi, false);
      buy := buy + Max(bins[hi].buy, 0.0);
      sell := sell + Max(bins[hi].sell, 0.0);
      hi := hi + 1;
    }
  }

  /** Lets go of the bins below the window's lower edge. */
  method LetGo(bins: seq<Row>, from: real, lo0: nat, hi: nat, buy0: real, sell0: real)
    returns (lo: nat, buy: real, sell: real)
    requires lo0 <= hi <= |bins| && forall i :: 0 <= i < lo0 ==> Centre(bins[i]) < from
    requires buy0 == Total(bins[lo0..hi], true) && sell0 == Total(bins[lo0..hi], false)
    ensures lo0 <= lo <= hi && (forall i :: 0 <= i < lo ==> Centre(bins[i]) < from)
    ensures lo < hi ==> from <= Centre(bins[lo])
    ensures buy == Total(bins[lo..hi], true) && sell == Total(bins[lo..hi], false)
  {
    lo, buy, sell := lo0, buy0, sell0;
    while lo < hi && Centre(bins[lo]) < from
      invariant lo0 <= lo <= hi
      invariant forall i :: 0 <= i < lo ==> Centre(bins[i]) < from
      invariant buy == Total(bins[lo..hi], true) && sell == Total(bins[lo..hi], false)
    {
      TotalShrink(bins, lo, hi, true);
      TotalShrink(bins, lo, hi, false);
      buy := buy - Max(bins[lo].buy, 0.0);
      sell := sell - Max(bins[lo].sell, 0.0);
      lo := lo + 1;
    }
    if lo == hi {
      buy, sell := 0.0, 0.0;
    }
  }

  /** One pixel's walk: from the sums of a lower window to this window's direct sums. */
  method Slide(bins: seq<Row>, from: real, to: real, lo0: nat, hi0: nat, buy0: real, sell0: real)
    returns (lo: nat, hi: nat, buy: real, sell: real)
    requires Pairwise(bins, CENTRE_ORDER) && from < to && lo0 <= hi0 <= |bins|
    requires Below(bins, lo0, hi0, from, to)
    requires buy0 == Total(bins[lo0..hi0], true) && sell0 == Total(bins[lo0..hi0], false)
    ensures lo <= hi <= |bins| && lo0 <= lo && hi0 <= hi && Below(bins, lo, hi, from, to)
    ensures buy == Total(bins[lo..hi], true) == DirectSum(bins, from, to, true)
    ensures sell == Total(bins[lo..hi], false) == DirectSum(bins, from, to, false)
  {
    hi, buy, sell := TakeIn(bins, to, lo0, hi0, buy0, sell0);
    lo, buy, sell := LetGo(bins, from, lo0, hi, buy, sell);
    StandsIsDirect(bins, lo, hi, from, to, true);
    StandsIsDirect(bins, lo, hi, from, to, false);
  }

  /**
   The rolling sums, in one walk over the bins: every pixel gets its direct sums, and the pointers
   move at most once past each bin however tall the zone is.
   */
  method RollingSamples(bins: seq<Row>, window: Float, grid: Grid) returns (out: seq<Row>, ghost moves: nat)
    requires Pairwise(bins, CENTRE_ORDER)
    ensures !Drawable(bins, window, grid) ==> out == []
    ensures Drawable(bins, window, grid) ==>
              out == Samples(bins, window.v * 0.5, grid.top.v, 1.0 / grid.pxPerPrice.v, 0, grid.height)
    ensures moves <= 2 * |bins|
  {
    out, moves := [], 0;
    if !window.Fin? || window.v <= 0.0 || !grid.pxPerPrice.Fin? || grid.pxPerPrice.v <= 0.0 || !grid.top.Fin?
       || grid.height == 0 || bins == [] {
      return;
    }
    var half, px, top := window.v * 0.5, 1.0 / grid.pxPerPrice.v, grid.top.v;
    var lo: nat, hi: nat, buy, sell := 0, 0, 0.0, 0.0;
    var y: nat := grid.height;
    while y > 0
      invariant y <= grid.height && lo <= hi <= |bins| && moves == lo + hi
      invariant y < grid.height ==> Below(bins, lo, hi, PixelCentre(top, px, y) - half, PixelCentre(top, px, y) + half)
      invariant y == grid.height ==> lo == hi == 0
      invariant buy == Total(bins[lo..hi], true) && sell == Total(bins[lo..hi], false)
      invariant out == Samples(bins, half, top, px, y, grid.height)
    {
      y := y - 1;
      CentresRise(top, px, y);
      var c := PixelCentre(top, px, y);
      lo, hi, buy, sell := Slide(bins, c - half, c + half, lo, hi, buy, sell);
      moves := lo + hi;
      if buy > 0.0 || sell > 0.0 {
        out := out + [Row(Edge(top, px, y + 1), Edge(top, px, y), Max(buy, 0.0), Max(sell, 0.0))];
      }
    }
  }

  predicate Below(bins: seq<Row>, lo: nat, hi: nat, from: real, to: real)
    requires lo <= hi <= |bins|
  {
    && (forall i :: 0 <= i < lo ==> Centre(bins[i]) < from)
    && (forall i :: 0 <= i < hi ==> Centre(bins[i]) < to)
  }

  lemma EdgesFall(top: real, px: real, y: nat, z: nat)
    requires px > 0.0 && y <= z
    ensures Edge(top, px, z) <= Edge(top, px, y)
    ensures y < z ==> Edge(top, px, z) < Edge(top, px, y)
  {
    var d := (z - y) as real;
    assert z as real * px == y as real * px + d * px;
    assert d * px >= 0.0 && (y < z ==> d * px > 0.0);
  }

  lemma CentresRise(top: real, px: real, y: nat)
    requires px > 0.0
    ensures PixelCentre(top, px, y + 1) <= PixelCentre(top, px, y)
  {
    EdgesFall(top, px, y, y + 1);
    EdgesFall(top, px, y + 1, y + 2);
  }

  // ---- rows and the readout ----

  /** Rows of positive width inside `[bottom, top]`, in order and without overlap. */
  predicate Ascending(s: seq<Row>, bottom: real, top: real) {
    && (forall i :: 0 <= i < |s| ==> bottom <= s[i].lo < s[i].hi <= top)
    && (forall i, j :: 0 <= i < j < |s| ==> s[i].hi <= s[j].lo)
  }

  lemma AscendMore(rest: seq<Row>, r: Row, bottom: real, mid: real, top: real)
    requires Ascending(rest, bottom, mid) && bottom <= mid <= r.lo < r.hi <= top
    ensures Ascending(rest + [r], bottom, top)
  {
    assert forall i :: 0 <= i < |rest| ==> (rest + [r])[i] == rest[i];
  }

  lemma {:induction false} SamplesAscend(bins: seq<Row>, half: real, top: real, px: real, y: nat, height: nat)
    requires px > 0.0 && y <= height
    ensures Ascending(Samples(bins, half, top, px, y, height), Edge(top, px, height), Edge(top, px, y))
    decreases height - y
  {
    if y < height {
      var rest, r := Samples(bins, half, top, px, y + 1, height), Sample(bins, half, top, px, y);
      SamplesAscend(bins, half, top, px, y + 1, height);
      EdgesFall(top, px, y, y + 1);
      EdgesFall(top, px, y + 1, height);
      if Shown(r) {
        AscendMore(rest, r, Edge(top, px, height), Edge(top, px, y + 1), Edge(top, px, y));
      } else {
        assert Samples(bins, half, top, px, y, height) == rest;
      }
    }
  }

  predicate EndsBy(r: Row, price: real) { r.hi <= price }

  /** The readout: the first row ending past the price, if it holds it. */
  function RowAt(rows: seq<Row>, price: Float): Option<Row> {
    if !price.Fin? then None
    else
      var ix := PartitionPoint(rows, (r: Row) => EndsBy(r, price.v));
      if ix < |rows| && rows[ix].lo <= price.v < rows[ix].hi then Some(rows[ix]) else None
  }

  lemma {:induction false} RowAtConcat(rows: seq<Row>, last: Row, bottom: real, price: real)
    requires Ascending(rows, bottom, last.lo) && last.lo < last.hi
    ensures RowAt(rows + [last], Fin(price))
         == if last.lo <= price < last.hi then Some(last) else RowAt(rows, Fin(price))
  {
    var p := (r: Row) => EndsBy(r, price);
    var all, ix, jx := rows + [last], PartitionPoint(rows, p), PartitionPoint(rows + [last], p);
    assert forall i :: 0 <= i < |rows| ==> all[i] == rows[i];
    if ix < |rows| {
      assert !p(rows[ix]) && rows[ix].hi <= last.lo;
      PartitionAgrees(rows, last, p);
    } else {
      PartitionAgrees(rows, last, p);
    }
  }

  lemma {:induction false} PartitionAgrees(rows: seq<Row>, last: Row, p: Row -> bool)
    ensures var ix := PartitionPoint(rows, p);
            PartitionPoint(rows + [last], p) == if ix < |rows| then ix else if p(last) then |rows| + 1 else |rows|
  {
    if rows == [] {
      assert [last][1..] == [];
    } else {
      assert (rows + [last])[1..] == rows[1..] + [last];
      PartitionAgrees(rows[1..], last, p);
    }
  }

  lemma {:induction false} RowAtNone(rows: seq<Row>, price: real)
    requires forall i :: 0 <= i < |rows| ==> !(rows[i].lo <= price < rows[i].hi)
    ensures RowAt(rows, Fin(price)) == None
  {
  }

  /** The readout at any price in any pixel is exactly that pixel's direct sums, or nothing at zero. */
  lemma {:induction false} RowAtIsDirect(bins: seq<Row>, half: real, top: real, px: real, y: nat, height: nat,
                                         at: nat, price: real)
    requires px > 0.0 && y <= at < height && Edge(top, px, at + 1) <= price < Edge(top, px, at)
    ensures var r := Sample(bins, half, top, px, at);
            RowAt(Samples(bins, half, top, px, y, height), Fin(price)) == if Shown(r) then Some(r) else None
    decreases height - y
  {
    var r, rest := Sample(bins, half, top, px, y), Samples(bins, half, top, px, y + 1, height);
    SamplesAscend(bins, half, top, px, y + 1, height);
    EdgesFall(top, px, y, y + 1);
    if y < at {
      EdgesFall(top, px, y + 1, at);
      RowAtIsDirect(bins, half, top, px, y + 1, height, at, price);
    } else {
      RowAtNone(rest, price);
    }
    if Shown(r) {
      RowAtConcat(rest, r, Edge(top, px, height), price);
    } else {
      assert Samples(bins, half, top, px, y, height) == rest;
    }
  }

  /** Outside the zone there is nothing to read. */
  lemma RowAtOutside(bins: seq<Row>, half: real, top: real, px: real, height: nat, price: Float)
    requires px > 0.0 && (price.Fin? ==> price.v < Edge(top, px, height) || Edge(top, px, 0) <= price.v)
    ensures RowAt(Samples(bins, half, top, px, 0, height), price) == None
  {
    SamplesAscend(bins, half, top, px, 0, height);
    if price.Fin? { RowAtNone(Samples(bins, half, top, px, 0, height), price.v); }
  }

  // ---- in plain arithmetic ----

  /** What a bin adds to a pixel whose window is `half` to each side of the price `c`. */
  function Share(b: Row, c: real, half: real, buying: bool): real {
    if c - half <= (b.lo + b.hi) / 2.0 && (b.lo + b.hi) / 2.0 < c + half
    then (if (if buying then b.buy else b.sell) > 0.0 then if buying then b.buy else b.sell else 0.0)
    else 0.0
  }

  lemma {:induction false} DirectIsShares(bins: seq<Row>, c: real, half: real, buying: bool)
    ensures DirectSum(bins, c - half, c + half, buying) == SumBy(bins, (b: Row) => Share(b, c, half, buying))
  {
    if bins != [] { DirectIsShares(bins[..|bins| - 1], c, half, buying); }
  }

  function PixelPrice(top: real, px: real, y: real): real { top - y * px }

  lemma PixelPrices(top: real, px: real, y: nat)
    ensures Edge(top, px, y) == PixelPrice(top, px, y as real)
    ensures PixelCentre(top, px, y) == PixelPrice(top, px, y as real + 0.5)
  {
    assert (y + 1) as real * px == y as real * px + px;
    assert (y as real + 0.5) * px == y as real * px + 0.5 * px;
  }

  /**
   The readout at a price in pixel row `y` is the positive turnover of the bins whose middle lies within
   half a window of the row's own middle, over the row's own prices; nothing where both sides have none.
   */
  lemma ReadoutIs(bins: seq<Row>, half: real, top: real, px: real, height: nat, y: nat, price: real)
    requires px > 0.0 && y < height
    requires PixelPrice(top, px, y as real + 1.0) <= price < PixelPrice(top, px, y as real)
    ensures var c := PixelPrice(top, px, y as real + 0.5);
            var buy := SumBy(bins, (b: Row) => Share(b, c, half, true));
            var sell := SumBy(bins, (b: Row) => Share(b, c, half, false));
            RowAt(Samples(bins, half, top, px, 0, height), Fin(price)) ==
              if buy > 0.0 || sell > 0.0
              then Some(Row(PixelPrice(top, px, y as real + 1.0), PixelPrice(top, px, y as real), buy, sell)) else None
  {
    var c := PixelCentre(top, px, y);
    PixelPrices(top, px, y);
    PixelPrices(top, px, y + 1);
    DirectIsShares(bins, c, half, true);
    DirectIsShares(bins, c, half, false);
    RowAtIsDirect(bins, half, top, px, 0, height, y, price);
  }
}

/**
 From a tape to its discs: ordering the prints and merging the discs that touch
 (crates/moon-chart/src/clusters.rs).
 */
module TapeDiscs {
  import opened Floats
  import opened Seqs
  import opened Sorting
  import opened Prints
  import opened Discs
  import opened TapePrints

  // ---- touching ----

  /** Two prints of one price whose discs would not overlap. */
  predicate Untouched(a: Print, b: Print, ppm: real, size: real -> (real, bool)) {
    a.key == b.key ==> (b.time - a.time) * ppm >= size(a.buy + a.sell).0 + size(b.buy + b.sell).0
  }

  /** A print drawn by itself. */
  predicate DrawnAlone(d: Disc, p: Print, size: real -> (real, bool)) {
    && d.time == d.firstMs == p.time && d.price == p.price && d.key == p.key && d.buy == p.buy && d.sell == p.sell
    && (d.radius, d.small) == size(p.buy + p.sell)
  }

  /** Prints whose discs do not touch are each drawn by themselves: nothing is merged without need. */
  lemma {:induction false} UntouchedStayApart(run: seq<Print>, ppm: real, size: real -> (real, bool))
    requires ppm > 0.0 && forall i :: 0 < i < |run| ==> Untouched(run[i - 1], run[i], ppm, size)
    ensures var discs := MergeAll(run, ppm, size);
            |discs| == |run| && forall i :: 0 <= i < |run| ==> DrawnAlone(discs[i], run[i], size)
  {
    if run != [] {
      var n := |run| - 1;
      UntouchedStayApart(run[..n], ppm, size);
      NextStays(MergeAll(run[..n], ppm, size), run, ppm, size);
    }
  }

  lemma NextStays(before: seq<Disc>, run: seq<Print>, ppm: real, size: real -> (real, bool))
    requires run != [] && |before| == |run| - 1 && ppm > 0.0
    requires forall i :: 0 <= i < |before| ==> DrawnAlone(before[i], run[i], size)
    requires |run| > 1 ==> Untouched(run[|run| - 2], run[|run| - 1], ppm, size)
    ensures var discs := Settle(before, DiscOf(run[|run| - 1], size), ppm, size);
            |discs| == |run| && forall i :: 0 <= i < |run| ==> DrawnAlone(discs[i], run[i], size)
  {
    var n := |run| - 1;
    if n > 0 { NoCover(before[n - 1], run[n - 1], run[n], ppm, size); }
    Stays(before, DiscOf(run[n], size), ppm, size);
  }

  lemma NoCover(last: Disc, a: Print, b: Print, ppm: real, size: real -> (real, bool))
    requires ppm > 0.0 && DrawnAlone(last, a, size) && Untouched(a, b, ppm, size)
    ensures !Covers(last, DiscOf(b, size), ppm)
  {
    AbsScaled(b.time - a.time, ppm);
  }

  lemma AbsScaled(d: real, k: real)
    requires k > 0.0
    ensures Abs(d) * k >= d * k
  {
    if d < 0.0 { assert -d * k > 0.0 && d * k < 0.0; }
  }

  /** No two discs of one price overlap: their centres are at least the sum of their radii apart. */
  lemma DiscsDoNotOverlap(run: seq<Print>, ppm: real, size: real -> (real, bool), i: nat, j: nat)
    requires Ordered(run) && Volumes(run) && ppm > 0.0 && forall v :: size(v).0 >= 0.0
    requires i < j < |MergeAll(run, ppm, size)|
    requires MergeAll(run, ppm, size)[i].key == MergeAll(run, ppm, size)[j].key
    ensures var (a, b) := (MergeAll(run, ppm, size)[i], MergeAll(run, ppm, size)[j]);
            (b.time - a.time) * ppm >= a.radius + b.radius
  {
    NoTwoDiscsCover(run, ppm, size, i, j);
    var a, b := MergeAll(run, ppm, size)[i], MergeAll(run, ppm, size)[j];
    assert a.time <= b.time;
    assert Abs(b.time - a.time) == b.time - a.time;
  }

  // ---- from a tape to its discs ----

  /** The discs of prints as they are drawn: ordered by price and time, then merged. */
  function DiscsOf(prints: seq<Print>, ppm: real, size: real -> (real, bool)): seq<Disc> {
    MergeAll(Named(prints, PriceTimeOrder(prints)), ppm, size)
  }

  lemma SingleSidedVolumes(prints: seq<Print>, order: seq<nat>)
    requires SingleSided(prints) && forall i :: 0 <= i < |order| ==> order[i] < |prints|
    ensures Volumes(Run(prints, order))
  {
  }

  /** For any tape, the discs come out by price and time and no two of one price cover each other. */
  lemma TapeDiscsApart(trades: seq<Trade>, tick: Option<Float>, bits: real -> int, window: real, ppm: real,
                       size: real -> (real, bool), i: nat, j: nat)
    requires ppm > 0.0 && forall v :: size(v).0 >= 0.0
    requires i < j < |DiscsOf(Aggregate(Fills(trades, tick, bits), window), ppm, size)|
    ensures var discs := DiscsOf(Aggregate(Fills(trades, tick, bits), window), ppm, size);
            DiscsOrdered(discs) && !Covers(discs[i], discs[j], ppm)
  {
    var prints := Aggregate(Fills(trades, tick, bits), window);
    FillsUsable(trades, tick, bits);
    PrintsSingleSided(Fills(trades, tick, bits), window);
    PriceTimeOrderSorts(prints);
    NamedIsRun(prints, PriceTimeOrder(prints));
    SingleSidedVolumes(prints, PriceTimeOrder(prints));
    NoTwoDiscsCover(Run(prints, PriceTimeOrder(prints)), ppm, size, i, j);
  }

  function BuyAt(prints: seq<Print>, k: nat): real { if k < |prints| then prints[k].buy else 0.0 }

  function SellAt(prints: seq<Print>, k: nat): real { if k < |prints| then prints[k].sell else 0.0 }

  /** What an order names can be summed index by index. */
  lemma {:induction false} NamedSums(prints: seq<Print>, order: seq<nat>)
    ensures SumBuy(Named(prints, order)) == SumBy(order, (k: nat) => BuyAt(prints, k))
    ensures SumSell(Named(prints, order)) == SumBy(order, (k: nat) => SellAt(prints, k))
  {
    if order != [] {
      var init, k := order[..|order| - 1], order[|order| - 1];
      NamedSums(prints, init);
      NamedNext(prints, init, k);
      assert order == init + [k];
    }
  }

  lemma NamedNext(prints: seq<Print>, order: seq<nat>, k: nat)
    ensures SumBuy(Named(prints, order + [k])) == SumBuy(Named(prints, order)) + BuyAt(prints, k)
    ensures SumSell(Named(prints, order + [k])) == SumSell(Named(prints, order)) + SellAt(prints, k)
  {
    var named := Named(prints, order);
    assert (order + [k])[..|order|] == order;
    if k < |prints| {
      assert (named + [prints[k]])[..|named|] == named;
    } else {
      assert named + [] == named;
    }
  }

  lemma {:induction false} NamedAll(prints: seq<Print>, n: nat)
    requires n <= |prints|
    ensures Named(prints, Indices(n)) == prints[..n]
  {
    if n > 0 {
      NamedAll(prints, n - 1);
      assert Indices(n)[..n - 1] == Indices(n - 1);
    }
  }

  /** Every notional accepted from a tape, in any order, is in its discs, on its own side. */
  lemma TapeDiscsConserve(trades: seq<Trade>, tick: Option<Float>, bits: real -> int, window: real, ppm: real,
                          size: real -> (real, bool))
    ensures var (fills, discs) := (Fills(trades, tick, bits),
                                   DiscsOf(Aggregate(Fills(trades, tick, bits), window), ppm, size));
            DiscBuy(discs) == Traded(fills, true) && DiscSell(discs) == Traded(fills, false)
  {
    var prints := Aggregate(Fills(trades, tick, bits), window);
    var all := Indices(|prints|);
    NotionalConserved(Fills(trades, tick, bits), window);
    DiscsConserveVolume(Named(prints, PriceTimeOrder(prints)), ppm, size);
    NamedSums(prints, all);
    NamedSums(prints, PriceTimeOrder(prints));
    SortKeepsSum(all, BeforeOf(prints), (k: nat) => BuyAt(prints, k));
    SortKeepsSum(all, BeforeOf(prints), (k: nat) => SellAt(prints, k));
    NamedAll(prints, |prints|);
    assert prints[..|prints|] == prints;
  }

  /** In raw trades: price times quantity of the usable buys is the buy volume of the discs, and so for sells. */
  lemma TradesConserved(trades: seq<Trade>, tick: Option<Float>, bits: real -> int, window: real, ppm: real,
                        size: real -> (real, bool))
    ensures var discs := DiscsOf(Aggregate(Fills(trades, tick, bits), window), ppm, size);
            && DiscBuy(discs) == SumBy(trades, (t: Trade) => Turnover(t, tick, true))
            && DiscSell(discs) == SumBy(trades, (t: Trade) => Turnover(t, tick, false))
  {
    TapeDiscsConserve(trades, tick, bits, window, ppm, size);
    TradedIsTurnover(trades, tick, bits, true);
    TradedIsTurnover(trades, tick, bits, false);
  }
}

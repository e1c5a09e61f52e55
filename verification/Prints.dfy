/**
 Folding a tape into prints (crates/moon-chart/src/clusters.rs, `aggregate_prints`).
 */
module Prints {
  import opened Floats
  import opened Seqs

  /** One tape row: absolute time, price, quantity, side. */
  datatype Trade = Trade(time: Float, price: Float, qty: Float, isBuy: bool)

  /** Trades of one price and one side within the merge window, in quote notional. */
  datatype Print = Print(time: real, price: real, key: int, buy: real, sell: real) {
    function Total(): real { buy + sell }
  }

  /** A usable trade: everything the fold reads. */
  datatype Fill = Fill(time: real, price: real, key: int, notional: real, isBuy: bool)

  /**
   A price's identity: its whole number of ticks when the tick is known, `bits(price)` otherwise.
   */
  function PriceKey(price: Float, tick: Option<Float>, bits: real -> int): Option<int> {
    if !price.Fin? || price.v <= 0.0 then None
    else if tick.Some? && tick.value.Fin? && tick.value.v > 0.0 then
      var ticks := RoundHalfAway(price.v / tick.value.v);
      if -9_000_000_000_000_000 < ticks < 9_000_000_000_000_000 then Some(ticks) else None
    else Some(bits(price.v))
  }

  function Worth(price: real, qty: real): real { price * qty }

  /** The fill a trade stands for, or nothing when it is unusable. */
  function Accept(t: Trade, tick: Option<Float>, bits: real -> int): Option<Fill> {
    if !t.time.Fin? || !t.price.Fin? || !t.qty.Fin? then None
    else
      var notional := Worth(t.price.v, t.qty.v);
      var key := PriceKey(t.price, tick, bits);
      if notional > 0.0 && key.Some? then Some(Fill(t.time.v, t.price.v, key.value, notional, t.isBuy)) else None
  }

  function Fills(trades: seq<Trade>, tick: Option<Float>, bits: real -> int): seq<Fill> {
    if trades == [] then []
    else
      var last := Accept(trades[|trades| - 1], tick, bits);
      Fills(trades[..|trades| - 1], tick, bits) + (if last.Some? then [last.value] else [])
  }

  // ---- the map-free rule ----

  predicate Holds(p: Print, key: int, isBuy: bool) {
    p.key == key && (if isBuy then p.buy > 0.0 else p.sell > 0.0)
  }

  /** The latest print of a price key and side. */
  function Latest(prints: seq<Print>, key: int, isBuy: bool): (r: Option<nat>)
    ensures r.Some? ==> r.value < |prints| && Holds(prints[r.value], key, isBuy)
    ensures forall i :: 0 <= i < |prints| && Holds(prints[i], key, isBuy) ==> r.Some? && i <= r.value
  {
    if prints == [] then None
    else if Holds(prints[|prints| - 1], key, isBuy) then Some(|prints| - 1)
    else Latest(prints[..|prints| - 1], key, isBuy)
  }

  function Open(f: Fill): Print {
    Print(f.time, f.price, f.key, if f.isBuy then f.notional else 0.0, if f.isBuy then 0.0 else f.notional)
  }

  function Grown(p: Print, f: Fill): Print {
    if f.isBuy then p.(buy := p.buy + f.notional) else p.(sell := p.sell + f.notional)
  }

  predicate Within(p: Print, f: Fill, window: real) {
    f.time >= p.time && f.time - p.time <= window
  }

  /** Join the latest print of the fill's key and side if it is within the window, else open one. */
  function JoinOrOpen(prints: seq<Print>, f: Fill, window: real): seq<Print> {
    var at := Latest(prints, f.key, f.isBuy);
    if at.Some? && Within(prints[at.value], f, window)
    then prints[at.value := Grown(prints[at.value], f)]
    else prints + [Open(f)]
  }

  function Aggregate(fills: seq<Fill>, window: real): seq<Print> {
    if fills == [] then []
    else JoinOrOpen(Aggregate(fills[..|fills| - 1], window), fills[|fills| - 1], window)
  }

  // ---- the fold over a hash map ----

  /** Open print of each side of one price. */
  datatype Sides = Sides(sell: Option<nat>, buy: Option<nat>) {
    function Get(isBuy: bool): Option<nat> { if isBuy then buy else sell }
    function With(isBuy: bool, at: nat): Sides { if isBuy then this.(buy := Some(at)) else this.(sell := Some(at)) }
  }

  function Slot(open: map<int, Sides>, key: int): Sides {
    if key in open then open[key] else Sides(None, None)
  }

  /** The map remembers the latest print of every key and side. */
  ghost predicate Tracks(open: map<int, Sides>, prints: seq<Print>) {
    forall key, isBuy :: Slot(open, key).Get(isBuy) == Latest(prints, key, isBuy)
  }

  /** Every print has traded on exactly one side. */
  ghost predicate SingleSided(prints: seq<Print>) {
    forall i :: 0 <= i < |prints| ==>
      (prints[i].buy > 0.0 && prints[i].sell == 0.0) || (prints[i].buy == 0.0 && prints[i].sell > 0.0)
  }

  /** Growing a print on the side it already holds changes nobody's latest print. */
  lemma {:induction false} LatestAfterGrow(prints: seq<Print>, at: nat, p: Print, key: int, isBuy: bool)
    requires at < |prints|
    requires Holds(p, key, isBuy) <==> Holds(prints[at], key, isBuy)
    ensures Latest(prints[at := p], key, isBuy) == Latest(prints, key, isBuy)
  {
    var n := |prints| - 1;
    if at < n {
      assert prints[at := p][..n] == prints[..n][at := p];
      LatestAfterGrow(prints[..n], at, p, key, isBuy);
    } else {
      assert prints[at := p][..n] == prints[..n];
    }
  }

  lemma TracksAfterPush(open: map<int, Sides>, prints: seq<Print>, f: Fill)
    requires Tracks(open, prints) && f.notional > 0.0
    ensures Tracks(open[f.key := Slot(open, f.key).With(f.isBuy, |prints|)], prints + [Open(f)])
  {
    forall key, isBuy
      ensures Slot(open[f.key := Slot(open, f.key).With(f.isBuy, |prints|)], key).Get(isBuy)
           == Latest(prints + [Open(f)], key, isBuy)
    {
    }
  }

  lemma TracksAfterGrow(open: map<int, Sides>, prints: seq<Print>, f: Fill, at: nat)
    requires Tracks(open, prints) && f.notional > 0.0 && at < |prints| && Holds(prints[at], f.key, f.isBuy)
    requires SingleSided(prints)
    ensures Tracks(open, prints[at := Grown(prints[at], f)])
  {
    forall key, isBuy
      ensures Slot(open, key).Get(isBuy) == Latest(prints[at := Grown(prints[at], f)], key, isBuy)
    {
      LatestAfterGrow(prints, at, Grown(prints[at], f), key, isBuy);
    }
  }

  method AggregatePrints(trades: seq<Trade>, tick: Option<Float>, bits: real -> int, window: real)
    returns (out: seq<Print>)
    ensures out == Aggregate(Fills(trades, tick, bits), window)
  {
    out := [];
    var open: map<int, Sides> := map[];
    var i := 0;
    while i < |trades|
      invariant 0 <= i <= |trades|
      invariant out == Aggregate(Fills(trades[..i], tick, bits), window)
      invariant Tracks(open, out) && SingleSided(out)
    {
      var fill := Accept(trades[i], tick, bits);
      i := i + 1;
      AcceptedIsUsable(trades[i - 1], tick, bits);
      FoldStep(trades, tick, bits, window, i);
      if fill.None? {
        continue;
      }
      open, out := FoldOne(open, out, fill.value, window);
    }
    assert trades[..i] == trades;
  }

  /** One usable trade: both sides of a price share the lookup. */
  method FoldOne(open: map<int, Sides>, prints: seq<Print>, f: Fill, window: real)
    returns (next: map<int, Sides>, out: seq<Print>)
    requires Tracks(open, prints) && SingleSided(prints) && f.notional > 0.0
    ensures out == JoinOrOpen(prints, f, window)
    ensures Tracks(next, out) && SingleSided(out)
  {
    var slot := Slot(open, f.key);
    next := open[f.key := slot];
    var at := slot.Get(f.isBuy);
    assert at == Latest(prints, f.key, f.isBuy);
    if at.Some? && Within(prints[at.value], f, window) {
      TracksAfterGrow(next, prints, f, at.value);
      out := prints[at.value := Grown(prints[at.value], f)];
    } else {
      TracksAfterPush(next, prints, f);
      next := next[f.key := slot.With(f.isBuy, |prints|)];
      out := prints + [Open(f)];
    }
  }

  lemma AcceptedIsUsable(t: Trade, tick: Option<Float>, bits: real -> int)
    ensures Accept(t, tick, bits).Some? ==> Accept(t, tick, bits).value.notional > 0.0
  {
  }

  lemma FoldStep(trades: seq<Trade>, tick: Option<Float>, bits: real -> int, window: real, i: nat)
    requires 0 < i <= |trades|
    ensures var before := Aggregate(Fills(trades[..i - 1], tick, bits), window);
            var fill := Accept(trades[i - 1], tick, bits);
            Aggregate(Fills(trades[..i], tick, bits), window)
              == if fill.Some? then JoinOrOpen(before, fill.value, window) else before
  {
    var head, t := trades[..i - 1], trades[i - 1];
    assert trades[..i] == head + [t];
    FillsStep(head, t, tick, bits);
    var fill := Accept(t, tick, bits);
    if fill.Some? { AggregateStep(Fills(head, tick, bits), fill.value, window); }
  }

  lemma FillsStep(head: seq<Trade>, t: Trade, tick: Option<Float>, bits: real -> int)
    ensures var fill := Accept(t, tick, bits);
            Fills(head + [t], tick, bits)
              == if fill.Some? then Fills(head, tick, bits) + [fill.value] else Fills(head, tick, bits)
  {
    assert (head + [t])[..|head|] == head;
    assert Fills(head, tick, bits) + [] == Fills(head, tick, bits);
  }

  lemma AggregateStep(fills: seq<Fill>, f: Fill, window: real)
    ensures Aggregate(fills + [f], window) == JoinOrOpen(Aggregate(fills, window), f, window)
  {
    assert (fills + [f])[..|fills|] == fills;
  }

  // ---- what the fold keeps ----

  ghost function SumBuy(prints: seq<Print>): real {
    if prints == [] then 0.0 else SumBuy(prints[..|prints| - 1]) + prints[|prints| - 1].buy
  }

  ghost function SumSell(prints: seq<Print>): real {
    if prints == [] then 0.0 else SumSell(prints[..|prints| - 1]) + prints[|prints| - 1].sell
  }

  ghost function Traded(fills: seq<Fill>, isBuy: bool): real {
    if fills == [] then 0.0
    else
      var f := fills[|fills| - 1];
      Traded(fills[..|fills| - 1], isBuy) + if f.isBuy == isBuy then f.notional else 0.0
  }

  lemma {:induction false} SumsAfterUpdate(prints: seq<Print>, at: nat, p: Print)
    requires at < |prints|
    ensures SumBuy(prints[at := p]) == SumBuy(prints) - prints[at].buy + p.buy
    ensures SumSell(prints[at := p]) == SumSell(prints) - prints[at].sell + p.sell
  {
    var n := |prints| - 1;
    if at < n {
      assert prints[at := p][..n] == prints[..n][at := p];
      SumsAfterUpdate(prints[..n], at, p);
    } else {
      assert prints[at := p][..n] == prints[..n];
    }
  }

  ghost predicate Usable(fills: seq<Fill>) {
    forall i :: 0 <= i < |fills| ==> fills[i].notional > 0.0
  }

  lemma {:induction false} FillsUsable(trades: seq<Trade>, tick: Option<Float>, bits: real -> int)
    ensures Usable(Fills(trades, tick, bits))
  {
    if trades != [] { FillsUsable(trades[..|trades| - 1], tick, bits); }
  }

  /** Every accepted notional lands on its own side of exactly one print. */
  lemma {:induction false} NotionalConserved(fills: seq<Fill>, window: real)
    ensures SumBuy(Aggregate(fills, window)) == Traded(fills, true)
    ensures SumSell(Aggregate(fills, window)) == Traded(fills, false)
  {
    if fills != [] {
      var init, f := fills[..|fills| - 1], fills[|fills| - 1];
      NotionalConserved(init, window);
      var prints := Aggregate(init, window);
      var at := Latest(prints, f.key, f.isBuy);
      if at.Some? && Within(prints[at.value], f, window) {
        SumsAfterUpdate(prints, at.value, Grown(prints[at.value], f));
      } else {
        assert (prints + [Open(f)])[..|prints|] == prints;
      }
    }
  }

  lemma {:induction false} PrintsSingleSided(fills: seq<Fill>, window: real)
    requires Usable(fills)
    ensures SingleSided(Aggregate(fills, window))
  {
    if fills != [] { PrintsSingleSided(fills[..|fills| - 1], window); }
  }

  ghost predicate TapeOrdered(fills: seq<Fill>) {
    forall i, j :: 0 <= i < j < |fills| ==> fills[i].time <= fills[j].time
  }

  ghost predicate Spaced(prints: seq<Print>, window: real) {
    forall i, j, isBuy ::
      0 <= i < j < |prints| && Holds(prints[i], prints[j].key, isBuy) && Holds(prints[j], prints[j].key, isBuy) ==>
        prints[j].time - prints[i].time > window
  }

  ghost predicate PrintsOrdered(prints: seq<Print>, until: real) {
    && (forall i, j :: 0 <= i < j < |prints| ==> prints[i].time <= prints[j].time)
    && (forall i :: 0 <= i < |prints| ==> prints[i].time <= until)
  }

  lemma JoinKeepsOrder(prints: seq<Print>, f: Fill, window: real)
    requires PrintsOrdered(prints, f.time)
    ensures PrintsOrdered(JoinOrOpen(prints, f, window), f.time)
  {
  }

  lemma JoinKeepsSpacing(prints: seq<Print>, f: Fill, window: real)
    requires f.notional > 0.0 && SingleSided(prints) && PrintsOrdered(prints, f.time) && Spaced(prints, window)
    ensures Spaced(JoinOrOpen(prints, f, window), window)
  {
  }

  /**
   On a time-ordered tape the prints come out in time order, and two prints of one price and side
   are always more than a window apart.
   */
  lemma {:induction false} PrintsSpaced(fills: seq<Fill>, window: real)
    requires Usable(fills) && TapeOrdered(fills)
    ensures Spaced(Aggregate(fills, window), window)
    ensures fills != [] ==> PrintsOrdered(Aggregate(fills, window), fills[|fills| - 1].time)
  {
    if fills != [] {
      var init, f := fills[..|fills| - 1], fills[|fills| - 1];
      PrintsSpaced(init, window);
      PrintsSingleSided(init, window);
      assert PrintsOrdered(Aggregate(init, window), f.time);
      JoinKeepsOrder(Aggregate(init, window), f, window);
      JoinKeepsSpacing(Aggregate(init, window), f, window);
    }
  }
}

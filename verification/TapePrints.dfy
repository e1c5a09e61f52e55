/**
 What the prints of a tape stand for, in terms of its trades (crates/moon-chart/src/clusters.rs).
 */
module TapePrints {
  import opened Floats
  import opened Seqs
  import opened Sorting
  import opened Prints

  // ---- usable trades ----

  predicate TickKnown(tick: Option<Float>) { tick.Some? && tick.value.Fin? && tick.value.v > 0.0 }

  /** A finite trade of positive turnover at a positive price, not too many ticks up. */
  predicate UsableTrade(t: Trade, tick: Option<Float>) {
    && t.time.Fin? && t.price.Fin? && t.qty.Fin? && t.price.v > 0.0 && t.qty.v > 0.0
    && (TickKnown(tick) ==> RoundHalfAway(t.price.v / tick.value.v) < 9_000_000_000_000_000)
  }

  /** What identifies a price: its nearest number of ticks, or its own bits while the tick is unknown. */
  function KeyOf(price: real, tick: Option<Float>, bits: real -> int): int {
    if TickKnown(tick) then RoundHalfAway(price / tick.value.v) else bits(price)
  }

  function Turnover(t: Trade, tick: Option<Float>, isBuy: bool): real {
    if UsableTrade(t, tick) && t.isBuy == isBuy then t.price.v * t.qty.v else 0.0
  }

  lemma AcceptMeans(t: Trade, tick: Option<Float>, bits: real -> int)
    ensures Accept(t, tick, bits) ==
            if UsableTrade(t, tick)
            then Some(Fill(t.time.v, t.price.v, KeyOf(t.price.v, tick, bits), Worth(t.price.v, t.qty.v), t.isBuy))
            else None
  {
    if t.time.Fin? && t.price.Fin? && t.qty.Fin? && t.price.v > 0.0 {
      assert t.price == Fin(t.price.v);
      WorthPositive(t.price.v, t.qty.v);
      KeyMeans(t.price.v, tick, bits);
    }
  }

  lemma WorthPositive(price: real, qty: real)
    requires price > 0.0
    ensures Worth(price, qty) > 0.0 <==> qty > 0.0
  {
    if qty > 0.0 {
      assert price * qty > 0.0;
    } else if qty < 0.0 {
      assert price * qty < 0.0;
    }
  }

  lemma KeyMeans(price: real, tick: Option<Float>, bits: real -> int)
    requires price > 0.0
    ensures PriceKey(Fin(price), tick, bits) ==
            if TickKnown(tick) && RoundHalfAway(price / tick.value.v) >= 9_000_000_000_000_000 then None
            else Some(KeyOf(price, tick, bits))
  {
    if TickKnown(tick) { TicksPositive(price, tick.value.v); }
  }

  lemma TicksPositive(price: real, tick: real)
    requires price > 0.0 && tick > 0.0
    ensures RoundHalfAway(price / tick) >= 0
  {
    assert price / tick > 0.0;
  }

  predicate IsFillOf(f: Fill, t: Trade, tick: Option<Float>, bits: real -> int) {
    && UsableTrade(t, tick)
    && f == Fill(t.time.v, t.price.v, KeyOf(t.price.v, tick, bits), Worth(t.price.v, t.qty.v), t.isBuy)
  }

  lemma FillsNext(trades: seq<Trade>, tick: Option<Float>, bits: real -> int, before: seq<nat>, from: seq<nat>)
    requires trades != []
    requires var (n, init) := (|trades| - 1, Fills(trades[..|trades| - 1], tick, bits));
             && |before| == |init|
             && (forall k :: 0 <= k < |before| ==> before[k] < n && IsFillOf(init[k], trades[before[k]], tick, bits))
             && from == before + if UsableTrade(trades[n], tick) then [n] else []
    ensures |from| == |Fills(trades, tick, bits)|
    ensures forall k :: 0 <= k < |from| ==>
              from[k] < |trades| && IsFillOf(Fills(trades, tick, bits)[k], trades[from[k]], tick, bits)
  {
    var n := |trades| - 1;
    var init, last := Fills(trades[..n], tick, bits), Accept(trades[n], tick, bits);
    AcceptMeans(trades[n], tick, bits);
    assert last.Some? ==> IsFillOf(last.value, trades[n], tick, bits);
    FilledNext(trades, tick, bits, init, last, before, from);
  }

  lemma FilledNext(trades: seq<Trade>, tick: Option<Float>, bits: real -> int, init: seq<Fill>, last: Option<Fill>,
                   before: seq<nat>, from: seq<nat>)
    requires trades != [] && |before| == |init|
    requires last.Some? ==> IsFillOf(last.value, trades[|trades| - 1], tick, bits)
    requires forall k :: 0 <= k < |before| ==>
               before[k] < |trades| - 1 && IsFillOf(init[k], trades[before[k]], tick, bits)
    requires from == before + if last.Some? then [|trades| - 1] else []
    ensures var fills := init + if last.Some? then [last.value] else [];
            && |from| == |fills|
            && forall k :: 0 <= k < |from| ==> from[k] < |trades| && IsFillOf(fills[k], trades[from[k]], tick, bits)
  {
  }

  /** The fills are the usable trades of the tape, in its order. */
  lemma {:induction false} FillsAreTrades(trades: seq<Trade>, tick: Option<Float>, bits: real -> int)
    returns (from: seq<nat>)
    ensures |from| == |Fills(trades, tick, bits)| && UsableOnes(trades, tick, from)
    ensures forall k :: 0 <= k < |from| ==>
              from[k] < |trades| && IsFillOf(Fills(trades, tick, bits)[k], trades[from[k]], tick, bits)
  {
    if trades == [] {
      from := [];
    } else {
      var n := |trades| - 1;
      var before := FillsAreTrades(trades[..n], tick, bits);
      from := before + if UsableTrade(trades[n], tick) then [n] else [];
      UsableNext(trades, tick, before, from);
      FillsNext(trades, tick, bits, before, from);
    }
  }

  /** The usable trades of a tape, in order. */
  ghost predicate UsableOnes(trades: seq<Trade>, tick: Option<Float>, from: seq<nat>) {
    && Pairwise(from, (a: nat, b: nat) => a < b)
    && forall i: nat :: i in from <==> i < |trades| && UsableTrade(trades[i], tick)
  }

  lemma UsableNext(trades: seq<Trade>, tick: Option<Float>, before: seq<nat>, from: seq<nat>)
    requires trades != [] && UsableOnes(trades[..|trades| - 1], tick, before)
    requires from == before + if UsableTrade(trades[|trades| - 1], tick) then [|trades| - 1] else []
    ensures UsableOnes(trades, tick, from)
  {
    assert forall k :: 0 <= k < |before| ==> before[k] in before;
  }

  lemma {:induction false} TradedIsTurnover(trades: seq<Trade>, tick: Option<Float>, bits: real -> int, isBuy: bool)
    ensures Traded(Fills(trades, tick, bits), isBuy) == SumBy(trades, (t: Trade) => Turnover(t, tick, isBuy))
  {
    if trades != [] {
      var n := |trades| - 1;
      TradedIsTurnover(trades[..n], tick, bits, isBuy);
      AcceptMeans(trades[n], tick, bits);
      TradedNext(Fills(trades[..n], tick, bits), Accept(trades[n], tick, bits), isBuy);
    }
  }

  lemma TradedNext(fills: seq<Fill>, last: Option<Fill>, isBuy: bool)
    ensures Traded(fills + (if last.Some? then [last.value] else []), isBuy)
         == Traded(fills, isBuy) + if last.Some? && last.value.isBuy == isBuy then last.value.notional else 0.0
  {
    if last.Some? {
      assert (fills + [last.value])[..|fills|] == fills;
    } else {
      assert fills + [] == fills;
    }
  }

  // ---- prints as groups of trades ----

  /** The print each fill went to. */
  ghost function Owners(fills: seq<Fill>, window: real): (of: seq<nat>)
    ensures |of| == |fills|
  {
    if fills == [] then []
    else
      var init, f := fills[..|fills| - 1], fills[|fills| - 1];
      var prints := Aggregate(init, window);
      var at := Latest(prints, f.key, f.isBuy);
      Owners(init, window)
      + [if at.Some? && Within(prints[at.value], f, window) then at.value else |prints|]
  }

  /** No earlier fill went to the print of fill `i`. */
  predicate Opens(of: seq<nat>, i: nat)
    requires i < |of|
  {
    forall j :: 0 <= j < i ==> of[j] != of[i]
  }

  /** A fill is in a print of its price and side: as its first, whose time and price it has, or within the window. */
  ghost predicate Belongs(fills: seq<Fill>, prints: seq<Print>, of: seq<nat>, window: real, i: nat)
    requires |of| == |fills| && i < |fills|
  {
    && of[i] < |prints|
    && var (f, p) := (fills[i], prints[of[i]]);
       && p.key == f.key && (if f.isBuy then p.sell == 0.0 else p.buy == 0.0)
       && if Opens(of, i) then p.time == f.time && p.price == f.price else 0.0 <= f.time - p.time <= window
  }

  /** What the fills of one side brought to a print. */
  ghost function Brought(fills: seq<Fill>, of: seq<nat>, p: nat, isBuy: bool): real
    requires |of| == |fills|
  {
    if fills == [] then 0.0
    else
      var n := |fills| - 1;
      Brought(fills[..n], of[..n], p, isBuy)
      + if of[n] == p && fills[n].isBuy == isBuy then fills[n].notional else 0.0
  }

  /** Every fill belongs to its print, and every print is the sum of its own fills, none empty. */
  ghost predicate Accounted(fills: seq<Fill>, prints: seq<Print>, of: seq<nat>, window: real) {
    && |of| == |fills|
    && (forall i :: 0 <= i < |fills| ==> Belongs(fills, prints, of, window, i))
    && (forall p: nat :: p < |prints| ==>
          p in of && prints[p].buy == Brought(fills, of, p, true) && prints[p].sell == Brought(fills, of, p, false))
  }

  lemma BelongsStill(fills: seq<Fill>, prints: seq<Print>, of: seq<nat>, window: real, f: Fill, o: nat,
                     next: seq<Print>, i: nat)
    requires |of| == |fills| && i < |fills| && Belongs(fills, prints, of, window, i)
    requires |prints| <= |next|
    requires var (p, q) := (prints[of[i]], next[of[i]]);
             && q.time == p.time && q.price == p.price && q.key == p.key
             && (p.buy == 0.0 ==> q.buy == 0.0 || of[i] == o) && (p.sell == 0.0 ==> q.sell == 0.0 || of[i] == o)
    requires of[i] == o ==> if fills[i].isBuy then next[o].sell == 0.0 else next[o].buy == 0.0
    ensures Belongs(fills + [f], next, of + [o], window, i)
  {
    OpensStill(of, o, i);
  }

  lemma OpensStill(of: seq<nat>, o: nat, i: nat)
    requires i < |of|
    ensures Opens(of + [o], i) <==> Opens(of, i)
  {
    var next := of + [o];
    assert forall j :: 0 <= j <= i ==> next[j] == of[j];
  }

  lemma BroughtNext(fills: seq<Fill>, of: seq<nat>, f: Fill, o: nat, p: nat, isBuy: bool)
    requires |of| == |fills|
    ensures Brought(fills + [f], of + [o], p, isBuy)
         == Brought(fills, of, p, isBuy) + if o == p && f.isBuy == isBuy then f.notional else 0.0
  {
    assert (fills + [f])[..|fills|] == fills && (of + [o])[..|of|] == of;
  }

  lemma {:induction false} BroughtNothing(fills: seq<Fill>, of: seq<nat>, p: nat, isBuy: bool)
    requires |of| == |fills| && p !in of
    ensures Brought(fills, of, p, isBuy) == 0.0
  {
    if fills != [] { BroughtNothing(fills[..|fills| - 1], of[..|fills| - 1], p, isBuy); }
  }

  lemma JoinAccounted(fills: seq<Fill>, prints: seq<Print>, of: seq<nat>, window: real, f: Fill, at: nat)
    requires Accounted(fills, prints, of, window) && SingleSided(prints) && f.notional > 0.0
    requires at < |prints| && Holds(prints[at], f.key, f.isBuy) && Within(prints[at], f, window)
    ensures Accounted(fills + [f], prints[at := Grown(prints[at], f)], of + [at], window)
  {
    var next := prints[at := Grown(prints[at], f)];
    var i0: nat :| i0 < |of| && of[i0] == at;
    assert !Opens(of + [at], |fills|) by { assert (of + [at])[i0] == at; }
    forall i | 0 <= i < |fills| ensures Belongs(fills + [f], next, of + [at], window, i) {
      BelongsStill(fills, prints, of, window, f, at, next, i);
    }
    forall p: nat | p < |next|
      ensures p in of + [at] && next[p].buy == Brought(fills + [f], of + [at], p, true)
      ensures next[p].sell == Brought(fills + [f], of + [at], p, false)
    {
      BroughtNext(fills, of, f, at, p, true);
      BroughtNext(fills, of, f, at, p, false);
      assert p in of;
    }
  }

  lemma OpenAccounted(fills: seq<Fill>, prints: seq<Print>, of: seq<nat>, window: real, f: Fill)
    requires Accounted(fills, prints, of, window) && f.notional > 0.0
    ensures Accounted(fills + [f], prints + [Open(f)], of + [|prints|], window)
  {
    var next, n := prints + [Open(f)], |prints|;
    assert n !in of by { assert forall i :: 0 <= i < |of| ==> Belongs(fills, prints, of, window, i) && of[i] < n; }
    forall i | 0 <= i < |fills| ensures Belongs(fills + [f], next, of + [n], window, i) {
      BelongsStill(fills, prints, of, window, f, n, next, i);
    }
    forall p: nat | p < |next|
      ensures p in of + [n] && next[p].buy == Brought(fills + [f], of + [n], p, true)
      ensures next[p].sell == Brought(fills + [f], of + [n], p, false)
    {
      BroughtNext(fills, of, f, n, p, true);
      BroughtNext(fills, of, f, n, p, false);
      if p == n {
        BroughtNothing(fills, of, n, true);
        BroughtNothing(fills, of, n, false);
        assert (of + [n])[|of|] == n;
      } else {
        assert p in of;
      }
    }
  }

  /**
   The prints of any tape are groups of its fills, each of one price and side: the first fill gives the
   print its time and price, every other one came within the window of it, and their notionals add up.
   */
  lemma {:induction false} PrintsAreGroups(fills: seq<Fill>, window: real)
    requires Usable(fills)
    ensures Accounted(fills, Aggregate(fills, window), Owners(fills, window), window)
  {
    if fills != [] {
      var init, f := fills[..|fills| - 1], fills[|fills| - 1];
      PrintsAreGroups(init, window);
      PrintsSingleSided(init, window);
      var prints := Aggregate(init, window);
      var at := Latest(prints, f.key, f.isBuy);
      assert fills == init + [f];
      if at.Some? && Within(prints[at.value], f, window) {
        JoinAccounted(init, prints, Owners(init, window), window, f, at.value);
      } else {
        OpenAccounted(init, prints, Owners(init, window), window, f);
      }
    }
  }
}

/**
 Ordering prints and merging the discs that cover each other at one zoom
 (crates/moon-chart/src/clusters.rs, `price_time_order` and `merge_overlapping`).
 */
module Discs {
  import opened Floats
  import opened Seqs
  import opened Sorting
  import opened Prints

  /** One disc as drawn: a print, or prints of one price merged because they covered each other. */
  datatype Disc =
    Disc(time: real, price: real, key: int, buy: real, sell: real, radius: real, small: bool, firstMs: real)
  {
    function Total(): real { buy + sell }
  }

  // ---- order ----

  predicate Before(prints: seq<Print>, a: nat, b: nat) {
    if a < |prints| && b < |prints| then
      prints[a].key < prints[b].key || (prints[a].key == prints[b].key &&
      (prints[a].time < prints[b].time || (prints[a].time == prints[b].time && a <= b)))
    else if a < |prints| then true
    else if b < |prints| then false
    else a <= b
  }

  function BeforeOf(prints: seq<Print>): (nat, nat) -> bool {
    (a: nat, b: nat) => Before(prints, a, b)
  }

  /** Print indices by price, then time; a stable sort of `0..n` breaks ties by index. */
  function PriceTimeOrder(prints: seq<Print>): seq<nat> {
    Sort(Indices(|prints|), BeforeOf(prints))
  }

  function Run(prints: seq<Print>, order: seq<nat>): (r: seq<Print>)
    requires forall i :: 0 <= i < |order| ==> order[i] < |prints|
    ensures |r| == |order|
  {
    seq(|order|, i requires 0 <= i < |order| => prints[order[i]])
  }

  ghost predicate Ordered(run: seq<Print>) {
    forall i, j :: 0 <= i < j < |run| ==>
      run[i].key < run[j].key || (run[i].key == run[j].key && run[i].time <= run[j].time)
  }

  /** The order holds every print once, by price and then time, equal prints in tape order. */
  lemma PriceTimeOrderSorts(prints: seq<Print>)
    ensures multiset(PriceTimeOrder(prints)) == multiset(Indices(|prints|))
    ensures forall i :: 0 <= i < |PriceTimeOrder(prints)| ==> PriceTimeOrder(prints)[i] < |prints|
    ensures Pairwise(PriceTimeOrder(prints), BeforeOf(prints))
    ensures Ordered(Run(prints, PriceTimeOrder(prints)))
  {
    var all, order := Indices(|prints|), PriceTimeOrder(prints);
    assert TotalPreorder(BeforeOf(prints)) by { BeforeIsTotal(prints); }
    SortSorted(all, BeforeOf(prints));
    PermutationMembers(all, order);
    forall i | 0 <= i < |order|
      ensures order[i] < |prints|
    {
      assert order[i] in all;
    }
    var run := Run(prints, order);
    forall i, j | 0 <= i < j < |run|
      ensures run[i].key < run[j].key || (run[i].key == run[j].key && run[i].time <= run[j].time)
    {
      assert BeforeOf(prints)(order[i], order[j]);
    }
  }

  lemma BeforeIsTotal(prints: seq<Print>)
    ensures TotalPreorder(BeforeOf(prints))
  {
  }

  // ---- merging ----

  function DiscOf(p: Print, size: real -> (real, bool)): Disc {
    var (radius, small) := size(p.Total());
    Disc(p.time, p.price, p.key, p.buy, p.sell, radius, small, p.time)
  }

  predicate Covers(last: Disc, disc: Disc, ppm: real) {
    last.key == disc.key && Abs(disc.time - last.time) * ppm < last.radius + disc.radius
  }

  function Mean(a: real, wa: real, b: real, wb: real): real
    requires wa + wb > 0.0
  {
    (a * wa + b * wb) / (wa + wb)
  }

  function Weighted(last: Disc, disc: Disc): real {
    var (wa, wb) := (last.Total(), disc.Total());
    if wa + wb > 0.0 then Mean(last.time, wa, disc.time, wb) else last.time
  }

  function Merged(last: Disc, disc: Disc, size: real -> (real, bool)): Disc {
    var (buy, sell) := (last.buy + disc.buy, last.sell + disc.sell);
    var (radius, small) := size(buy + sell);
    Disc(Weighted(last, disc), last.price, last.key, buy, sell, radius, small, last.firstMs)
  }

  /** One print's disc meets the stack: a merge may cascade into the discs below. */
  function Settle(out: seq<Disc>, disc: Disc, ppm: real, size: real -> (real, bool)): seq<Disc> {
    if out != [] && Covers(out[|out| - 1], disc, ppm)
    then Settle(out[..|out| - 1], Merged(out[|out| - 1], disc, size), ppm, size)
    else out + [disc]
  }

  function MergeAll(run: seq<Print>, ppm: real, size: real -> (real, bool)): seq<Disc> {
    if run == [] then []
    else Settle(MergeAll(run[..|run| - 1], ppm, size), DiscOf(run[|run| - 1], size), ppm, size)
  }

  /** The prints an order names, indices outside the tape skipped. */
  function Named(prints: seq<Print>, order: seq<nat>): seq<Print> {
    if order == [] then []
    else
      var last := order[|order| - 1];
      Named(prints, order[..|order| - 1]) + (if last < |prints| then [prints[last]] else [])
  }

  method MergeOverlapping(prints: seq<Print>, order: seq<nat>, ppm: real, size: real -> (real, bool))
    returns (out: seq<Disc>)
    ensures out == MergeAll(Named(prints, order), ppm, size)
  {
    out := [];
    var i := 0;
    while i < |order|
      invariant 0 <= i <= |order|
      invariant out == MergeAll(Named(prints, order[..i]), ppm, size)
    {
      NextNamed(prints, order, ppm, size, i);
      i := i + 1;
      if order[i - 1] >= |prints| {
        continue;
      }
      var disc := DiscOf(prints[order[i - 1]], size);
      ghost var settled := Settle(out, disc, ppm, size);
      while out != [] && Covers(out[|out| - 1], disc, ppm)
        invariant Settle(out, disc, ppm, size) == settled
        decreases |out|
      {
        var last := out[|out| - 1];
        out := out[..|out| - 1];
        disc := Merged(last, disc, size);
      }
      out := out + [disc];
    }
    assert order[..i] == order;
  }

  lemma NextNamed(prints: seq<Print>, order: seq<nat>, ppm: real, size: real -> (real, bool), i: nat)
    requires i < |order|
    ensures var before := MergeAll(Named(prints, order[..i]), ppm, size);
            MergeAll(Named(prints, order[..i + 1]), ppm, size)
              == if order[i] < |prints| then Settle(before, DiscOf(prints[order[i]], size), ppm, size) else before
  {
    var head := order[..i + 1];
    assert head[..|head| - 1] == order[..i] && head[|head| - 1] == order[i];
    var named := Named(prints, order[..i]);
    if order[i] < |prints| {
      assert (named + [prints[order[i]]])[..|named|] == named;
    } else {
      assert named + [] == named;
    }
  }

  lemma {:induction false} NamedIsRun(prints: seq<Print>, order: seq<nat>)
    requires forall i :: 0 <= i < |order| ==> order[i] < |prints|
    ensures Named(prints, order) == Run(prints, order)
  {
    if order != [] { NamedIsRun(prints, order[..|order| - 1]); }
  }

  // ---- what each disc stands for ----

  /** A disc stands for a contiguous group of ordered prints of one price. */
  ghost predicate StandsFor(d: Disc, group: seq<Print>, size: real -> (real, bool)) {
    && group != []
    && (forall i :: 0 <= i < |group| ==> group[i].key == d.key)
    && d.price == group[0].price && d.firstMs == group[0].time
    && d.buy == SumBuy(group) && d.sell == SumSell(group)
    && (d.radius, d.small) == size(d.Total())
    && group[0].time <= d.time <= group[|group| - 1].time
    && Centred(d.time, d.Total(), group)
  }

  /** `time` is the mean of the prints' times, each weighed by its volume. */
  ghost predicate Centred(time: real, total: real, group: seq<Print>) {
    time * total == Moment(group)
  }

  /** The sum of the prints' times, each by its own volume. */
  ghost function Moment(group: seq<Print>): real {
    SumBy(group, (p: Print) => p.time * (p.buy + p.sell))
  }

  lemma {:induction false} MomentsConcat(a: seq<Print>, b: seq<Print>)
    ensures Moment(a + b) == Moment(a) + Moment(b)
  {
    if b == [] {
      assert a + b == a;
    } else {
      assert (a + b)[..|a + b| - 1] == a + b[..|b| - 1];
      MomentsConcat(a, b[..|b| - 1]);
    }
  }

  lemma MomentOfOne(p: Print)
    ensures Moment([p]) == p.time * (p.buy + p.sell)
  {
    assert [] + [p] == [p];
    SumByNext([], p, (q: Print) => q.time * (q.buy + q.sell));
  }

  /** A volume-weighted mean balances the two times it is the mean of. */
  lemma MeanBalances(a: real, wa: real, b: real, wb: real)
    requires wa + wb > 0.0
    ensures Mean(a, wa, b, wb) * (wa + wb) == a * wa + b * wb
  {
  }

  lemma WeightedBalances(last: Disc, disc: Disc)
    requires last.Total() >= 0.0 && disc.Total() >= 0.0
    ensures Weighted(last, disc) * (last.Total() + disc.Total()) == last.time * last.Total() + disc.time * disc.Total()
  {
    if last.Total() + disc.Total() > 0.0 {
      MeanBalances(last.time, last.Total(), disc.time, disc.Total());
    } else {
      assert last.Total() == disc.Total() == 0.0;
    }
  }

  ghost predicate GroupAt(run: seq<Print>, cuts: seq<nat>, discs: seq<Disc>, size: real -> (real, bool), i: nat)
    requires i < |discs| && |cuts| == |discs| + 1
  {
    cuts[i] < cuts[i + 1] <= |run| && StandsFor(discs[i], run[cuts[i]..cuts[i + 1]], size)
  }

  /** `cuts` splits the run into consecutive non-empty groups, one per disc. */
  ghost predicate Groups(run: seq<Print>, cuts: seq<nat>, discs: seq<Disc>, size: real -> (real, bool)) {
    && |cuts| == |discs| + 1
    && cuts[0] == 0 && cuts[|discs|] == |run|
    && forall i: nat :: i < |discs| ==> GroupAt(run, cuts, discs, size, i)
  }

  ghost predicate Volumes(run: seq<Print>) {
    forall i :: 0 <= i < |run| ==> run[i].buy >= 0.0 && run[i].sell >= 0.0
  }

  lemma {:induction false} SumsNonNegative(run: seq<Print>)
    requires Volumes(run)
    ensures SumBuy(run) >= 0.0 && SumSell(run) >= 0.0
  {
    if run != [] { SumsNonNegative(run[..|run| - 1]); }
  }

  lemma {:induction false} SumsConcat(a: seq<Print>, b: seq<Print>)
    ensures SumBuy(a + b) == SumBuy(a) + SumBuy(b)
    ensures SumSell(a + b) == SumSell(a) + SumSell(b)
  {
    if b == [] {
      assert a + b == a;
    } else {
      assert (a + b)[..|a + b| - 1] == a + b[..|b| - 1];
      SumsConcat(a, b[..|b| - 1]);
    }
  }

  /** A volume-weighted mean of ordered times lies between them. */
  lemma WeightedBetween(a: real, wa: real, b: real, wb: real)
    requires a <= b && wa >= 0.0 && wb >= 0.0 && wa + wb > 0.0
    ensures a <= Mean(a, wa, b, wb) <= b
  {
    var w := wa + wb;
    TimesMonotone(a, b, wa);
    TimesMonotone(a, b, wb);
    TimesSum(a, wa, wb, w);
    TimesSum(b, wa, wb, w);
    SumsBetween(a * wa, a * wb, b * wa, b * wb, a * w, b * w);
    QuotientBetween(a * wa + b * wb, w, a, b);
  }

  lemma SumsBetween(aa: real, ab: real, ba: real, bb: real, lo: real, hi: real)
    requires lo == aa + ab && hi == ba + bb && aa <= ba && ab <= bb
    ensures lo <= aa + bb <= hi
  {
  }

  lemma TimesMonotone(a: real, b: real, w: real)
    requires a <= b && w >= 0.0
    ensures a * w <= b * w
  {
    if w > 0.0 && a < b { TimesStrict(b - a, w, a, b); }
  }

  lemma TimesStrict(d: real, w: real, a: real, b: real)
    requires d > 0.0 && w > 0.0 && b == a + d
    ensures a * w < b * w
  {
    assert d * w > 0.0;
    assert b * w == a * w + d * w;
  }

  lemma TimesSum(x: real, a: real, b: real, w: real)
    requires w == a + b
    ensures x * w == x * a + x * b
  {
  }

  lemma QuotientBetween(s: real, w: real, lo: real, hi: real)
    requires w > 0.0 && lo * w <= s <= hi * w
    ensures lo <= s / w <= hi
  {
    var q := s / w;
    assert q * w == s;
    if q < lo { TimesStrict(lo - q, w, q, lo); }
    if q > hi { TimesStrict(q - hi, w, hi, q); }
  }

  /** Merging two neighbouring discs stands for their two groups end to end. */
  lemma MergedStandsFor(last: Disc, disc: Disc, a: seq<Print>, b: seq<Print>, size: real -> (real, bool))
    requires StandsFor(last, a, size) && StandsFor(disc, b, size) && last.key == disc.key
    requires Volumes(a) && Volumes(b) && a[|a| - 1].time <= b[0].time
    ensures StandsFor(Merged(last, disc, size), a + b, size)
  {
    SumsConcat(a, b);
    MergedCentre(last, disc, a, b, size);
    MergedTotal(last, disc, size);
    assert (a + b)[0] == a[0] && (a + b)[|a + b| - 1] == b[|b| - 1];
  }

  lemma MergedCentre(last: Disc, disc: Disc, a: seq<Print>, b: seq<Print>, size: real -> (real, bool))
    requires StandsFor(last, a, size) && StandsFor(disc, b, size)
    requires Volumes(a) && Volumes(b) && a[|a| - 1].time <= b[0].time
    ensures a[0].time <= Weighted(last, disc) <= b[|b| - 1].time
    ensures Centred(Weighted(last, disc), last.Total() + disc.Total(), a + b)
  {
    SumsNonNegative(a);
    SumsNonNegative(b);
    WeightedInHull(last, disc);
    CentresJoin(last, disc, a, b);
  }

  lemma CentresJoin(last: Disc, disc: Disc, a: seq<Print>, b: seq<Print>)
    requires Centred(last.time, last.Total(), a) && Centred(disc.time, disc.Total(), b)
    requires last.Total() >= 0.0 && disc.Total() >= 0.0
    ensures Centred(Weighted(last, disc), last.Total() + disc.Total(), a + b)
  {
    WeightedBalances(last, disc);
    MomentsConcat(a, b);
  }

  lemma MergedTotal(last: Disc, disc: Disc, size: real -> (real, bool))
    ensures Merged(last, disc, size).Total() == last.Total() + disc.Total()
  {
  }

  lemma WeightedInHull(last: Disc, disc: Disc)
    requires last.time <= disc.time && last.Total() >= 0.0 && disc.Total() >= 0.0
    ensures last.time <= Weighted(last, disc) <= disc.time
  {
    if last.Total() + disc.Total() > 0.0 {
      WeightedBetween(last.time, last.Total(), disc.time, disc.Total());
    }
  }

  /** The stack and one pending disc cover the run so far; settling keeps that. */
  lemma {:induction false} SettleGroups(run: seq<Print>, cuts: seq<nat>, out: seq<Disc>, disc: Disc, ppm: real,
                                        size: real -> (real, bool))
    returns (next: seq<nat>)
    requires Ordered(run) && Volumes(run)
    requires |cuts| == |out| + 1 && cuts[|out|] < |run|
    requires Groups(run[..cuts[|out|]], cuts, out, size)
    requires StandsFor(disc, run[cuts[|out|]..], size)
    ensures Groups(run, next, Settle(out, disc, ppm, size), size)
    decreases |out|
  {
    var n := |out|;
    if n > 0 && Covers(out[n - 1], disc, ppm) {
      ShorterGroups(run, cuts, out, size);
      PoppedStandsFor(run, cuts, out, disc, size);
      next := SettleGroups(run, cuts[..n], out[..n - 1], Merged(out[n - 1], disc, size), ppm, size);
    } else {
      next := cuts + [|run|];
      LongerGroups(run, cuts, out, disc, size);
    }
  }

  /** The disc on top of the stack and the pending one stand for neighbouring groups. */
  lemma PoppedStandsFor(run: seq<Print>, cuts: seq<nat>, out: seq<Disc>, disc: Disc, size: real -> (real, bool))
    requires Ordered(run) && Volumes(run) && out != []
    requires |cuts| == |out| + 1 && cuts[|out|] < |run| && cuts[|out| - 1] < |run|
    requires Groups(run[..cuts[|out|]], cuts, out, size)
    requires StandsFor(disc, run[cuts[|out|]..], size) && out[|out| - 1].key == disc.key
    ensures StandsFor(Merged(out[|out| - 1], disc, size), run[cuts[|out| - 1]..], size)
  {
    var n, at, from := |out|, cuts[|out|], cuts[|out| - 1];
    assert GroupAt(run[..at], cuts, out, size, n - 1);
    var a, b := run[from..at], run[at..];
    assert run[..at][from..at] == a;
    assert a + b == run[from..];
    assert a[|a| - 1] == run[at - 1] && b[0] == run[at];
    MergedStandsFor(out[n - 1], disc, a, b, size);
  }

  lemma ShorterGroups(run: seq<Print>, cuts: seq<nat>, out: seq<Disc>, size: real -> (real, bool))
    requires out != [] && |cuts| == |out| + 1 && cuts[|out|] <= |run| && Groups(run[..cuts[|out|]], cuts, out, size)
    ensures cuts[|out| - 1] < |run|
    ensures Groups(run[..cuts[|out| - 1]], cuts[..|out|], out[..|out| - 1], size)
  {
    var n := |out|;
    CutsAscend(run[..cuts[n]], cuts, out, size);
    assert GroupAt(run[..cuts[n]], cuts, out, size, n - 1);
    var shorter, fewer, top := run[..cuts[n - 1]], cuts[..n], out[..n - 1];
    forall i: nat | i < n - 1
      ensures GroupAt(shorter, fewer, top, size, i)
    {
      assert GroupAt(run[..cuts[n]], cuts, out, size, i);
      assert shorter[cuts[i]..cuts[i + 1]] == run[..cuts[n]][cuts[i]..cuts[i + 1]];
    }
  }

  lemma CutsAscend(run: seq<Print>, cuts: seq<nat>, out: seq<Disc>, size: real -> (real, bool))
    requires Groups(run, cuts, out, size)
    ensures forall i, j :: 0 <= i <= j < |cuts| ==> cuts[i] <= cuts[j]
  {
    forall i, j | 0 <= i <= j < |cuts|
      ensures cuts[i] <= cuts[j]
    {
      CutsAscendFrom(run, cuts, out, size, i, j);
    }
  }

  lemma {:induction false} CutsAscendFrom(run: seq<Print>, cuts: seq<nat>, out: seq<Disc>,
                                          size: real -> (real, bool), i: nat, j: nat)
    requires Groups(run, cuts, out, size) && i <= j < |cuts|
    ensures cuts[i] <= cuts[j]
    decreases j - i
  {
    if i < j {
      CutsAscendFrom(run, cuts, out, size, i, j - 1);
      assert GroupAt(run, cuts, out, size, j - 1);
    }
  }

  lemma LongerGroups(run: seq<Print>, cuts: seq<nat>, out: seq<Disc>, disc: Disc, size: real -> (real, bool))
    requires |cuts| == |out| + 1 && cuts[|out|] < |run| && Groups(run[..cuts[|out|]], cuts, out, size)
    requires StandsFor(disc, run[cuts[|out|]..], size)
    ensures Groups(run, cuts + [|run|], out + [disc], size)
  {
    var n, next, all := |out|, cuts + [|run|], out + [disc];
    CutsAscend(run[..cuts[n]], cuts, out, size);
    forall i: nat | i < n + 1
      ensures GroupAt(run, next, all, size, i)
    {
      if i < n {
        assert GroupAt(run[..cuts[n]], cuts, out, size, i);
        assert run[next[i]..next[i + 1]] == run[..cuts[n]][cuts[i]..cuts[i + 1]];
      } else {
        assert run[next[i]..next[i + 1]] == run[cuts[n]..];
      }
    }
  }

  /** Every disc of a zoom stands for a contiguous group of the ordered prints; no print is lost. */
  lemma {:induction false} DiscsAreGroups(run: seq<Print>, ppm: real, size: real -> (real, bool))
    returns (cuts: seq<nat>)
    requires Ordered(run) && Volumes(run)
    ensures Groups(run, cuts, MergeAll(run, ppm, size), size)
  {
    if run == [] {
      cuts := [0];
    } else {
      var n := |run| - 1;
      var init, disc := run[..n], DiscOf(run[n], size);
      var before := DiscsAreGroups(init, ppm, size);
      assert run[..before[|before| - 1]] == init;
      assert run[n..] == [run[n]];
      assert SumBuy([run[n]]) == run[n].buy && SumSell([run[n]]) == run[n].sell by {
        assert [run[n]][..0] == [];
      }
      MomentOfOne(run[n]);
      cuts := SettleGroups(run, before, MergeAll(init, ppm, size), disc, ppm, size);
    }
  }

  ghost function DiscBuy(discs: seq<Disc>): real {
    if discs == [] then 0.0 else DiscBuy(discs[..|discs| - 1]) + discs[|discs| - 1].buy
  }

  ghost function DiscSell(discs: seq<Disc>): real {
    if discs == [] then 0.0 else DiscSell(discs[..|discs| - 1]) + discs[|discs| - 1].sell
  }

  lemma {:induction false} SettleConserves(out: seq<Disc>, disc: Disc, ppm: real, size: real -> (real, bool))
    ensures DiscBuy(Settle(out, disc, ppm, size)) == DiscBuy(out) + disc.buy
    ensures DiscSell(Settle(out, disc, ppm, size)) == DiscSell(out) + disc.sell
    decreases |out|
  {
    if out != [] && Covers(out[|out| - 1], disc, ppm) {
      SettleConserves(out[..|out| - 1], Merged(out[|out| - 1], disc, size), ppm, size);
    } else {
      assert (out + [disc])[..|out|] == out;
    }
  }

  /** Bought and sold volume are each conserved, for any prints in any order. */
  lemma {:induction false} DiscsConserveVolume(run: seq<Print>, ppm: real, size: real -> (real, bool))
    ensures DiscBuy(MergeAll(run, ppm, size)) == SumBuy(run)
    ensures DiscSell(MergeAll(run, ppm, size)) == SumSell(run)
  {
    if run != [] {
      DiscsConserveVolume(run[..|run| - 1], ppm, size);
      SettleConserves(MergeAll(run[..|run| - 1], ppm, size), DiscOf(run[|run| - 1], size), ppm, size);
    }
  }

  // ---- no two discs of one price cover each other ----

  ghost predicate NeighboursApart(discs: seq<Disc>, ppm: real) {
    forall i :: 0 < i < |discs| ==> !Covers(discs[i - 1], discs[i], ppm)
  }

  lemma {:induction false} SettleApart(out: seq<Disc>, disc: Disc, ppm: real, size: real -> (real, bool))
    requires NeighboursApart(out, ppm)
    ensures NeighboursApart(Settle(out, disc, ppm, size), ppm)
    decreases |out|
  {
    if out != [] && Covers(out[|out| - 1], disc, ppm) {
      SettleApart(out[..|out| - 1], Merged(out[|out| - 1], disc, size), ppm, size);
    }
  }

  lemma {:induction false} MergedNeighboursApart(run: seq<Print>, ppm: real, size: real -> (real, bool))
    ensures NeighboursApart(MergeAll(run, ppm, size), ppm)
  {
    if run != [] {
      MergedNeighboursApart(run[..|run| - 1], ppm, size);
      SettleApart(MergeAll(run[..|run| - 1], ppm, size), DiscOf(run[|run| - 1], size), ppm, size);
    }
  }

  ghost predicate DiscsOrdered(discs: seq<Disc>) {
    forall i, j :: 0 <= i < j < |discs| ==>
      discs[i].key < discs[j].key || (discs[i].key == discs[j].key && discs[i].time <= discs[j].time)
  }

  lemma GroupsOrdered(run: seq<Print>, cuts: seq<nat>, discs: seq<Disc>, size: real -> (real, bool))
    requires Ordered(run) && Groups(run, cuts, discs, size)
    ensures DiscsOrdered(discs)
  {
    CutsAscend(run, cuts, discs, size);
    forall i, j | 0 <= i < j < |discs|
      ensures discs[i].key < discs[j].key || (discs[i].key == discs[j].key && discs[i].time <= discs[j].time)
    {
      var a, b := run[cuts[i]..cuts[i + 1]], run[cuts[j]..cuts[j + 1]];
      assert GroupAt(run, cuts, discs, size, i) && GroupAt(run, cuts, discs, size, j);
      assert cuts[i + 1] <= cuts[j];
      assert a[|a| - 1] == run[cuts[i + 1] - 1] && b[0] == run[cuts[j]];
    }
  }

  /** Gaps add up: discs of one price with neighbours apart are all apart. */
  lemma {:induction false} GapsAddUp(discs: seq<Disc>, ppm: real, i: nat, j: nat)
    requires DiscsOrdered(discs) && NeighboursApart(discs, ppm) && ppm > 0.0
    requires forall k :: 0 <= k < |discs| ==> discs[k].radius >= 0.0
    requires i < j < |discs| && discs[i].key == discs[j].key
    ensures (discs[j].time - discs[i].time) * ppm >= discs[i].radius + discs[j].radius
    decreases j - i
  {
    assert !Covers(discs[j - 1], discs[j], ppm);
    if i < j - 1 {
      assert discs[i].key <= discs[j - 1].key <= discs[j].key;
      GapsAddUp(discs, ppm, i, j - 1);
      var g, h := discs[j - 1].time - discs[i].time, discs[j].time - discs[j - 1].time;
      assert (g + h) * ppm == g * ppm + h * ppm;
    }
  }

  /**
   After merging, discs keep the price-time order and no two discs of one price cover each other,
   neighbours or not, for any non-negative size and positive scale.
   */
  lemma NoTwoDiscsCover(run: seq<Print>, ppm: real, size: real -> (real, bool), i: nat, j: nat)
    requires Ordered(run) && Volumes(run) && ppm > 0.0
    requires forall v :: size(v).0 >= 0.0
    requires i < j < |MergeAll(run, ppm, size)|
    ensures DiscsOrdered(MergeAll(run, ppm, size))
    ensures !Covers(MergeAll(run, ppm, size)[i], MergeAll(run, ppm, size)[j], ppm)
  {
    MergedDiscsOrdered(run, ppm, size);
    MergedNeighboursApart(run, ppm, size);
    ApartNeighboursCoverNothing(MergeAll(run, ppm, size), ppm, i, j);
  }

  /** Once neighbours are apart, so are any two discs. */
  lemma ApartNeighboursCoverNothing(discs: seq<Disc>, ppm: real, i: nat, j: nat)
    requires DiscsOrdered(discs) && NeighboursApart(discs, ppm) && ppm > 0.0
    requires forall k :: 0 <= k < |discs| ==> discs[k].radius >= 0.0
    requires i < j < |discs|
    ensures !Covers(discs[i], discs[j], ppm)
  {
    if discs[i].key == discs[j].key {
      GapsAddUp(discs, ppm, i, j);
    }
  }

  lemma MergedDiscsOrdered(run: seq<Print>, ppm: real, size: real -> (real, bool))
    requires Ordered(run) && Volumes(run)
    requires forall v :: size(v).0 >= 0.0
    ensures DiscsOrdered(MergeAll(run, ppm, size))
    ensures forall k :: 0 <= k < |MergeAll(run, ppm, size)| ==> MergeAll(run, ppm, size)[k].radius >= 0.0
  {
    var discs := MergeAll(run, ppm, size);
    var cuts := DiscsAreGroups(run, ppm, size);
    GroupsOrdered(run, cuts, discs, size);
    forall k: nat | k < |discs|
      ensures discs[k].radius >= 0.0
    {
      assert GroupAt(run, cuts, discs, size, k);
      assert size(discs[k].Total()).0 >= 0.0;
    }
  }

  // ---- merging is settled ----

  function AsPrints(discs: seq<Disc>): (r: seq<Print>)
    ensures |r| == |discs|
  {
    seq(|discs|, i requires 0 <= i < |discs| =>
      Print(discs[i].time, discs[i].price, discs[i].key, discs[i].buy, discs[i].sell))
  }

  /** The same disc read as if it had just been drawn. */
  function Restarted(d: Disc): Disc {
    d.(firstMs := d.time)
  }

  /** Every disc has the radius and the small flag of its own volume. */
  ghost predicate Sized(discs: seq<Disc>, size: real -> (real, bool)) {
    forall k :: 0 <= k < |discs| ==> (discs[k].radius, discs[k].small) == size(discs[k].Total())
  }

  lemma {:induction false} SettleSized(out: seq<Disc>, disc: Disc, ppm: real, size: real -> (real, bool))
    requires Sized(out, size) && (disc.radius, disc.small) == size(disc.Total())
    ensures Sized(Settle(out, disc, ppm, size), size)
    decreases |out|
  {
    if out != [] && Covers(out[|out| - 1], disc, ppm) {
      SettleSized(out[..|out| - 1], Merged(out[|out| - 1], disc, size), ppm, size);
    }
  }

  lemma {:induction false} MergedSized(run: seq<Print>, ppm: real, size: real -> (real, bool))
    ensures Sized(MergeAll(run, ppm, size), size)
  {
    if run != [] {
      var last := DiscOf(run[|run| - 1], size);
      MergedSized(run[..|run| - 1], ppm, size);
      assert last.Total() == run[|run| - 1].Total();
      SettleSized(MergeAll(run[..|run| - 1], ppm, size), last, ppm, size);
    }
  }

  function AllRestarted(discs: seq<Disc>): (r: seq<Disc>)
    ensures |r| == |discs|
  {
    seq(|discs|, i requires 0 <= i < |discs| => Restarted(discs[i]))
  }

  /** Discs that are apart and sized come through a merge as they are, only their first times restarted. */
  lemma {:induction false} ApartStay(discs: seq<Disc>, ppm: real, size: real -> (real, bool))
    requires NeighboursApart(discs, ppm) && Sized(discs, size)
    ensures MergeAll(AsPrints(discs), ppm, size) == AllRestarted(discs)
  {
    if discs != [] {
      var n := |discs| - 1;
      var init := discs[..n];
      ApartStay(init, ppm, size);
      PrintsOfLast(discs);
      RestartedLast(discs[n], size);
      assert n > 0 ==> !Covers(discs[n - 1], discs[n], ppm);
      LastStays(discs, ppm, size);
    }
  }

  lemma PrintsOfLast(discs: seq<Disc>)
    requires discs != []
    ensures var (n, prints) := (|discs| - 1, AsPrints(discs));
            && prints[..n] == AsPrints(discs[..n])
            && prints[n] == Print(discs[n].time, discs[n].price, discs[n].key, discs[n].buy, discs[n].sell)
  {
  }

  lemma LastStays(discs: seq<Disc>, ppm: real, size: real -> (real, bool))
    requires discs != [] && (|discs| > 1 ==> !Covers(discs[|discs| - 2], discs[|discs| - 1], ppm))
    ensures var n := |discs| - 1;
            Settle(AllRestarted(discs[..n]), Restarted(discs[n]), ppm, size) == AllRestarted(discs)
  {
    var n := |discs| - 1;
    var rest, last := AllRestarted(discs[..n]), Restarted(discs[n]);
    assert n > 0 ==> rest[n - 1] == Restarted(discs[n - 1]);
    Stays(rest, last, ppm, size);
    assert AllRestarted(discs) == rest + [last];
  }

  lemma Stays(rest: seq<Disc>, disc: Disc, ppm: real, size: real -> (real, bool))
    requires rest == [] || !Covers(rest[|rest| - 1], disc, ppm)
    ensures Settle(rest, disc, ppm, size) == rest + [disc]
  {
  }

  lemma RestartedLast(d: Disc, size: real -> (real, bool))
    requires (d.radius, d.small) == size(d.Total())
    ensures DiscOf(Print(d.time, d.price, d.key, d.buy, d.sell), size) == Restarted(d)
  {
  }

  /** Merging the discs of any zoom again, as prints, changes nothing but the time each first print had. */
  lemma MergeIsSettled(run: seq<Print>, ppm: real, size: real -> (real, bool))
    ensures var discs := MergeAll(run, ppm, size);
            MergeAll(AsPrints(discs), ppm, size) == AllRestarted(discs)
  {
    MergedNeighboursApart(run, ppm, size);
    MergedSized(run, ppm, size);
    ApartStay(MergeAll(run, ppm, size), ppm, size);
  }
}

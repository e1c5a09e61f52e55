/**
 From closed trades to drawn markers: what each marker stands for, that no trade end is lost, and that a
 window changes nothing it shows (crates/moon-chart/src/trade_marks.rs).
 */
module TradeMarkers {
  import opened Floats
  import opened Seqs
  import opened Sorting
  import opened TradeClusters

  /** The markers of some trades at one zoom, over everything or only around a window. */
  ghost function Markers(z: Zoom, marks: seq<TradeMark>, window: Option<(Float, Float)>): seq<Cluster> {
    Clusters(z, SortActions(Exploded(marks)), window, 4)
  }

  // ---- trade ends ----

  /** A shown entry or exit of a trade; a long enters by buying, a short by selling. */
  predicate IsEnd(marks: seq<TradeMark>, a: Action) {
    && a.mark < |marks| && a.isShort == marks[a.mark].isShort && a.qty == marks[a.mark].qty
    && var m := marks[a.mark];
       || (m.showEntry && a.t == m.buyMs && a.price == m.buyPrice && (a.buy <==> !m.isShort))
       || (m.showExit && a.t == m.closeMs && a.price == m.sellPrice && (a.buy <==> m.isShort))
  }

  /** The actions are the shown ends of the trades, each once. */
  lemma {:induction false} ExplodedOnce(marks: seq<TradeMark>, a: Action)
    ensures multiset(Exploded(marks))[a] == if IsEnd(marks, a) then 1 else 0
  {
    if marks != [] {
      var n := |marks| - 1;
      ExplodedOnce(marks[..n], a);
      EndsOnce(marks[n], n, a);
      assert IsEnd(marks, a) <==> IsEnd(marks[..n], a) || (a.mark == n && IsEnd(marks, a));
    }
  }

  lemma EndsOnce(m: TradeMark, n: nat, a: Action)
    ensures multiset(EndsOf(m, n))[a] == if a.mark == n && IsEnd(seq(n + 1, i => m), a) then 1 else 0
  {
  }

  // ---- where a marker's members are ----

  /** How hard an action pulls a centre towards itself: by its quantity, if that is positive. */
  function Pull(a: Action, x: real, centre: real): real {
    if a.qty.Fin? && a.qty.v > 0.0 then (x - centre) * a.qty.v else 0.0
  }

  /** The centre balances the quantities around it, or the bare members where none has a quantity. */
  ghost predicate Balances(group: seq<Action>, x: Action -> real, centre: real) {
    if exists i :: 0 <= i < |group| && group[i].qty.Fin? && group[i].qty.v > 0.0
    then SumBy(group, (a: Action) => Pull(a, x(a), centre)) == 0.0
    else SumBy(group, (a: Action) => x(a) - centre) == 0.0
  }

  lemma {:induction false} PullIsMoment(group: seq<Action>, x: Action -> real, centre: real)
    ensures SumBy(group, (a: Action) => Pull(a, x(a), centre))
         == WeightedSum(group, x, WeightOf()) - centre * TotalWeight(group)
  {
    if group != [] {
      var init, last := group[..|group| - 1], group[|group| - 1];
      PullIsMoment(init, x, centre);
      assert Pull(last, x(last), centre) == x(last) * Weight(last.qty) - centre * Weight(last.qty);
      assert centre * TotalWeight(group) == centre * TotalWeight(init) + centre * Weight(last.qty);
    }
  }

  lemma {:induction false} OffsetIsMoment(group: seq<Action>, x: Action -> real, centre: real)
    ensures SumBy(group, (a: Action) => x(a) - centre) == WeightedSum(group, x, Unit()) - centre * |group| as real
  {
    if group != [] {
      var init, last := group[..|group| - 1], group[|group| - 1];
      OffsetIsMoment(init, x, centre);
      assert centre * |group| as real == centre * |init| as real + centre;
    }
  }

  lemma {:induction false} WeightIffPositive(group: seq<Action>)
    ensures TotalWeight(group) >= 0.0
    ensures TotalWeight(group) > 0.0 <==>
            exists i :: 0 <= i < |group| && group[i].qty.Fin? && group[i].qty.v > 0.0
  {
    if group != [] {
      var n := |group| - 1;
      WeightIffPositive(group[..n]);
      if i :| 0 <= i < n && group[..n][i].qty.Fin? && group[..n][i].qty.v > 0.0 {
        assert group[i].qty.Fin? && group[i].qty.v > 0.0;
      }
      if i :| 0 <= i < |group| && group[i].qty.Fin? && group[i].qty.v > 0.0 {
        assert i < n ==> group[..n][i] == group[i];
      }
    }
  }

  lemma CentreBalances(group: seq<Action>, x: Action -> real)
    requires group != []
    ensures Balances(group, x, Centre(group, x))
  {
    var c := Centre(group, x);
    WeightIffPositive(group);
    if TotalWeight(group) > 0.0 {
      PullIsMoment(group, x, c);
      QuotientTimes(WeightedSum(group, x, WeightOf()), TotalWeight(group));
    } else {
      OffsetIsMoment(group, x, c);
      QuotientTimes(WeightedSum(group, x, Unit()), |group| as real);
    }
  }

  // ---- markers ----

  predicate Usable(z: Zoom) { z.ppm.Fin? && z.ppp.Fin? && z.ppm.v > 0.0 && z.ppp.v > 0.0 }

  /** Eight device pixels about the first member, sixteen between any two; alone where there is no scale. */
  ghost predicate Compact(z: Zoom, group: seq<Action>) {
    && group != [] && (!Usable(z) ==> |group| == 1)
    && (Usable(z) ==> forall j, k :: 0 <= j < |group| && 0 <= k < |group| ==>
          && WithinPx(z, group[0], group[k], 8.0 * Max(z.scale, 0.1))
          && WithinPx(z, group[j], group[k], 16.0 * Max(z.scale, 0.1)))
  }

  /** Members come by time, then price, then trade. */
  predicate InOrder(a: Action, b: Action) {
    || a.t < b.t
    || (a.t == b.t && a.price < b.price)
    || (a.t == b.t && a.price == b.price && a.mark <= b.mark)
  }

  /** A marker stands for trade ends of its own side and direction, close together, and at their centre. */
  ghost predicate StandsFor(z: Zoom, marks: seq<TradeMark>, c: Cluster, group: seq<Action>) {
    && Compact(z, group) && |c.members| == |group|
    && (forall i :: 0 <= i < |group| ==>
          && IsEnd(marks, group[i]) && c.members[i] == group[i].mark
          && group[i].buy == c.buy && group[i].isShort == c.isShort)
    && (forall i, j :: 0 <= i < j < |group| ==> InOrder(group[i], group[j]))
    && Balances(group, (a: Action) => a.t as real, c.t) && Balances(group, (a: Action) => a.price, c.price)
  }

  lemma {:induction false} InPartition(z: Zoom, sorted: seq<seq<Action>>, window: Option<(Float, Float)>, keys: nat,
                                       c: Cluster) returns (k: nat)
    requires keys <= 4 && keys <= |sorted| && c in Clusters(z, sorted, window, keys)
    ensures k < keys && c in PartClusters(z, sorted[k], window, ACTION_KEYS[k])
  {
    if c in PartClusters(z, sorted[keys - 1], window, ACTION_KEYS[keys - 1]) {
      k := keys - 1;
    } else {
      k := InPartition(z, sorted, window, keys - 1, c);
    }
  }

  lemma InGroup(z: Zoom, part: seq<Action>, window: Option<(Float, Float)>, key: (bool, bool), c: Cluster)
    returns (g: (nat, nat))
    requires c in PartClusters(z, part, window, key)
    ensures var (i0, i1) := Span(z, part, window); g in Sweep(z, part, i0, i1)
    ensures g.0 < g.1 <= |part| && c == Folded(part[g.0..g.1], key)
  {
    var (i0, i1) := Span(z, part, window);
    var groups: seq<(nat, nat)> := Sweep(z, part, i0, i1);
    SweepRanges(z, part, i0, i1);
    var i: nat :| i < |PartClusters(z, part, window, key)| && PartClusters(z, part, window, key)[i] == c;
    g := groups[i];
  }

  lemma GroupCompact(z: Zoom, part: seq<Action>, from: nat, end: nat, g: (nat, nat))
    requires from <= end <= |part| && g in Sweep(z, part, from, end) && g.0 < g.1 <= |part|
    ensures Compact(z, part[g.0..g.1])
  {
    var group := part[g.0..g.1];
    GroupsInPixels(z, part, from, end, g, g.0, g.0);
    forall j, k | Usable(z) && 0 <= j < |group| && 0 <= k < |group|
      ensures WithinPx(z, group[0], group[k], 8.0 * Max(z.scale, 0.1))
      ensures WithinPx(z, group[j], group[k], 16.0 * Max(z.scale, 0.1))
    {
      GroupsInPixels(z, part, from, end, g, g.0 + j, g.0 + k);
    }
  }

  lemma PartEnds(marks: seq<TradeMark>, key: (bool, bool), a: Action)
    ensures a in Part(Exploded(marks), key) <==> IsEnd(marks, a) && a.buy == key.0 && a.isShort == key.1
  {
    PartKeepsKind(Exploded(marks), key, a);
    ExplodedOnce(marks, a);
    assert a in Part(Exploded(marks), key) <==> multiset(Part(Exploded(marks), key))[a] > 0;
  }

  lemma GroupStandsFor(z: Zoom, marks: seq<TradeMark>, key: (bool, bool), from: nat, end: nat, g: (nat, nat))
    requires var part := Part(Exploded(marks), key);
             from <= end <= |part| && g in Sweep(z, part, from, end) && g.0 < g.1 <= |part|
    ensures var part := Part(Exploded(marks), key);
            StandsFor(z, marks, Folded(part[g.0..g.1], key), part[g.0..g.1])
  {
    var part := Part(Exploded(marks), key);
    var group := part[g.0..g.1];
    PartSorted(Exploded(marks), key);
    GroupCompact(z, part, from, end, g);
    forall i, j | 0 <= i < j < |group| ensures InOrder(group[i], group[j]) {
      assert EarlierOf()(part[g.0 + i], part[g.0 + j]);
    }
    forall i | 0 <= i < |group| ensures IsEnd(marks, group[i]) && group[i].buy == key.0 && group[i].isShort == key.1 {
      assert group[i] == part[g.0 + i] && part[g.0 + i] in part;
      PartEnds(marks, key, group[i]);
    }
    CentreBalances(group, TimeOf());
    CentreBalances(group, PriceOf());
    SameBalance(group, TimeOf(), (a: Action) => a.t as real, Centre(group, TimeOf()));
    SameBalance(group, PriceOf(), (a: Action) => a.price, Centre(group, PriceOf()));
  }

  lemma SameBalance(group: seq<Action>, f: Action -> real, x: Action -> real, centre: real)
    requires Balances(group, f, centre) && forall a :: f(a) == x(a)
    ensures Balances(group, x, centre)
  {
    SumByAgrees(group, (a: Action) => Pull(a, f(a), centre), (a: Action) => Pull(a, x(a), centre));
    SumByAgrees(group, (a: Action) => f(a) - centre, (a: Action) => x(a) - centre);
  }

  /**
   Every marker, drawn over everything or around a window, stands for a group of trade ends; and one
   drawn over everything with an end inside a window is drawn around that window too, unchanged.
   */
  lemma MarkerStandsFor(z: Zoom, marks: seq<TradeMark>, window: Option<(Float, Float)>, c: Cluster,
                        lo: Float, hi: Float)
    returns (group: seq<Action>)
    requires c in Markers(z, marks, window)
    ensures StandsFor(z, marks, c, group)
    ensures window.None? && (exists i :: 0 <= i < |group| && Le(lo, Fin(group[i].t as real))
                                         && Le(Fin(group[i].t as real), hi)) ==>
              c in Markers(z, marks, Some((lo, hi)))
  {
    var sorted := SortActions(Exploded(marks));
    var k := InPartition(z, sorted, window, 4, c);
    var part, key := sorted[k], ACTION_KEYS[k];
    var g := InGroup(z, part, window, key, c);
    var (i0, i1) := Span(z, part, window);
    group := part[g.0..g.1];
    GroupStandsFor(z, marks, key, i0, i1, g);
    if i :| 0 <= i < |group| && Le(lo, Fin(group[i].t as real)) && Le(Fin(group[i].t as real), hi) {
      if window.None? {
        assert InWindow(part[g.0 + i], lo, hi);
        WindowedClustersExact(z, Exploded(marks), k, lo, hi, g);
      }
    }
  }

  // ---- no end is lost ----

  lemma {:induction false} InSweep(z: Zoom, part: seq<Action>, from: nat, end: nat, i: nat) returns (g: (nat, nat))
    requires from <= i < end <= |part|
    ensures g in Sweep(z, part, from, end) && g.0 <= i < g.1 <= end
    decreases end - from
  {
    var e := GroupEnd(z, part, from, from + 1, end);
    if i < e {
      g := (from, e);
    } else {
      g := InSweep(z, part, e, end, i);
    }
  }

  /** Every shown end of every trade is drawn, in a marker of its own side and direction. */
  lemma EveryEndDrawn(z: Zoom, marks: seq<TradeMark>, a: Action) returns (c: Cluster)
    requires IsEnd(marks, a)
    ensures c in Markers(z, marks, None)
    ensures a.mark in c.members && c.buy == a.buy && c.isShort == a.isShort
  {
    var k := KeyOf(a);
    var part, key := SortActions(Exploded(marks))[k], ACTION_KEYS[k];
    PartEnds(marks, key, a);
    var i: nat :| i < |part| && part[i] == a;
    var g := InSweep(z, part, 0, |part|, i);
    c := Folded(part[g.0..g.1], key);
    assert part[g.0..g.1][i - g.0] == a && c.members[i - g.0] == a.mark;
    GroupIsCluster(z, part, None, key, g);
    ClustersHold(z, SortActions(Exploded(marks)), None, 4, k, c);
  }

  lemma KeyOf(a: Action) returns (k: nat)
    ensures k < 4 && ACTION_KEYS[k] == (a.buy, a.isShort)
  {
    k := if a.buy then if a.isShort then 3 else 1 else if a.isShort then 2 else 0;
  }

  ghost function MemberCount(cs: seq<Cluster>): nat {
    if cs == [] then 0 else MemberCount(cs[..|cs| - 1]) + |cs[|cs| - 1].members|
  }

  lemma {:induction false} MemberCountAdds(a: seq<Cluster>, b: seq<Cluster>)
    ensures MemberCount(a + b) == MemberCount(a) + MemberCount(b)
  {
    if b == [] {
      assert a + b == a;
    } else {
      assert (a + b)[..|a + b| - 1] == a + b[..|b| - 1];
      MemberCountAdds(a, b[..|b| - 1]);
    }
  }

  lemma FirstCluster(part: seq<Action>, g: (nat, nat), rest: seq<(nat, nat)>, key: (bool, bool))
    requires g.0 < g.1 <= |part| && Ranges(rest, |part|)
    ensures Ranges([g] + rest, |part|)
    ensures MemberCount(ClustersOf(part, [g] + rest, key)) == g.1 - g.0 + MemberCount(ClustersOf(part, rest, key))
  {
    var first := Folded(part[g.0..g.1], key);
    assert ClustersOf(part, [g] + rest, key) == [first] + ClustersOf(part, rest, key);
    MemberCountAdds([first], ClustersOf(part, rest, key));
    assert MemberCount([first]) == |first.members|;
  }

  lemma {:induction false} SweepCounts(z: Zoom, part: seq<Action>, from: nat, end: nat, key: (bool, bool))
    requires from <= end <= |part|
    ensures Ranges(Sweep(z, part, from, end), |part|)
    ensures MemberCount(ClustersOf(part, Sweep(z, part, from, end), key)) == end - from
    decreases end - from
  {
    SweepRanges(z, part, from, end);
    if from < end {
      var e := GroupEnd(z, part, from, from + 1, end);
      SweepCounts(z, part, e, end, key);
      FirstCluster(part, (from, e), Sweep(z, part, e, end), key);
    }
  }

  /** The four partitions together hold every action once. */
  lemma {:induction false} PartsCount(actions: seq<Action>)
    ensures |Part(actions, ACTION_KEYS[0])| + |Part(actions, ACTION_KEYS[1])| + |Part(actions, ACTION_KEYS[2])|
            + |Part(actions, ACTION_KEYS[3])| == |actions|
  {
    if actions != [] { PartsCount(actions[..|actions| - 1]); }
  }

  ghost function Lengths(sorted: seq<seq<Action>>, k: nat): nat
    requires k <= |sorted|
  {
    if k == 0 then 0 else Lengths(sorted, k - 1) + |sorted[k - 1]|
  }

  lemma {:induction false} ClustersCount(z: Zoom, sorted: seq<seq<Action>>, k: nat)
    requires k <= 4 && k <= |sorted|
    ensures MemberCount(Clusters(z, sorted, None, k)) == Lengths(sorted, k)
  {
    if k > 0 {
      ClustersCount(z, sorted, k - 1);
      PartCount(z, sorted[k - 1], ACTION_KEYS[k - 1]);
      MemberCountAdds(Clusters(z, sorted, None, k - 1), PartClusters(z, sorted[k - 1], None, ACTION_KEYS[k - 1]));
    }
  }

  lemma PartCount(z: Zoom, part: seq<Action>, key: (bool, bool))
    ensures MemberCount(PartClusters(z, part, None, key)) == |part|
  {
    SweepCounts(z, part, 0, |part|, key);
  }

  /** Over everything the markers have as many members as there are shown ends: none is drawn twice. */
  lemma NoEndDrawnTwice(z: Zoom, marks: seq<TradeMark>)
    ensures MemberCount(Markers(z, marks, None)) == |Exploded(marks)|
  {
    var sorted := SortActions(Exploded(marks));
    ClustersCount(z, sorted, 4);
    PartsCount(Exploded(marks));
    FourLengths(sorted);
  }

  lemma FourLengths(sorted: seq<seq<Action>>)
    requires |sorted| == 4
    ensures Lengths(sorted, 4) == |sorted[0]| + |sorted[1]| + |sorted[2]| + |sorted[3]|
  {
    assert Lengths(sorted, 0) == 0;
    assert Lengths(sorted, 1) == |sorted[0]|;
    assert Lengths(sorted, 2) == |sorted[0]| + |sorted[1]|;
    assert Lengths(sorted, 3) == |sorted[0]| + |sorted[1]| + |sorted[2]|;
  }
}

/**
 Grouping closed-trade actions into markers, over everything or only around a window
 (crates/moon-chart/src/trade_marks.rs).
 */
module TradeClusters {
  import opened Floats
  import opened Seqs
  import opened Sorting

  /** One closed trade; entry and exit are written from a long's point of view. */
  datatype TradeMark = TradeMark(buyMs: int, closeMs: int, buyPrice: real, sellPrice: real, qty: Float,
                                 isShort: bool, showEntry: bool, showExit: bool)

  /** One end of one trade. */
  datatype Action = Action(t: int, price: real, qty: Float, buy: bool, isShort: bool, mark: nat)

  /** A group of actions drawn as one arrow. */
  datatype Cluster = Cluster(t: real, price: real, buy: bool, isShort: bool, members: seq<nat>)

  /** The `(buy, is_short)` partitions in the order clusters are emitted. */
  const ACTION_KEYS: seq<(bool, bool)> := [(false, false), (true, false), (false, true), (true, true)]

  const CLUSTER_PX: real := 8.0

  /** The view a sweep reads: its two scales and the device-scaled cluster radius. */
  datatype Zoom = Zoom(ppm: Float, ppp: Float, scale: real) {
    function Reach(): real { CLUSTER_PX * Max(scale, 0.1) }
    predicate Usable() { ppm.Fin? && ppp.Fin? && ppm.v > 0.0 && ppp.v > 0.0 }
  }

  // ---- actions ----

  function EndsOf(m: TradeMark, idx: nat): seq<Action> {
    (if m.showEntry then [Action(m.buyMs, m.buyPrice, m.qty, !m.isShort, m.isShort, idx)] else []) +
    (if m.showExit then [Action(m.closeMs, m.sellPrice, m.qty, m.isShort, m.isShort, idx)] else [])
  }

  function Exploded(marks: seq<TradeMark>): seq<Action> {
    if marks == [] then [] else Exploded(marks[..|marks| - 1]) + EndsOf(marks[|marks| - 1], |marks| - 1)
  }

  method ExplodeActions(marks: seq<TradeMark>) returns (actions: seq<Action>)
    ensures actions == Exploded(marks)
  {
    actions := [];
    var idx := 0;
    while idx < |marks|
      invariant 0 <= idx <= |marks|
      invariant actions == Exploded(marks[..idx])
    {
      var m := marks[idx];
      assert marks[..idx + 1][..idx] == marks[..idx];
      ghost var before := actions;
      if m.showEntry {
        actions := actions + [Action(m.buyMs, m.buyPrice, m.qty, !m.isShort, m.isShort, idx)];
      }
      if m.showExit {
        actions := actions + [Action(m.closeMs, m.sellPrice, m.qty, m.isShort, m.isShort, idx)];
      }
      assert actions == before + EndsOf(m, idx);
      idx := idx + 1;
    }
    assert marks[..idx] == marks;
  }

  predicate Earlier(a: Action, b: Action) {
    a.t < b.t || (a.t == b.t && (a.price < b.price || (a.price == b.price && a.mark <= b.mark)))
  }

  function EarlierOf(): (Action, Action) -> bool {
    (a: Action, b: Action) => Earlier(a, b)
  }

  predicate OfKey(a: Action, key: (bool, bool)) {
    (a.buy, a.isShort) == key
  }

  /** One partition of the actions, in sweep order. */
  function Part(actions: seq<Action>, key: (bool, bool)): seq<Action> {
    Sort(Filter(actions, (a: Action) => OfKey(a, key)), EarlierOf())
  }

  function SortActions(actions: seq<Action>): (r: seq<seq<Action>>)
    ensures |r| == 4
  {
    seq(4, k requires 0 <= k < 4 => Part(actions, ACTION_KEYS[k]))
  }

  ghost predicate Chronological(part: seq<Action>) {
    forall i, j :: 0 <= i < j < |part| ==> part[i].t <= part[j].t
  }

  lemma PartSorted(actions: seq<Action>, key: (bool, bool))
    ensures Pairwise(Part(actions, key), EarlierOf()) && Chronological(Part(actions, key))
    ensures forall a :: a in Part(actions, key) <==> a in actions && OfKey(a, key)
  {
    var of := (a: Action) => OfKey(a, key);
    SortSorted(Filter(actions, of), EarlierOf());
    var part := Part(actions, key);
    PermutationMembers(Filter(actions, of), part);
    FilterMembers(actions, of);
    forall i, j | 0 <= i < j < |part|
      ensures part[i].t <= part[j].t
    {
      assert EarlierOf()(part[i], part[j]);
    }
  }

  /** A partition holds each action of its own kind as often as it came, and no other. */
  lemma {:induction false} PartKeepsKind(actions: seq<Action>, key: (bool, bool), a: Action)
    ensures multiset(Part(actions, key))[a] == if OfKey(a, key) then multiset(actions)[a] else 0
  {
    if actions != [] {
      var init, last := actions[..|actions| - 1], actions[|actions| - 1];
      PartKeepsKind(init, key, a);
      assert actions == init + [last];
      assert Filter(actions, (x: Action) => OfKey(x, key))
          == Filter(init, (x: Action) => OfKey(x, key)) + if OfKey(last, key) then [last] else [];
    }
  }

  // ---- the sweep ----

  predicate Joins(z: Zoom, seed: Action, a: Action) {
    && z.Usable()
    && Abs((a.t - seed.t) as real * z.ppm.v) <= z.Reach()
    && Abs((a.price - seed.price) * z.ppp.v) <= z.Reach()
  }

  /** The first action from `i` on that does not join the group seeded at `seed`. */
  function GroupEnd(z: Zoom, part: seq<Action>, seed: nat, i: nat, end: nat): (e: nat)
    requires seed < i <= end <= |part|
    ensures i <= e <= end
    ensures forall j :: i <= j < e ==> Joins(z, part[seed], part[j])
    ensures e < end ==> !Joins(z, part[seed], part[e])
    decreases end - i
  {
    if i == end || !Joins(z, part[seed], part[i]) then i else GroupEnd(z, part, seed, i + 1, end)
  }

  /** The groups of `part[from..end]` as consecutive index ranges, each anchored to its seed. */
  function Sweep(z: Zoom, part: seq<Action>, from: nat, end: nat): seq<(nat, nat)>
    requires from <= end <= |part|
    decreases end - from
  {
    if from == end then []
    else
      var e := GroupEnd(z, part, from, from + 1, end);
      [(from, e)] + Sweep(z, part, e, end)
  }

  function Weight(qty: Float): real {
    if qty.Fin? && qty.v > 0.0 then qty.v else 0.0
  }

  function TotalWeight(group: seq<Action>): real {
    if group == [] then 0.0 else TotalWeight(group[..|group| - 1]) + Weight(group[|group| - 1].qty)
  }

  /** The sum of `f` over a group, each action times its own weight `w`. */
  function WeightedSum(group: seq<Action>, f: Action -> real, w: Action -> real): real {
    if group == [] then 0.0
    else
      var last := group[|group| - 1];
      WeightedSum(group[..|group| - 1], f, w) + f(last) * w(last)
  }

  function TimeOf(): Action -> real { (a: Action) => a.t as real }
  function PriceOf(): Action -> real { (a: Action) => a.price }
  function WeightOf(): Action -> real { (a: Action) => Weight(a.qty) }
  function Unit(): Action -> real { (a: Action) => 1.0 }

  /** Volume-weighted where there is weight, the plain mean otherwise. */
  function Centre(group: seq<Action>, f: Action -> real): real
    requires group != []
  {
    var total := TotalWeight(group);
    if total > 0.0 then WeightedSum(group, f, WeightOf()) / total
    else WeightedSum(group, f, Unit()) / |group| as real
  }

  function Folded(group: seq<Action>, key: (bool, bool)): Cluster
    requires group != []
  {
    Cluster(Centre(group, TimeOf()), Centre(group, PriceOf()), key.0, key.1,
            seq(|group|, i requires 0 <= i < |group| => group[i].mark))
  }

  /** One pass over a swept group for the three weighted sums, a second only without any weight. */
  method FoldCluster(group: seq<Action>, key: (bool, bool)) returns (c: Cluster)
    requires group != []
    ensures c == Folded(group, key)
  {
    var total, tWeighted, priceWeighted := 0.0, 0.0, 0.0;
    var i := 0;
    while i < |group|
      invariant 0 <= i <= |group|
      invariant total == TotalWeight(group[..i])
      invariant tWeighted == WeightedSum(group[..i], TimeOf(), WeightOf())
      invariant priceWeighted == WeightedSum(group[..i], PriceOf(), WeightOf())
    {
      assert group[..i + 1][..i] == group[..i];
      var weight := Weight(group[i].qty);
      total := total + weight;
      tWeighted := tWeighted + group[i].t as real * weight;
      priceWeighted := priceWeighted + group[i].price * weight;
      i := i + 1;
    }
    assert group[..i] == group;
    var t, price;
    if total > 0.0 {
      t, price := tWeighted / total, priceWeighted / total;
    } else {
      var n := |group| as real;
      t, price := WeightedSum(group, TimeOf(), Unit()) / n, WeightedSum(group, PriceOf(), Unit()) / n;
    }
    c := Cluster(t, price, key.0, key.1, seq(|group|, j requires 0 <= j < |group| => group[j].mark));
  }

  ghost predicate Ranges(groups: seq<(nat, nat)>, n: nat) {
    forall i :: 0 <= i < |groups| ==> groups[i].0 < groups[i].1 <= n
  }

  lemma {:induction false} SweepRanges(z: Zoom, part: seq<Action>, from: nat, end: nat)
    requires from <= end <= |part|
    ensures Ranges(Sweep(z, part, from, end), |part|)
    ensures forall g :: g in Sweep(z, part, from, end) ==> from <= g.0 && g.1 <= end
    decreases end - from
  {
    if from < end { SweepRanges(z, part, GroupEnd(z, part, from, from + 1, end), end); }
  }

  /** The clusters of some index ranges of a partition. */
  ghost function ClustersOf(part: seq<Action>, groups: seq<(nat, nat)>, key: (bool, bool)): seq<Cluster>
    requires Ranges(groups, |part|)
  {
    seq(|groups|, i requires 0 <= i < |groups| => Folded(part[groups[i].0..groups[i].1], key))
  }

  /** Sweeps one partition's span: a group grows while actions join its seed, then is folded. */
  method SweepPart(z: Zoom, part: seq<Action>, from: nat, end: nat, key: (bool, bool)) returns (out: seq<Cluster>)
    requires from <= end <= |part|
    ensures Ranges(Sweep(z, part, from, end), |part|)
    ensures out == ClustersOf(part, Sweep(z, part, from, end), key)
  {
    SweepRanges(z, part, from, end);
    out := [];
    var group: seq<Action> := [];
    ghost var done: seq<(nat, nat)> := [];
    ghost var seed: nat := from;
    var i := from;
    while i < end
      invariant i <= end && SweptTo(z, part, from, end, key, done, seed, i, group, out)
    {
      group, out, done, seed := TakeAction(z, part, from, end, key, group, out, i, done, seed);
      i := i + 1;
    }
    SweepEnds(z, part, from, end, key, done, seed, group, out);
    if group != [] {
      var c := FoldCluster(group, key);
      out := out + [c];
    }
  }

  /** The sweep up to action `i`: the finished groups' clusters, and the members of the open group. */
  ghost predicate SweptTo(z: Zoom, part: seq<Action>, from: nat, end: nat, key: (bool, bool),
                          done: seq<(nat, nat)>, seed: nat, i: nat, group: seq<Action>, out: seq<Cluster>)
    requires from <= end <= |part|
  {
    && Sweeping(z, part, from, end, done, seed, i) && Drawn(part, done, key, out)
    && group == part[seed..i]
  }

  /** Once every action is taken, the open group is the last one, if there is any. */
  lemma SweepEnds(z: Zoom, part: seq<Action>, from: nat, end: nat, key: (bool, bool), done: seq<(nat, nat)>,
                  seed: nat, group: seq<Action>, out: seq<Cluster>)
    requires from <= end <= |part| && SweptTo(z, part, from, end, key, done, seed, end, group, out)
    ensures Ranges(Sweep(z, part, from, end), |part|)
    ensures ClustersOf(part, Sweep(z, part, from, end), key)
         == out + if group != [] then [Folded(group, key)] else []
  {
    SweepRanges(z, part, from, end);
    if seed < end {
      LastGroup(z, part, seed, end);
      assert Sweep(z, part, from, end) == Closed(done, seed, end);
    } else {
      assert Sweep(z, part, from, end) == done;
    }
  }

  /** The next action joins the open group, or closes it and seeds one of its own. */
  method TakeAction(z: Zoom, part: seq<Action>, ghost from: nat, ghost end: nat, key: (bool, bool),
                    group: seq<Action>, out: seq<Cluster>, i: nat, ghost done: seq<(nat, nat)>, ghost seed: nat)
    returns (next: seq<Action>, drawn: seq<Cluster>, ghost closed: seq<(nat, nat)>, ghost first: nat)
    requires from <= end <= |part| && i < end && SweptTo(z, part, from, end, key, done, seed, i, group, out)
    ensures SweptTo(z, part, from, end, key, closed, first, i + 1, next, drawn)
  {
    next, drawn, closed, first := group, out, done, seed;
    if group != [] && !Joins(z, group[0], part[i]) {
      CloseStep(z, part, from, end, done, seed, i, key, out);
      var c := FoldCluster(group, key);
      next, drawn, closed, first := [], out + [c], Closed(done, seed, i), i;
    }
    GrowStep(z, part, from, end, closed, first, i);
    next := next + [part[i]];
  }

  /** Finished groups plus one still open at `seed` account for the sweep so far. */
  ghost predicate Sweeping(z: Zoom, part: seq<Action>, from: nat, end: nat, done: seq<(nat, nat)>, seed: nat, i: nat)
    requires from <= end <= |part|
  {
    && seed <= i <= end
    && (seed == i ==> i == from)
    && Sweep(z, part, from, end) == done + Sweep(z, part, seed, end)
    && (forall j :: seed < j < i ==> Joins(z, part[seed], part[j]))
  }

  lemma GroupCloses(z: Zoom, part: seq<Action>, from: nat, end: nat, done: seq<(nat, nat)>, seed: nat, i: nat)
    requires from <= end <= |part| && Sweeping(z, part, from, end, done, seed, i) && seed < i < end
    requires !Joins(z, part[seed], part[i])
    ensures Sweep(z, part, from, end) == done + [(seed, i)] + Sweep(z, part, i, end)
  {
    assert GroupEnd(z, part, seed, seed + 1, end) == i;
  }

  lemma GrowStep(z: Zoom, part: seq<Action>, from: nat, end: nat, done: seq<(nat, nat)>, seed: nat, i: nat)
    requires from <= end <= |part| && seed <= i < end
    requires Sweep(z, part, from, end) == done + Sweep(z, part, seed, end)
    requires forall j :: seed < j < i ==> Joins(z, part[seed], part[j])
    requires seed < i ==> Joins(z, part[seed], part[i])
    ensures Sweeping(z, part, from, end, done, seed, i + 1)
  {
  }

  function Closed(done: seq<(nat, nat)>, seed: nat, i: nat): seq<(nat, nat)> { done + [(seed, i)] }

  /** The clusters emitted so far are those of the finished groups. */
  ghost predicate Drawn(part: seq<Action>, done: seq<(nat, nat)>, key: (bool, bool), out: seq<Cluster>) {
    Ranges(done, |part|) && out == ClustersOf(part, done, key)
  }

  lemma CloseStep(z: Zoom, part: seq<Action>, from: nat, end: nat, done: seq<(nat, nat)>, seed: nat, i: nat,
                  key: (bool, bool), out: seq<Cluster>)
    requires from <= end <= |part| && Sweeping(z, part, from, end, done, seed, i) && seed < i < end
    requires !Joins(z, part[seed], part[i]) && Drawn(part, done, key, out)
    ensures Sweep(z, part, from, end) == Closed(done, seed, i) + Sweep(z, part, i, end)
    ensures Drawn(part, Closed(done, seed, i), key, out + [Folded(part[seed..i], key)])
  {
    GroupCloses(z, part, from, end, done, seed, i);
  }

  lemma LastGroup(z: Zoom, part: seq<Action>, seed: nat, end: nat)
    requires seed < end <= |part| && forall j :: seed < j < end ==> Joins(z, part[seed], part[j])
    ensures Sweep(z, part, seed, end) == [(seed, end)]
  {
    assert GroupEnd(z, part, seed, seed + 1, end) == end;
  }

  // ---- the window ----

  /** Steps back to the nearest time gap wider than the reach, where any sweep starts afresh. */
  function BackUp(z: Zoom, part: seq<Action>, i: nat): (r: nat)
    requires z.Usable() && i <= |part|
    ensures r <= i
  {
    if 0 < i < |part| && !((part[i].t - part[i - 1].t) as real * z.ppm.v > z.Reach())
    then BackUp(z, part, i - 1) else i
  }

  /** The slice of a partition a sweep visits. */
  function Span(z: Zoom, part: seq<Action>, window: Option<(Float, Float)>): (r: (nat, nat))
    ensures r.0 <= r.1 <= |part|
  {
    if window.None? then (0, |part|)
    else
      var (lo, hi) := window.value;
      var first := PartitionPoint(part, (a: Action) => Lt(Fin(a.t as real), lo));
      var i0 := if z.Usable() then BackUp(z, part, first) else first;
      var limit := if z.Usable() then Add(hi, Fin(z.Reach() / z.ppm.v + 1.0)) else hi;
      var i1 := PartitionPoint(part, (a: Action) => Le(Fin(a.t as real), limit));
      (i0, if i1 >= i0 then i1 else i0)
  }

  method BackUpToGap(z: Zoom, part: seq<Action>, first: nat) returns (i0: nat)
    requires z.Usable() && first <= |part|
    ensures i0 == BackUp(z, part, first)
  {
    i0 := first;
    while 0 < i0 < |part| && !((part[i0].t - part[i0 - 1].t) as real * z.ppm.v > z.Reach())
      invariant i0 <= |part| && BackUp(z, part, i0) == BackUp(z, part, first)
      decreases i0
    {
      i0 := i0 - 1;
    }
  }

  method FindSpan(z: Zoom, part: seq<Action>, window: Option<(Float, Float)>) returns (i0: nat, i1: nat)
    ensures (i0, i1) == Span(z, part, window)
  {
    i0, i1 := 0, |part|;
    if window.Some? {
      var (lo, hi) := window.value;
      i0 := PartitionPoint(part, (a: Action) => Lt(Fin(a.t as real), lo));
      if z.Usable() {
        i0 := BackUpToGap(z, part, i0);
      }
      var limit := if z.Usable() then Add(hi, Fin(z.Reach() / z.ppm.v + 1.0)) else hi;
      i1 := PartitionPoint(part, (a: Action) => Le(Fin(a.t as real), limit));
      i1 := if i1 >= i0 then i1 else i0;
    }
  }

  ghost function PartClusters(z: Zoom, part: seq<Action>, window: Option<(Float, Float)>, key: (bool, bool))
    : seq<Cluster>
  {
    var (i0, i1) := Span(z, part, window);
    SweepRanges(z, part, i0, i1);
    ClustersOf(part, Sweep(z, part, i0, i1), key)
  }

  ghost function Clusters(z: Zoom, sorted: seq<seq<Action>>, window: Option<(Float, Float)>, keys: nat): seq<Cluster>
    requires keys <= |sorted| && keys <= 4
  {
    if keys == 0 then []
    else Clusters(z, sorted, window, keys - 1) + PartClusters(z, sorted[keys - 1], window, ACTION_KEYS[keys - 1])
  }

  /** Sweeps the four partitions in order, optionally only around a time window. */
  method ClusterSorted(z: Zoom, sorted: seq<seq<Action>>, window: Option<(Float, Float)>) returns (out: seq<Cluster>)
    requires |sorted| == 4
    ensures out == Clusters(z, sorted, window, 4)
  {
    out := [];
    var k := 0;
    while k < 4
      invariant 0 <= k <= 4
      invariant out == Clusters(z, sorted, window, k)
    {
      var part := sorted[k];
      var i0, i1 := FindSpan(z, part, window);
      var swept := SweepPart(z, part, i0, i1, ACTION_KEYS[k]);
      out := out + swept;
      k := k + 1;
    }
  }

  // ---- windowed equals full ----

  /** No member of a group can sit across a gap wider than the reach from its seed. */
  ghost predicate Gap(z: Zoom, part: seq<Action>, at: nat) {
    at == 0 || at >= |part| || !z.Usable() || (part[at].t - part[at - 1].t) as real * z.ppm.v > z.Reach()
  }

  lemma GapStopsGroup(z: Zoom, part: seq<Action>, seed: nat, at: nat)
    requires Chronological(part) && Gap(z, part, at) && seed < at < |part|
    ensures !Joins(z, part[seed], part[at])
  {
    if z.Usable() {
      var d, g := (part[at].t - part[seed].t) as real, (part[at].t - part[at - 1].t) as real;
      assert part[seed].t <= part[at - 1].t || seed == at - 1;
      assert d >= g;
      assert Abs(d * z.ppm.v) >= d * z.ppm.v;
    }
  }

  lemma {:induction false} GroupEndBeforeGap(z: Zoom, part: seq<Action>, seed: nat, i: nat, end: nat, at: nat)
    requires Chronological(part) && Gap(z, part, at) && seed < i <= at <= end <= |part|
    ensures GroupEnd(z, part, seed, i, end) <= at
  {
    if at < end && GroupEnd(z, part, seed, i, end) > at {
      GapStopsGroup(z, part, seed, at);
    }
  }

  /** At a gap the full sweep starts a new group too, so the sweep splits there. */
  lemma {:induction false} SweepSplitsAtGap(z: Zoom, part: seq<Action>, from: nat, at: nat, end: nat)
    requires Chronological(part) && Gap(z, part, at) && from <= at <= end <= |part|
    ensures Sweep(z, part, from, end) == Sweep(z, part, from, at) + Sweep(z, part, at, end)
    decreases at - from
  {
    if from < at {
      GroupEndBeforeGap(z, part, from, from + 1, end, at);
      var e := GroupEnd(z, part, from, from + 1, end);
      SweepSplitsAtGap(z, part, e, at, end);
      ConsConcat((from, e), Sweep(z, part, e, at), Sweep(z, part, at, end));
    }
  }

  lemma ConsConcat<T>(g: T, a: seq<T>, b: seq<T>)
    ensures [g] + (a + b) == ([g] + a) + b
  {
  }

  lemma {:induction false} BackUpFindsGap(z: Zoom, part: seq<Action>, i: nat)
    requires z.Usable() && i <= |part|
    ensures Gap(z, part, BackUp(z, part, i))
  {
    if 0 < i < |part| && !((part[i].t - part[i - 1].t) as real * z.ppm.v > z.Reach()) {
      BackUpFindsGap(z, part, i - 1);
    }
  }

  /** Everything seeded at or before the window's end finishes inside the swept span. */
  ghost predicate Finishes(z: Zoom, part: seq<Action>, hi: Float, end: nat) {
    end <= |part| && forall seed, j ::
      0 <= seed < j && end <= j < |part| && Le(Fin(part[seed].t as real), hi) ==> !Joins(z, part[seed], part[j])
  }

  /**
   `cut` is `full` cut short at index `short`: its first `n` groups are those of `full`, one more may
   be truncated if it was seeded after the window's end, and the rest of `full` starts past `short`.
   */
  ghost predicate Truncation(part: seq<Action>, cut: seq<(nat, nat)>, full: seq<(nat, nat)>,
                             n: nat, short: nat, hi: Float)
  {
    && n <= |cut| <= n + 1 && |cut| <= |full| && cut[..n] == full[..n]
    && (|cut| == n + 1 ==>
          && cut[n].0 == full[n].0 && cut[n].1 == short < full[n].1
          && full[n].0 < |part| && !Le(Fin(part[full[n].0].t as real), hi))
    && forall p :: |cut| <= p < |full| ==> full[p].0 >= short
  }

  /** A group both sweeps start with keeps one of them the truncation of the other. */
  lemma TruncationGrows(part: seq<Action>, g: (nat, nat), cut: seq<(nat, nat)>, full: seq<(nat, nat)>,
                        n: nat, short: nat, hi: Float)
    requires Truncation(part, cut, full, n, short, hi)
    ensures Truncation(part, [g] + cut, [g] + full, n + 1, short, hi)
  {
    assert ([g] + cut)[..n + 1] == [g] + cut[..n] && ([g] + full)[..n + 1] == [g] + full[..n];
  }

  lemma {:induction false} SweepTruncates(z: Zoom, part: seq<Action>, from: nat, short: nat, hi: Float)
    returns (n: nat)
    requires from <= short <= |part| && Finishes(z, part, hi, short)
    ensures Truncation(part, Sweep(z, part, from, short), Sweep(z, part, from, |part|), n, short, hi)
    decreases |part| - from
  {
    if from == short {
      n := 0;
      SweepRanges(z, part, from, |part|);
    } else {
      var e := GroupEnd(z, part, from, from + 1, |part|);
      if e <= short {
        var m := SweepTruncates(z, part, e, short, hi);
        n := m + 1;
        TruncationGrows(part, (from, e), Sweep(z, part, e, short), Sweep(z, part, e, |part|), m, short, hi);
      } else {
        n := 0;
        LastGroupTruncated(z, part, from, e, short, hi);
      }
    }
  }

  lemma LastGroupTruncated(z: Zoom, part: seq<Action>, from: nat, e: nat, short: nat, hi: Float)
    requires from < short < e <= |part| && Finishes(z, part, hi, short)
    requires e == GroupEnd(z, part, from, from + 1, |part|) && short == GroupEnd(z, part, from, from + 1, short)
    ensures Truncation(part, Sweep(z, part, from, short), Sweep(z, part, from, |part|), 0, short, hi)
  {
    assert Joins(z, part[from], part[short]);
    SweepRanges(z, part, e, |part|);
    assert Sweep(z, part, from, short) == [(from, short)];
  }

  /** The span starts at a gap, and no member at or after the window's start lies before it. */
  lemma SpanStart(z: Zoom, part: seq<Action>, lo: Float, hi: Float)
    requires Chronological(part)
    ensures Gap(z, part, Span(z, part, Some((lo, hi))).0)
    ensures forall k :: 0 <= k < Span(z, part, Some((lo, hi))).0 ==> Lt(Fin(part[k].t as real), lo)
  {
    var early := (a: Action) => Lt(Fin(a.t as real), lo);
    var first := PartitionPoint(part, early);
    if z.Usable() {
      BackUpFindsGap(z, part, first);
    }
    assert forall k :: 0 <= k < first ==> early(part[k]);
  }

  /** The span ends past everything a group seeded inside the window can reach. */
  lemma SpanEnd(z: Zoom, part: seq<Action>, lo: Float, hi: Float)
    requires Chronological(part)
    ensures Finishes(z, part, hi, Span(z, part, Some((lo, hi))).1)
    ensures forall k :: Span(z, part, Some((lo, hi))).1 <= k < |part| ==> !Le(Fin(part[k].t as real), hi)
  {
    var limit := if z.Usable() then Add(hi, Fin(z.Reach() / z.ppm.v + 1.0)) else hi;
    var inside := (a: Action) => Le(Fin(a.t as real), limit);
    var end := Span(z, part, Some((lo, hi))).1;
    forall k | end <= k < |part|
      ensures !Le(Fin(part[k].t as real), hi)
    {
      assert !inside(part[k]);
      if z.Usable() { LimitBeyond(z, hi); }
    }
    forall seed, j | 0 <= seed < j && end <= j < |part| && Le(Fin(part[seed].t as real), hi)
      ensures !Joins(z, part[seed], part[j])
    {
      assert !inside(part[j]);
      if z.Usable() { BeyondReach(z, hi, part[seed], part[j]); }
    }
  }

  lemma LimitBeyond(z: Zoom, hi: Float)
    requires z.Usable()
    ensures z.Reach() / z.ppm.v >= 0.0
    ensures hi.Fin? ==> Lt(hi, Add(hi, Fin(z.Reach() / z.ppm.v + 1.0)))
  {
  }

  lemma QuotientTimes(a: real, b: real)
    requires b > 0.0
    ensures a / b * b == a
  {
  }

  lemma BeyondReach(z: Zoom, hi: Float, seed: Action, a: Action)
    requires z.Usable() && Le(Fin(seed.t as real), hi)
    requires !Le(Fin(a.t as real), Add(hi, Fin(z.Reach() / z.ppm.v + 1.0)))
    ensures !Joins(z, seed, a)
  {
    var far := z.Reach() / z.ppm.v;
    var d := (a.t - seed.t) as real;
    assert d > far + 1.0;
    QuotientTimes(z.Reach(), z.ppm.v);
    assert (far + 1.0) * z.ppm.v == z.Reach() + z.ppm.v;
    assert Abs(d * z.ppm.v) >= d * z.ppm.v;
  }

  ghost predicate MemberInWindow(part: seq<Action>, g: (nat, nat), lo: Float, hi: Float) {
    exists k :: g.0 <= k < g.1 && k < |part| && InWindow(part[k], lo, hi)
  }

  predicate InWindow(a: Action, lo: Float, hi: Float) {
    Le(lo, Fin(a.t as real)) && Le(Fin(a.t as real), hi)
  }

  /** The windowed sweep is a cut of the full one from a group boundary on. */
  lemma WindowCuts(z: Zoom, part: seq<Action>, lo: Float, hi: Float) returns (n: nat)
    requires Chronological(part)
    ensures var (i0, i1) := Span(z, part, Some((lo, hi)));
            && Sweep(z, part, 0, |part|) == Sweep(z, part, 0, i0) + Sweep(z, part, i0, |part|)
            && Truncation(part, Sweep(z, part, i0, i1), Sweep(z, part, i0, |part|), n, i1, hi)
  {
    var (i0, i1) := Span(z, part, Some((lo, hi)));
    SpanStart(z, part, lo, hi);
    SpanEnd(z, part, lo, hi);
    SweepSplitsAtGap(z, part, 0, i0, |part|);
    n := SweepTruncates(z, part, i0, i1, hi);
  }

  /** A group of the full sweep with a member in the window. */
  ghost predicate SeenGroup(z: Zoom, part: seq<Action>, lo: Float, hi: Float, g: (nat, nat)) {
    g in Sweep(z, part, 0, |part|) && MemberInWindow(part, g, lo, hi)
  }

  /** Windowed equals full: a group of the full sweep with a member in the window is swept the same. */
  lemma WindowKeepsGroup(z: Zoom, part: seq<Action>, lo: Float, hi: Float, g: (nat, nat))
    requires Chronological(part) && SeenGroup(z, part, lo, hi, g)
    ensures var (i0, i1) := Span(z, part, Some((lo, hi))); g in Sweep(z, part, i0, i1)
  {
    var (i0, i1) := Span(z, part, Some((lo, hi)));
    var before: seq<(nat, nat)> := Sweep(z, part, 0, i0);
    var rest: seq<(nat, nat)> := Sweep(z, part, i0, |part|);
    var n := WindowCuts(z, part, lo, hi);
    SpanStart(z, part, lo, hi);
    SpanEnd(z, part, lo, hi);
    SweepRanges(z, part, 0, |part|);
    SweepRanges(z, part, 0, i0);
    var k :| g.0 <= k < g.1 && k < |part| && InWindow(part[k], lo, hi);
    GroupInWindow(part, lo, hi, i0, i1, before, rest, Sweep(z, part, i0, i1), n, g, k);
  }

  /** And adds nothing but, in last place, a group cut short that was seeded after the window's end. */
  lemma WindowAddsNothing(z: Zoom, part: seq<Action>, lo: Float, hi: Float, g: (nat, nat))
    requires Chronological(part)
    requires var (i0, i1) := Span(z, part, Some((lo, hi))); g in Sweep(z, part, i0, i1)
    ensures var (i0, i1) := Span(z, part, Some((lo, hi)));
            var cut := Sweep(z, part, i0, i1);
            g in Sweep(z, part, 0, |part|) || (g.0 < |part| && g == cut[|cut| - 1] && !Le(Fin(part[g.0].t as real), hi))
  {
    var (i0, i1) := Span(z, part, Some((lo, hi)));
    var n := WindowCuts(z, part, lo, hi);
    CutGroups(part, Sweep(z, part, 0, i0), Sweep(z, part, i0, i1), Sweep(z, part, i0, |part|), n, i1, hi, g);
  }

  lemma CutGroups(part: seq<Action>, before: seq<(nat, nat)>, cut: seq<(nat, nat)>, rest: seq<(nat, nat)>,
                  n: nat, short: nat, hi: Float, g: (nat, nat))
    requires Truncation(part, cut, rest, n, short, hi) && g in cut
    ensures g in before + rest || (g.0 < |part| && g == cut[|cut| - 1] && !Le(Fin(part[g.0].t as real), hi))
  {
    var p: nat :| p < |cut| && cut[p] == g;
    var same: seq<(nat, nat)> := cut[..n];
    assert p < n ==> same[p] == rest[p];
  }

  lemma GroupInWindow(part: seq<Action>, lo: Float, hi: Float, i0: nat, i1: nat, before: seq<(nat, nat)>,
                      rest: seq<(nat, nat)>, cut: seq<(nat, nat)>, n: nat, g: (nat, nat), k: nat)
    requires Chronological(part) && g.0 <= k < g.1 <= |part| && InWindow(part[k], lo, hi) && g in before + rest
    requires forall b :: b in before ==> b.1 <= i0
    requires i0 <= |part| && forall j :: 0 <= j < i0 ==> Lt(Fin(part[j].t as real), lo)
    requires i1 <= |part| && forall j :: i1 <= j < |part| ==> !Le(Fin(part[j].t as real), hi)
    requires Truncation(part, cut, rest, n, i1, hi)
    ensures g in cut
  {
    assert part[g.0].t <= part[k].t;
    assert g !in before;
    var p: nat :| p < |rest| && rest[p] == g;
    assert p < |cut|;
    assert p < n;
    var same: seq<(nat, nat)> := cut[..n];
    assert same[p] == rest[p];
  }

  lemma GroupIsCluster(z: Zoom, part: seq<Action>, window: Option<(Float, Float)>, key: (bool, bool), g: (nat, nat))
    requires var (i0, i1) := Span(z, part, window); g in Sweep(z, part, i0, i1)
    ensures g.0 < g.1 <= |part| && Folded(part[g.0..g.1], key) in PartClusters(z, part, window, key)
  {
    var (i0, i1) := Span(z, part, window);
    var groups: seq<(nat, nat)> := Sweep(z, part, i0, i1);
    SweepRanges(z, part, i0, i1);
    var i: nat :| i < |groups| && groups[i] == g;
    assert PartClusters(z, part, window, key)[i] == Folded(part[g.0..g.1], key);
  }

  lemma {:induction false} ClustersHold(z: Zoom, sorted: seq<seq<Action>>, window: Option<(Float, Float)>,
                                        keys: nat, k: nat, c: Cluster)
    requires k < keys <= 4 && keys <= |sorted| && c in PartClusters(z, sorted[k], window, ACTION_KEYS[k])
    ensures c in Clusters(z, sorted, window, keys)
  {
    if k < keys - 1 { ClustersHold(z, sorted, window, keys - 1, k, c); }
  }

  /**
   The same at the level of drawn markers: every marker with a member in the window that the full
   sweep draws, the windowed sweep draws too, equal in time, price and members.
   */
  lemma WindowedClustersExact(z: Zoom, actions: seq<Action>, k: nat, lo: Float, hi: Float, g: (nat, nat))
    requires k < 4 && SeenGroup(z, SortActions(actions)[k], lo, hi, g)
    ensures var part := SortActions(actions)[k];
            && g.0 < g.1 <= |part|
            && Folded(part[g.0..g.1], ACTION_KEYS[k]) in Clusters(z, SortActions(actions), None, 4)
            && Folded(part[g.0..g.1], ACTION_KEYS[k]) in Clusters(z, SortActions(actions), Some((lo, hi)), 4)
  {
    var sorted, key := SortActions(actions), ACTION_KEYS[k];
    PartSorted(actions, key);
    WindowKeepsGroup(z, sorted[k], lo, hi, g);
    GroupIsCluster(z, sorted[k], None, key, g);
    GroupIsCluster(z, sorted[k], Some((lo, hi)), key, g);
    var c := Folded(sorted[k][g.0..g.1], key);
    ClustersHold(z, sorted, None, 4, k, c);
    ClustersHold(z, sorted, Some((lo, hi)), 4, k, c);
  }

  // ---- what a sweep's groups are ----

  ghost function Joined(part: seq<Action>, groups: seq<(nat, nat)>): seq<Action>
    requires Ranges(groups, |part|)
  {
    if groups == [] then []
    else part[groups[0].0..groups[0].1] + Joined(part, groups[1..])
  }

  /** The groups lie end to end: every swept action is in exactly one of them. */
  lemma {:induction false} SweepTiles(z: Zoom, part: seq<Action>, from: nat, end: nat)
    requires from <= end <= |part|
    ensures Ranges(Sweep(z, part, from, end), |part|)
    ensures Joined(part, Sweep(z, part, from, end)) == part[from..end]
    decreases end - from
  {
    SweepRanges(z, part, from, end);
    if from < end {
      var e := GroupEnd(z, part, from, from + 1, end);
      SweepTiles(z, part, e, end);
      assert Sweep(z, part, from, end)[1..] == Sweep(z, part, e, end);
      assert part[from..e] + part[e..end] == part[from..end];
    }
  }

  /** Every member of a group is its seed or within reach of it, and the next action is not. */
  lemma {:induction false} GroupsAnchored(z: Zoom, part: seq<Action>, from: nat, end: nat, g: (nat, nat), k: nat)
    requires from <= end <= |part| && g in Sweep(z, part, from, end)
    ensures g.0 < g.1 <= end
    ensures g.0 < k < g.1 ==> Joins(z, part[g.0], part[k])
    ensures g.1 < end ==> !Joins(z, part[g.0], part[g.1])
    decreases end - from
  {
    var e := GroupEnd(z, part, from, from + 1, end);
    if g != (from, e) {
      GroupsAnchored(z, part, e, end, g, k);
    }
  }

  /** Two actions are no further apart than `px` pixels on either axis. */
  predicate WithinPx(z: Zoom, a: Action, b: Action, px: real)
    requires z.ppm.Fin? && z.ppp.Fin?
  {
    Px((b.t - a.t) as real, z.ppm.v) <= px && Px(b.price - a.price, z.ppp.v) <= px
  }

  /** The length of a stretch of time or price on screen. */
  function Px(d: real, scale: real): real { Abs(d * scale) }

  /**
   In pixels: at a usable scale the members of a group are within eight device pixels of its seed in time
   and in price, any two of them within sixteen, and the action after the group is further than eight
   from the seed on one axis at least. Without a usable scale every action is alone.
   */
  lemma GroupsInPixels(z: Zoom, part: seq<Action>, from: nat, end: nat, g: (nat, nat), j: nat, k: nat)
    requires from <= end <= |part| && g in Sweep(z, part, from, end) && g.0 <= j < g.1 && g.0 <= k < g.1
    ensures g.1 <= |part|
    ensures z.ppm.Fin? && z.ppp.Fin? && z.ppm.v > 0.0 && z.ppp.v > 0.0 ==>
              && WithinPx(z, part[g.0], part[k], 8.0 * Max(z.scale, 0.1))
              && WithinPx(z, part[j], part[k], 16.0 * Max(z.scale, 0.1))
              && (g.1 < end ==> !WithinPx(z, part[g.0], part[g.1], 8.0 * Max(z.scale, 0.1)))
    ensures !(z.ppm.Fin? && z.ppp.Fin? && z.ppm.v > 0.0 && z.ppp.v > 0.0) ==> g.1 == g.0 + 1
  {
    GroupsAnchored(z, part, from, end, g, j);
    GroupsAnchored(z, part, from, end, g, k);
    if z.Usable() {
      SelfWithin(z, part[g.0], 8.0 * Max(z.scale, 0.1));
      JoinsIsWithin(z, part[g.0], part[j]);
      JoinsIsWithin(z, part[g.0], part[k]);
      PairWithin(z, part[g.0], part[j], part[k], 8.0 * Max(z.scale, 0.1), 16.0 * Max(z.scale, 0.1));
      if g.1 < end { JoinsIsWithin(z, part[g.0], part[g.1]); }
    } else {
      GroupsAnchored(z, part, from, end, g, g.0 + 1);
    }
  }

  lemma JoinsIsWithin(z: Zoom, seed: Action, a: Action)
    requires z.Usable()
    ensures Joins(z, seed, a) <==> WithinPx(z, seed, a, 8.0 * Max(z.scale, 0.1))
  {
    var dx, dy := (a.t - seed.t) as real, a.price - seed.price;
    assert z.Reach() == 8.0 * Max(z.scale, 0.1);
    assert Joins(z, seed, a) <==> Px(dx, z.ppm.v) <= z.Reach() && Px(dy, z.ppp.v) <= z.Reach();
  }

  lemma SelfWithin(z: Zoom, a: Action, reach: real)
    requires z.Usable() && reach >= 0.0
    ensures WithinPx(z, a, a, reach)
  {
    assert Px(0.0, z.ppm.v) == 0.0 && Px(0.0, z.ppp.v) == 0.0;
  }

  lemma PairWithin(z: Zoom, seed: Action, a: Action, b: Action, reach: real, twice: real)
    requires z.ppm.Fin? && z.ppp.Fin? && WithinPx(z, seed, a, reach) && WithinPx(z, seed, b, reach)
    requires twice == 2.0 * reach
    ensures WithinPx(z, a, b, twice)
  {
    Spread((a.t - seed.t) as real, (b.t - seed.t) as real, (b.t - a.t) as real, z.ppm.v, reach);
    Spread(a.price - seed.price, b.price - seed.price, b.price - a.price, z.ppp.v, reach);
  }

  /** Two offsets within reach of one point are within twice the reach of each other. */
  lemma Spread(a: real, b: real, d: real, scale: real, reach: real)
    requires Px(a, scale) <= reach && Px(b, scale) <= reach && d == b - a
    ensures Px(d, scale) <= 2.0 * reach
  {
    assert d * scale == b * scale - a * scale;
  }

  // ---- where a marker sits ----

  lemma {:induction false} WeightedSumBounds(group: seq<Action>, f: Action -> real, w: Action -> real,
                                             lo: real, hi: real)
    requires forall i :: 0 <= i < |group| ==> lo <= f(group[i]) <= hi && w(group[i]) >= 0.0
    ensures lo * SumOf(group, w) <= WeightedSum(group, f, w) <= hi * SumOf(group, w)
  {
    if group != [] {
      var init, last := group[..|group| - 1], group[|group| - 1];
      WeightedSumBounds(init, f, w, lo, hi);
      GrowBounds(lo, hi, SumOf(init, w), WeightedSum(init, f, w), f(last), w(last));
    }
  }

  lemma GrowBounds(lo: real, hi: real, weights: real, sum: real, x: real, w: real)
    requires lo * weights <= sum <= hi * weights && lo <= x <= hi && w >= 0.0
    ensures lo * (weights + w) <= sum + x * w <= hi * (weights + w)
  {
    assert lo * (weights + w) == lo * weights + lo * w;
    assert hi * (weights + w) == hi * weights + hi * w;
  }

  ghost function SumOf(group: seq<Action>, w: Action -> real): real {
    if group == [] then 0.0 else SumOf(group[..|group| - 1], w) + w(group[|group| - 1])
  }

  lemma {:induction false} TotalIsSum(group: seq<Action>)
    ensures TotalWeight(group) == SumOf(group, WeightOf())
    ensures SumOf(group, Unit()) == |group| as real
  {
    if group != [] { TotalIsSum(group[..|group| - 1]); }
  }

  lemma QuotientBounds(lo: real, x: real, hi: real, w: real)
    requires w > 0.0 && lo * w <= x <= hi * w
    ensures lo <= x / w <= hi
  {
    var q := x / w;
    QuotientTimes(x, w);
    assert (q - lo) * w == x - lo * w && (hi - q) * w == hi * w - x;
  }

  /** The aggregate never leaves the hull of its own members, whatever their quantities. */
  lemma CentreInHull(group: seq<Action>, f: Action -> real, lo: real, hi: real)
    requires group != [] && forall i :: 0 <= i < |group| ==> lo <= f(group[i]) <= hi
    ensures lo <= Centre(group, f) <= hi
  {
    TotalIsSum(group);
    if TotalWeight(group) > 0.0 {
      WeightedSumBounds(group, f, WeightOf(), lo, hi);
      QuotientBounds(lo, WeightedSum(group, f, WeightOf()), hi, TotalWeight(group));
    } else {
      WeightedSumBounds(group, f, Unit(), lo, hi);
      QuotientBounds(lo, WeightedSum(group, f, Unit()), hi, |group| as real);
    }
  }
}

/**
 Reducing overlapping translucent volume bars to those that can still be seen
 (crates/moon-chart/src/tick_volume.rs, `reduce_volume`).
 */
module LodVolume {
  import opened Floats
  import opened Seqs
  import opened Sorting
  import opened CountingSort
  import opened LodRows

  const LOD_BAR_MAX_PX: nat := 72

  // ---- which bars stay ----

  /** Drawn rows with their heights: everything the cull decision reads. */
  datatype Bars = Bars(rows: seq<LodRow>, px: seq<nat>) {
    ghost predicate Ok() {
      && |px| == |rows|
      && forall k :: 0 <= k < |rows| ==> px[k] <= LOD_BAR_MAX_PX && rows[k].side < 2
    }
  }

  /** The latest drawn among the tallest bars of `k`'s own column and side. */
  ghost predicate Tallest(b: Bars, k: nat)
    requires b.Ok()
  {
    && k < |b.rows|
    && forall j :: 0 <= j < |b.rows| && b.rows[j].col == b.rows[k].col && b.rows[j].side == b.rows[k].side ==>
      b.px[j] < b.px[k] || (b.px[j] == b.px[k] && j <= k)
  }

  /** Bars of `from..` in `kept` that share `k`'s column and are at least as tall. */
  ghost function Covering(b: Bars, kept: set<nat>, k: nat): set<nat>
    requires b.Ok() && k < |b.rows|
  {
    set j | j in kept && k < j < |b.rows| && b.rows[j].col == b.rows[k].col && b.px[j] >= b.px[k]
  }

  /** The bars kept among `k..`, decided from the last drawn backwards. */
  ghost function KeptFrom(b: Bars, v: nat, k: nat): (r: set<nat>)
    requires b.Ok() && k <= |b.rows|
    ensures forall j :: j in r ==> k <= j < |b.rows|
    decreases |b.rows| - k
  {
    if k == |b.rows| then {}
    else
      var later := KeptFrom(b, v, k + 1);
      if Tallest(b, k) || |Covering(b, later, k)| < v then later + {k} else later
  }

  ghost function Kept(b: Bars, v: nat): set<nat>
    requires b.Ok()
  {
    KeptFrom(b, v, 0)
  }

  ghost function VolumePicks(b: Bars, v: nat): seq<nat>
    requires b.Ok()
  {
    Filter(Indices(|b.rows|), (k: nat) => k in Kept(b, v))
  }

  lemma {:induction false} KeptFromSuffix(b: Bars, v: nat, k: nat, i: nat)
    requires b.Ok() && k <= i <= |b.rows|
    ensures forall j :: i <= j ==> (j in KeptFrom(b, v, k) <==> j in KeptFrom(b, v, i))
    decreases i - k
  {
    if k < i { KeptFromSuffix(b, v, k + 1, i); }
  }

  /** The final decision about a bar reads only the bars kept after it. */
  lemma KeptIff(b: Bars, v: nat, k: nat)
    requires b.Ok() && k < |b.rows|
    ensures k in Kept(b, v) <==> Tallest(b, k) || |Covering(b, Kept(b, v), k)| < v
  {
    KeptFromSuffix(b, v, 0, k);
    KeptFromSuffix(b, v, 0, k + 1);
    assert Covering(b, Kept(b, v), k) == Covering(b, KeptFrom(b, v, k + 1), k);
  }

  /** Every bar is kept exactly when it is a tallest one or too few later kept bars cover it. */
  ghost predicate Greedy(b: Bars, v: nat, kept: set<nat>)
    requires b.Ok()
  {
    forall k :: 0 <= k < |b.rows| ==> (k in kept <==> Tallest(b, k) || |Covering(b, kept, k)| < v)
  }

  lemma KeptIsGreedy(b: Bars, v: nat)
    requires b.Ok()
    ensures Greedy(b, v, Kept(b, v))
  {
    forall k | 0 <= k < |b.rows|
      ensures k in Kept(b, v) <==> Tallest(b, k) || |Covering(b, Kept(b, v), k)| < v
    {
      KeptIff(b, v, k);
    }
  }

  /** A dropped bar is invisible: at least `v` later kept bars of its column are no shorter. */
  lemma DroppedIsCovered(b: Bars, v: nat, k: nat)
    requires b.Ok() && k < |b.rows| && k !in Kept(b, v)
    ensures |Covering(b, Kept(b, v), k)| >= v
  {
    KeptIff(b, v, k);
  }

  lemma TallestSurvives(b: Bars, v: nat, k: nat)
    requires b.Ok() && Tallest(b, k)
    ensures k in Kept(b, v)
  {
    KeptIff(b, v, k);
  }

  // ---- the per-column budget ----

  ghost function KeptAtHeight(b: Bars, v: nat, col: int, h: nat, k: nat): set<nat>
    requires b.Ok() && k <= |b.rows|
  {
    set j | j in Kept(b, v) && k <= j < |b.rows| && b.rows[j].col == col && b.px[j] == h && !Tallest(b, j)
  }

  lemma KeptAtHeightStep(b: Bars, v: nat, col: int, h: nat, k: nat)
    requires b.Ok() && k < |b.rows|
    ensures var later := KeptAtHeight(b, v, col, h, k + 1);
            KeptAtHeight(b, v, col, h, k) == if k in KeptAtHeight(b, v, col, h, k) then later + {k} else later
  {
  }

  lemma CoveredByOwnHeight(b: Bars, v: nat, col: int, h: nat, k: nat)
    requires b.Ok() && k < |b.rows| && k in KeptAtHeight(b, v, col, h, k)
    ensures |KeptAtHeight(b, v, col, h, k + 1)| < v
  {
    KeptIff(b, v, k);
    SubsetSize(KeptAtHeight(b, v, col, h, k + 1), Covering(b, Kept(b, v), k));
  }

  /** A height keeps at most `v` bars beyond the tallest ones: each had fewer than `v` over it. */
  lemma {:induction false} HeightBudget(b: Bars, v: nat, col: int, h: nat, k: nat)
    requires b.Ok() && k <= |b.rows|
    ensures |KeptAtHeight(b, v, col, h, k)| <= v
    decreases |b.rows| - k
  {
    if k < |b.rows| {
      HeightBudget(b, v, col, h, k + 1);
      KeptAtHeightStep(b, v, col, h, k);
      if k in KeptAtHeight(b, v, col, h, k) {
        CoveredByOwnHeight(b, v, col, h, k);
      }
    } else {
      assert KeptAtHeight(b, v, col, h, k) == {};
    }
  }

  ghost function ColumnKept(b: Bars, v: nat, col: int): set<nat>
    requires b.Ok()
  {
    set j | j in Kept(b, v) && b.rows[j].col == col
  }

  ghost function TallestOf(b: Bars, col: int): set<nat>
    requires b.Ok()
  {
    set j: nat | j < |b.rows| && b.rows[j].col == col && Tallest(b, j)
  }

  ghost function KeptBelowHeight(b: Bars, v: nat, col: int, h: nat): set<nat>
    requires b.Ok()
  {
    set j | j in Kept(b, v) && b.rows[j].col == col && b.px[j] < h && !Tallest(b, j)
  }

  lemma {:induction false} BelowHeightBudget(b: Bars, v: nat, col: int, h: nat)
    requires b.Ok()
    ensures |KeptBelowHeight(b, v, col, h)| <= v * h
  {
    if h == 0 {
      assert KeptBelowHeight(b, v, col, h) == {};
    } else {
      BelowHeightBudget(b, v, col, h - 1);
      HeightBudget(b, v, col, h - 1, 0);
      assert KeptBelowHeight(b, v, col, h) == KeptBelowHeight(b, v, col, h - 1) + KeptAtHeight(b, v, col, h - 1, 0);
      NextMultiple(v, h);
    }
  }

  lemma NextMultiple(v: nat, h: nat)
    requires h > 0
    ensures v * h == v * (h - 1) + v
  {
  }

  /** A column keeps at most `v` bars per height plus the tallest of its two sides. */
  lemma ColumnBudget(b: Bars, v: nat, col: int)
    requires b.Ok()
    ensures |ColumnKept(b, v, col)| <= v * (LOD_BAR_MAX_PX + 1) + 2
  {
    BelowHeightBudget(b, v, col, LOD_BAR_MAX_PX + 1);
    Pigeonhole(TallestOf(b, col), (k: nat) => if k < |b.rows| then b.rows[k].side else 0, 2);
    assert ColumnKept(b, v, col) <= KeptBelowHeight(b, v, col, LOD_BAR_MAX_PX + 1) + TallestOf(b, col);
    SubsetSize(ColumnKept(b, v, col), KeptBelowHeight(b, v, col, LOD_BAR_MAX_PX + 1) + TallestOf(b, col));
  }

  // ---- the greedy pass ----

  predicate LessByColumn(rows: seq<LodRow>, a: nat, b: nat) {
    At(rows, a).col < At(rows, b).col || (At(rows, a).col == At(rows, b).col && a < b)
  }

  function ByColumn(rows: seq<LodRow>): (nat, nat) -> bool {
    (a: nat, b: nat) => LessByColumn(rows, a, b)
  }

  /** Bars by column, in draw order within each, by whichever sort the key span admits. */
  method VolumeOrder(rows: seq<LodRow>, span: KeySpan) returns (order: seq<nat>)
    requires SpanCovers(rows, span)
    ensures Enumerates(order, |rows|, ByColumn(rows))
  {
    order := Indices(|rows|);
    IndicesEnumerate(|rows|);
    var buckets := ColBuckets(span, |rows|);
    if buckets.Some? {
      ColumnPass(rows, span, buckets.value);
      order := CountingSortBy(order, buckets.value, ColKey(rows, span.colMin));
    } else {
      SortEnumerates(order, ByColumn(rows), (a: nat, b: nat) => LessByColumn(rows, a, b) || a == b);
      order := Sort(order, (a: nat, b: nat) => LessByColumn(rows, a, b) || a == b);
    }
  }

  lemma ColumnPass(rows: seq<LodRow>, span: KeySpan, buckets: nat)
    requires SpanCovers(rows, span) && ColBuckets(span, |rows|) == Some(buckets)
    ensures KeysBelow(Indices(|rows|), ColKey(rows, span.colMin), buckets)
    ensures Enumerates(Concat(Indices(|rows|), ColKey(rows, span.colMin), buckets), |rows|, ByColumn(rows))
  {
    var start, c := Indices(|rows|), ColKey(rows, span.colMin);
    IndicesEnumerate(|rows|);
    StableSortRefines(start, c, buckets, (a: nat, b: nat) => a < b);
    ConcatMembers(start, c, buckets);
    assert forall k: nat :: k < |rows| ==> start[k] == k && c(start[k]) < buckets;
    var r := Concat(start, c, buckets);
    forall i, j | 0 <= i < j < |r|
      ensures LessByColumn(rows, r[i], r[j])
    {
      assert r[i] in r && r[j] in r;
    }
  }

  /** One column's bars in draw order. */
  ghost predicate IsColumn(b: Bars, group: seq<nat>, col: int)
    requires b.Ok()
  {
    && Pairwise(group, (p: nat, q: nat) => p < q)
    && (forall i :: 0 <= i < |group| ==> group[i] < |b.rows| && b.rows[group[i]].col == col)
    && (forall k :: 0 <= k < |b.rows| && b.rows[k].col == col ==> k in group)
  }

  /** The latest tallest bar of each side among the first `i` of a column. */
  ghost predicate TallestSoFar(b: Bars, group: seq<nat>, i: nat, side: nat, best: Option<nat>)
    requires b.Ok() && i <= |group| && forall j :: 0 <= j < |group| ==> group[j] < |b.rows|
  {
    && (best.Some? ==> best.value in group[..i] && b.rows[best.value].side == side)
    && forall j :: 0 <= j < i && b.rows[group[j]].side == side ==>
         && best.Some?
         && (b.px[group[j]] < b.px[best.value] || (b.px[group[j]] == b.px[best.value] && group[j] <= best.value))
  }

  predicate Taller(b: Bars, k: nat, best: Option<nat>)
    requires b.Ok() && k < |b.rows| && (best.Some? ==> best.value < |b.rows|)
  {
    best.None? || b.px[k] >= b.px[best.value]
  }

  lemma TallestStep(b: Bars, group: seq<nat>, col: int, i: nat, side: nat, best: Option<nat>)
    requires b.Ok() && IsColumn(b, group, col) && i < |group| && TallestSoFar(b, group, i, side, best)
    ensures best.Some? ==> best.value < |b.rows|
    ensures TallestSoFar(b, group, i + 1, side,
                         if b.rows[group[i]].side == side && Taller(b, group[i], best) then Some(group[i]) else best)
  {
    assert group[..i + 1] == group[..i] + [group[i]];
  }

  lemma TallestFound(b: Bars, group: seq<nat>, col: int, side: nat, best: Option<nat>)
    requires b.Ok() && IsColumn(b, group, col) && TallestSoFar(b, group, |group|, side, best)
    ensures forall k :: k in group && b.rows[k].side == side ==> (Tallest(b, k) <==> best == Some(k))
    ensures best.Some? ==> best.value < |b.rows| && b.rows[best.value].side == side
  {
    assert group[..|group|] == group;
  }

  method TallestPerSide(b: Bars, group: seq<nat>, col: int) returns (buy: Option<nat>, sell: Option<nat>)
    requires b.Ok() && IsColumn(b, group, col)
    ensures forall k :: k in group ==> (Tallest(b, k) <==> buy == Some(k) || sell == Some(k))
  {
    buy, sell := None, None;
    var i := 0;
    while i < |group|
      invariant 0 <= i <= |group|
      invariant TallestSoFar(b, group, i, 0, buy) && TallestSoFar(b, group, i, 1, sell)
    {
      var k := group[i];
      TallestStep(b, group, col, i, 0, buy);
      TallestStep(b, group, col, i, 1, sell);
      if b.rows[k].side == 0 {
        if Taller(b, k, buy) {
          buy := Some(k);
        }
      } else if Taller(b, k, sell) {
        sell := Some(k);
      }
      i := i + 1;
    }
    TallestFound(b, group, col, 0, buy);
    TallestFound(b, group, col, 1, sell);
  }

  /** Total of a histogram tail. */
  ghost function SumFrom(counts: seq<nat>, h: nat): nat
    requires h <= |counts|
    decreases |counts| - h
  {
    if h == |counts| then 0 else counts[h] + SumFrom(counts, h + 1)
  }

  /** Whether `covering[hp..]` sums to at least `keep`, stopping as soon as it does. */
  method CoverReached(covering: array<nat>, hp: nat, keep: nat) returns (reached: bool)
    requires hp < covering.Length
    ensures reached <==> SumFrom(covering[..], hp) >= keep
  {
    var covered, h := 0, hp;
    while h < covering.Length
      invariant hp <= h <= covering.Length
      invariant covered + SumFrom(covering[..], h) == SumFrom(covering[..], hp)
      invariant h == hp || covered < keep
    {
      covered := covered + covering[h];
      if covered >= keep {
        return true;
      }
      h := h + 1;
    }
    return false;
  }

  ghost function AtLeast(b: Bars, s: set<nat>, h: nat): set<nat>
    requires b.Ok()
  {
    set j | j in s && j < |b.rows| && b.px[j] >= h
  }

  ghost function Exactly(b: Bars, s: set<nat>, h: nat): set<nat>
    requires b.Ok()
  {
    set j | j in s && j < |b.rows| && b.px[j] == h
  }

  /** `counts` is the height histogram of `s`. */
  ghost predicate Histogrammed(b: Bars, s: set<nat>, counts: seq<nat>)
    requires b.Ok()
  {
    |counts| == LOD_BAR_MAX_PX + 1 && forall h :: 0 <= h < |counts| ==> counts[h] == |Exactly(b, s, h)|
  }

  lemma {:induction false} TailCountsTaller(b: Bars, s: set<nat>, counts: seq<nat>, h: nat)
    requires b.Ok() && Histogrammed(b, s, counts) && h <= |counts|
    ensures SumFrom(counts, h) == |AtLeast(b, s, h)|
    decreases |counts| - h
  {
    if h == |counts| {
      assert AtLeast(b, s, h) == {};
    } else {
      TailCountsTaller(b, s, counts, h + 1);
      assert AtLeast(b, s, h) == Exactly(b, s, h) + AtLeast(b, s, h + 1);
    }
  }

  lemma HistogramAdds(b: Bars, s: set<nat>, counts: seq<nat>, k: nat, next: seq<nat>)
    requires b.Ok() && Histogrammed(b, s, counts) && k < |b.rows| && k !in s
    requires next == counts[b.px[k] := counts[b.px[k]] + 1]
    ensures Histogrammed(b, s + {k}, next)
  {
    forall h | 0 <= h < |next|
      ensures next[h] == |Exactly(b, s + {k}, h)|
    {
      if h == b.px[k] {
        assert Exactly(b, s + {k}, h) == Exactly(b, s, h) + {k};
      } else {
        assert Exactly(b, s + {k}, h) == Exactly(b, s, h);
      }
    }
  }

  /** The bars of a column kept at positions `i..`. */
  ghost function KeptAfter(kept: set<nat>, group: seq<nat>, i: nat): set<nat>
    requires i <= |group|
  {
    set k | k in group[i..] && k in kept
  }

  lemma CoveringIsTaller(b: Bars, kept: set<nat>, group: seq<nat>, col: int, i: nat)
    requires b.Ok() && IsColumn(b, group, col) && i < |group|
    ensures Covering(b, kept, group[i]) == AtLeast(b, KeptAfter(kept, group, i + 1), b.px[group[i]])
  {
    var k, rest := group[i], group[i + 1..];
    forall j | 0 <= j < |b.rows| && b.rows[j].col == col
      ensures j in rest <==> k < j
    {
      var m :| 0 <= m < |group| && group[m] == j;
      if i < m { assert rest[m - i - 1] == j; }
      if j in rest {
        var n :| 0 <= n < |rest| && rest[n] == j;
        assert group[i + 1 + n] == j;
      }
    }
    assert forall n :: 0 <= n < |rest| ==> rest[n] == group[i + 1 + n];
  }

  /** The test the pass makes at a bar is the greedy rule. */
  lemma DecideBar(b: Bars, v: nat, kept: set<nat>, group: seq<nat>, col: int, i: nat, counts: seq<nat>, reached: bool)
    requires b.Ok() && Greedy(b, v, kept) && IsColumn(b, group, col) && i < |group|
    requires Histogrammed(b, KeptAfter(kept, group, i + 1), counts)
    requires reached <==> SumFrom(counts, b.px[group[i]]) >= v
    ensures group[i] in kept <==> Tallest(b, group[i]) || !reached
  {
    CoveringIsTaller(b, kept, group, col, i);
    TailCountsTaller(b, KeptAfter(kept, group, i + 1), counts, b.px[group[i]]);
  }

  lemma KeptAfterStep(b: Bars, kept: set<nat>, group: seq<nat>, col: int, i: nat)
    requires b.Ok() && IsColumn(b, group, col) && i < |group|
    ensures var after := KeptAfter(kept, group, i + 1);
            KeptAfter(kept, group, i) == if group[i] in kept then after + {group[i]} else after
    ensures group[i] !in KeptAfter(kept, group, i + 1)
  {
    var rest := group[i + 1..];
    assert group[i..] == [group[i]] + rest;
    assert forall n :: 0 <= n < |rest| ==> rest[n] == group[i + 1 + n];
  }

  lemma CullStep(b: Bars, kept: set<nat>, group: seq<nat>, col: int, i: nat, counts: seq<nat>, next: seq<nat>)
    requires b.Ok() && IsColumn(b, group, col) && i < |group|
    requires Histogrammed(b, KeptAfter(kept, group, i + 1), counts)
    requires next == if group[i] in kept then counts[b.px[group[i]] := counts[b.px[group[i]]] + 1] else counts
    ensures Histogrammed(b, KeptAfter(kept, group, i), next)
  {
    KeptAfterStep(b, kept, group, col, i);
    if group[i] in kept {
      HistogramAdds(b, KeptAfter(kept, group, i + 1), counts, group[i], next);
    }
  }

  /** The flags once the bars of a column from position `i` on are decided. */
  ghost predicate Flagged(b: Bars, kept: set<nat>, group: seq<nat>, col: int, i: nat, was: seq<bool>, now: seq<bool>)
    requires b.Ok() && forall j :: 0 <= j < |group| ==> group[j] < |b.rows|
  {
    && |was| == |now| == |b.rows|
    && (forall j :: 0 <= j < |group| ==> (now[group[j]] <==> i <= j && group[j] in kept))
    && (forall k :: 0 <= k < |now| && b.rows[k].col != col ==> now[k] == was[k])
  }

  /** Decides one bar against the bars kept after it. */
  method BarVisible(b: Bars, v: nat, ghost kept: set<nat>, group: seq<nat>, ghost col: int, i: nat,
                    buy: Option<nat>, sell: Option<nat>, covering: array<nat>) returns (visible: bool)
    requires b.Ok() && Greedy(b, v, kept) && IsColumn(b, group, col) && i < |group|
    requires forall k :: k in group ==> (Tallest(b, k) <==> buy == Some(k) || sell == Some(k))
    requires Histogrammed(b, KeptAfter(kept, group, i + 1), covering[..])
    ensures visible <==> group[i] in kept
  {
    var k := group[i];
    var reached := CoverReached(covering, b.px[k], v);
    DecideBar(b, v, kept, group, col, i, covering[..], reached);
    visible := buy == Some(k) || sell == Some(k) || !reached;
  }

  method Count(covering: array<nat>, hp: nat)
    requires hp < covering.Length
    modifies covering
    ensures covering[..] == old(covering[..])[hp := old(covering[hp]) + 1]
  {
    covering[hp] := covering[hp] + 1;
  }

  /** Walks one column back from its last drawn bar, flagging the bars that can still be seen. */
  method CullColumn(b: Bars, v: nat, ghost kept: set<nat>, group: seq<nat>, col: int, keep: array<bool>)
    requires b.Ok() && Greedy(b, v, kept) && IsColumn(b, group, col) && keep.Length == |b.rows|
    requires forall i :: 0 <= i < |group| ==> !keep[group[i]]
    modifies keep
    ensures forall k :: 0 <= k < keep.Length ==>
      keep[k] == if b.rows[k].col == col then k in kept else old(keep[k])
  {
    var buy, sell := TallestPerSide(b, group, col);
    var covering := new nat[LOD_BAR_MAX_PX + 1](_ => 0);
    ghost var was := keep[..];
    var i := |group|;
    assert KeptAfter(kept, group, i) == {};
    assert forall h :: 0 <= h <= LOD_BAR_MAX_PX ==> Exactly(b, {}, h) == {};
    while i > 0
      invariant 0 <= i <= |group|
      invariant Histogrammed(b, KeptAfter(kept, group, i), covering[..])
      invariant Flagged(b, kept, group, col, i, was, keep[..])
    {
      i := i - 1;
      ghost var counts, flags := covering[..], keep[..];
      var visible := BarVisible(b, v, kept, group, col, i, buy, sell, covering);
      if visible {
        Count(covering, b.px[group[i]]);
        keep[group[i]] := true;
      }
      CullStep(b, kept, group, col, i, counts, covering[..]);
    }
  }

  /** Everything before `at` in column order is decided, the rest still unflagged. */
  ghost predicate ColumnsCulled(b: Bars, kept: set<nat>, order: seq<nat>, at: nat, keep: seq<bool>)
    requires b.Ok()
  {
    && at <= |order| && |keep| == |b.rows|
    && forall k :: 0 <= k < |keep| ==> (keep[k] <==> k in order[..at] && k in kept)
  }

  ghost predicate ColumnEdge(b: Bars, order: seq<nat>, at: nat) {
    at <= |order| && forall i, j :: 0 <= i < at <= j < |order| ==> At(b.rows, order[i]).col < At(b.rows, order[j]).col
  }

  /** How many leading elements of `s` share the column of the first. */
  function VolumeRun(b: Bars, s: seq<nat>): (n: nat)
    requires s != []
    ensures 0 < n <= |s|
  {
    var col := At(b.rows, s[0]).col;
    PartitionPoint(s, (k: nat) => At(b.rows, k).col == col)
  }

  /** A run between column edges is a whole column in draw order. */
  lemma RunIsColumn(b: Bars, order: seq<nat>, at: nat, end: nat)
    requires b.Ok() && Enumerates(order, |b.rows|, ByColumn(b.rows)) && ColumnEdge(b, order, at)
    requires at < |order| && end == at + VolumeRun(b, order[at..])
    ensures end <= |order| && ColumnEdge(b, order, end)
    ensures IsColumn(b, order[at..end], At(b.rows, order[at]).col)
  {
    var group, col := order[at..end], At(b.rows, order[at]).col;
    RunEdge(b, order, at, end);
    forall i | 0 <= i < |group|
      ensures group[i] < |b.rows| && b.rows[group[i]].col == col
    {
      assert group[i] == order[at + i] && order[at + i] in order;
    }
    forall i, j | 0 <= i < j < |group|
      ensures group[i] < group[j]
    {
      assert group[i] == order[at + i] && group[j] == order[at + j];
      assert ByColumn(b.rows)(order[at + i], order[at + j]);
    }
    forall k | 0 <= k < |b.rows| && b.rows[k].col == col
      ensures k in group
    {
      InRun(b, order, at, end, k);
    }
  }

  lemma InRun(b: Bars, order: seq<nat>, at: nat, end: nat, k: nat)
    requires ColumnEdge(b, order, at) && ColumnEdge(b, order, end) && at < end
    requires k in order && At(b.rows, k).col == At(b.rows, order[at]).col
    ensures k in order[at..end]
  {
    var i :| 0 <= i < |order| && order[i] == k;
    assert order[at..end][i - at] == k;
  }

  lemma RunEdge(b: Bars, order: seq<nat>, at: nat, end: nat)
    requires Pairwise(order, ByColumn(b.rows)) && at < |order| && end == at + VolumeRun(b, order[at..])
    ensures end <= |order| && ColumnEdge(b, order, end)
    ensures forall i :: at <= i < end ==> At(b.rows, order[i]).col == At(b.rows, order[at]).col
  {
    var rest := order[at..];
    assert forall i :: at <= i < end ==> order[i] == rest[i - at];
    if end < |order| {
      assert rest[end - at] == order[end] && rest[0] == order[at];
      assert At(b.rows, order[at]).col != At(b.rows, order[end]).col;
      forall i, j | 0 <= i < end <= j < |order|
        ensures At(b.rows, order[i]).col < At(b.rows, order[j]).col
      {
        assert i < at ==> ByColumn(b.rows)(order[i], order[at]);
        assert ByColumn(b.rows)(order[at], order[end]);
        assert end < j ==> ByColumn(b.rows)(order[end], order[j]);
      }
    }
  }

  /** Flags the bars to keep, column by column. */
  method CullBars(b: Bars, v: nat, ghost kept: set<nat>, order: seq<nat>) returns (keep: seq<bool>)
    requires b.Ok() && Greedy(b, v, kept) && Enumerates(order, |b.rows|, ByColumn(b.rows))
    ensures |keep| == |b.rows| && forall k :: 0 <= k < |keep| ==> (keep[k] <==> k in kept)
  {
    var flags := new bool[|b.rows|](_ => false);
    var start := 0;
    while start < |order|
      invariant ColumnEdge(b, order, start) && ColumnsCulled(b, kept, order, start, flags[..])
    {
      ghost var was := flags[..];
      var end := start + VolumeRun(b, order[start..]);
      RunIsColumn(b, order, start, end);
      var col := At(b.rows, order[start]).col;
      NotYetFlagged(b, kept, order, start, end, was);
      CullColumn(b, v, kept, order[start..end], col, flags);
      start := end;
    }
    keep := flags[..];
    assert order[..start] == order;
  }

  lemma NotYetFlagged(b: Bars, kept: set<nat>, order: seq<nat>, start: nat, end: nat, keep: seq<bool>)
    requires b.Ok() && Enumerates(order, |b.rows|, ByColumn(b.rows)) && start <= end <= |order|
    requires ColumnsCulled(b, kept, order, start, keep)
    ensures forall i :: 0 <= i < end - start ==> order[start..end][i] < |keep| && !keep[order[start..end][i]]
  {
    forall i | start <= i < end
      ensures order[i] < |keep| && !keep[order[i]]
    {
      assert order[i] in order;
      forall j | 0 <= j < start
        ensures order[j] != order[i]
      {
        assert ByColumn(b.rows)(order[j], order[i]);
      }
    }
  }

  /** Kept slots come out in draw order, each row once. */
  lemma PicksAscend(b: Bars, v: nat)
    requires b.Ok()
    ensures Pairwise(VolumePicks(b, v), (p: nat, q: nat) => p < q)
    ensures forall k: nat :: k in VolumePicks(b, v) <==> k in Kept(b, v)
  {
    var p := (k: nat) => k in Kept(b, v);
    IndicesEnumerate(|b.rows|);
    PairwiseFilter(Indices(|b.rows|), p, (x: nat, y: nat) => x < y);
    FilterMembers(Indices(|b.rows|), p);
  }
}

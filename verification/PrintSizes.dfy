/**
 Measuring a market's print sizes with two nested rank selections
 (crates/moon-chart/src/clusters.rs, `print_scale`).
 */
module PrintSizes {
  import opened Floats
  import opened Seqs
  import opened Sorting
  import opened Prints

  datatype PrintScale = PrintScale(small: real, big: real)

  const BIG_PERCENTILE: nat := 99

  function Ascending(): (real, real) -> bool {
    (a: real, b: real) => a <= b
  }

  function Sorted(s: seq<real>): seq<real> {
    Sort(s, Ascending())
  }

  /** The usable print volumes in tape order. */
  function Totals(prints: seq<Print>): seq<real> {
    if prints == [] then []
    else
      var v := prints[|prints| - 1].Total();
      Totals(prints[..|prints| - 1]) + (if v > 0.0 then [v] else [])
  }

  function Part(share: real, whole: real): real { share * whole }

  /** The rank a percentile names among `n` volumes. */
  function RankOf(pct: nat, n: nat): (i: nat)
    requires n > 0 && pct <= 100
    ensures i < n
  {
    var i := RoundHalfAway(Part(pct as real / 100.0, (n - 1) as real));
    if i < 0 then 0 else if i < n then i else n - 1
  }

  /** A selection in place: everything before position `k` is no larger, everything after no smaller. */
  ghost predicate Selected(a: seq<real>, k: nat, below: seq<real>, x: real, above: seq<real>) {
    && |below| == k
    && multiset(below + [x] + above) == multiset(a)
    && (forall i :: 0 <= i < |below| ==> below[i] <= x)
    && (forall i :: 0 <= i < |above| ==> x <= above[i])
  }

  /** The standard library's `select_nth_unstable_by`: nothing is promised about order within each part. */
  method SelectNth(a: seq<real>, k: nat) returns (below: seq<real>, x: real, above: seq<real>)
    requires k < |a|
    ensures Selected(a, k, below, x, above)
  {
    var s := Sorted(a);
    SortSorted(a, Ascending());
    assert forall i, j :: 0 <= i < j < |s| ==> Ascending()(s[i], s[j]);
    below, x, above := s[..k], s[k], s[k + 1..];
    assert s == below + [x] + above;
  }

  /** Any selection splits the sorted list at its rank. */
  lemma SelectionSplitsSort(a: seq<real>, k: nat, below: seq<real>, x: real, above: seq<real>)
    requires Selected(a, k, below, x, above)
    ensures k < |a| && Sorted(a) == Sorted(below) + [x] + Sorted(above)
  {
    assert |a| == |multiset(a)| == |below + [x] + above|;
    var lo, hi := Sorted(below), Sorted(above);
    SortSorted(a, Ascending());
    SortSorted(below, Ascending());
    SortSorted(above, Ascending());
    PermutationMembers(below, lo);
    PermutationMembers(above, hi);
    forall i | 0 <= i < |lo| ensures lo[i] <= x { assert lo[i] in below; }
    forall i | 0 <= i < |hi| ensures x <= hi[i] { assert hi[i] in above; }
    JoinAscending(lo, x, hi);
    assert multiset(lo + [x] + hi) == multiset(below + [x] + above);
    SortedUnique(Sorted(a), lo + [x] + hi, Ascending());
  }

  lemma JoinAscending(lo: seq<real>, x: real, hi: seq<real>)
    requires Pairwise(lo, Ascending()) && Pairwise(hi, Ascending())
    requires forall i :: 0 <= i < |lo| ==> lo[i] <= x
    requires forall i :: 0 <= i < |hi| ==> x <= hi[i]
    ensures Pairwise(lo + [x] + hi, Ascending())
  {
    var all := lo + [x] + hi;
    forall i, j | 0 <= i < j < |all|
      ensures Ascending()(all[i], all[j])
    {
      if j < |lo| {
        assert Ascending()(lo[i], lo[j]);
      } else if |lo| < i {
        assert Ascending()(hi[i - |lo| - 1], hi[j - |lo| - 1]);
      } else {
        assert all[i] <= x <= all[j];
      }
    }
  }

  /** What a full sort of the volumes would give. */
  function ScaleBySorting(prints: seq<Print>, smallPct: nat): Option<PrintScale> {
    var v := Sorted(Totals(prints));
    if v == [] then None
    else
      var small := v[RankOf(if smallPct < 100 then smallPct else 100, |v|)];
      var big := v[RankOf(BIG_PERCENTILE, |v|)];
      Some(PrintScale(small, Max(big, small)))
  }

  /** Two nested selections, the lower rank sought only among what the higher one left below. */
  method SelectTwo(scratch: seq<real>, low: nat, high: nat) returns (lowValue: real, highValue: real)
    requires low <= high < |scratch|
    ensures lowValue == Sorted(scratch)[low] && highValue == Sorted(scratch)[high]
  {
    var below, x, above := SelectNth(scratch, high);
    SelectionSplitsSort(scratch, high, below, x, above);
    highValue, lowValue := x, x;
    if low != high {
      var below2, y, above2 := SelectNth(below, low);
      SelectionSplitsSort(below, low, below2, y, above2);
      lowValue := y;
    }
  }

  method MeasureScale(prints: seq<Print>, smallPct: nat) returns (scale: Option<PrintScale>)
    ensures scale == ScaleBySorting(prints, smallPct)
  {
    var scratch := Totals(prints);
    if |scratch| == 0 {
      return None;
    }
    var smallIndex := RankOf(if smallPct < 100 then smallPct else 100, |scratch|);
    var bigIndex := RankOf(BIG_PERCENTILE, |scratch|);
    var low := if smallIndex <= bigIndex then smallIndex else bigIndex;
    var high := if smallIndex <= bigIndex then bigIndex else smallIndex;
    var lowValue, highValue := SelectTwo(scratch, low, high);
    var small, big := lowValue, highValue;
    if smallIndex > bigIndex {
      small, big := highValue, lowValue;
    }
    scale := Some(PrintScale(small, Max(big, small)));
  }

  /** A rank within half of the part of the way a percentile names from the first to the last. */
  predicate IsRank(i: nat, pct: nat, n: nat) {
    i < n && Abs(i as real - OfTheWay(pct as real, (n - 1) as real)) <= 0.5
  }

  /** A percentile of the way. */
  function OfTheWay(pct: real, whole: real): real { pct * whole / 100.0 }

  lemma RankIs(pct: nat, n: nat)
    requires n > 0 && pct <= 100
    ensures IsRank(RankOf(pct, n), pct, n)
  {
    var way := OfTheWay(pct as real, (n - 1) as real);
    PartOf(pct as real, (n - 1) as real);
    var r := RoundHalfAway(way);
    assert Abs(way - r as real) <= 0.5;
    assert 0 <= r < n;
    assert RankOf(pct, n) == r;
  }

  lemma PartOf(pct: real, m: real)
    requires 0.0 <= pct <= 100.0 && m >= 0.0
    ensures Part(pct / 100.0, m) == OfTheWay(pct, m) && 0.0 <= OfTheWay(pct, m) <= m
  {
    var p, rest := pct / 100.0, 1.0 - pct / 100.0;
    Hundredfold(p, m);
    assert pct == 100.0 * p;
    NonNegative(p, m);
    NonNegative(rest, m);
    assert Part(rest, m) == m - Part(p, m);
  }

  lemma Hundredfold(p: real, m: real)
    ensures OfTheWay(100.0 * p, m) == Part(p, m)
  {
  }

  lemma NonNegative(a: real, b: real)
    requires a >= 0.0 && b >= 0.0
    ensures Part(a, b) >= 0.0
  {
  }

  ghost predicate IsTotals(prints: seq<Print>, v: seq<real>) {
    && Pairwise(v, (a: real, b: real) => a <= b)
    && multiset(v) == multiset(Totals(prints))
  }

  /** The volumes that count are those of the prints with any. */
  lemma {:induction false} TotalsAre(prints: seq<Print>, x: real)
    ensures x in Totals(prints) <==> exists i :: 0 <= i < |prints| && prints[i].buy + prints[i].sell == x > 0.0
  {
    if prints != [] {
      var n := |prints| - 1;
      TotalsAre(prints[..n], x);
      if i :| 0 <= i < n && prints[..n][i].buy + prints[..n][i].sell == x > 0.0 {
        assert prints[i] == prints[..n][i];
      }
      if i :| 0 <= i < |prints| && prints[i].buy + prints[i].sell == x > 0.0 {
        assert i < n ==> prints[..n][i] == prints[i];
      }
    }
  }

  /**
   The scale has the volumes, in order, at the ranks nearest the asked percentile and the 99th, the larger
   never under the smaller; without any volume there is none.
   */
  lemma ScaleIs(prints: seq<Print>, smallPct: nat, v: seq<real>) returns (i: nat, j: nat)
    requires IsTotals(prints, v)
    ensures ScaleBySorting(prints, smallPct).None? <==> v == []
    ensures v != [] ==>
              && IsRank(i, if smallPct < 100 then smallPct else 100, |v|) && IsRank(j, 99, |v|)
              && ScaleBySorting(prints, smallPct) == Some(PrintScale(v[i], if v[j] > v[i] then v[j] else v[i]))
  {
    SortSorted(Totals(prints), Ascending());
    assert Pairwise(v, Ascending());
    SortedUnique(Sorted(Totals(prints)), v, Ascending());
    i, j := 0, 0;
    if v != [] {
      i, j := RankOf(if smallPct < 100 then smallPct else 100, |v|), RankOf(BIG_PERCENTILE, |v|);
      RankIs(if smallPct < 100 then smallPct else 100, |v|);
      RankIs(99, |v|);
    }
  }
}

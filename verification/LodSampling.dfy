/**
 Deciding which grouped rows a crowded column keeps
 (crates/moon-chart/src/tick_volume.rs).
 */
module LodSampling {
  import opened Seqs
  import opened LodRows
  import opened LodCross
  import opened LodOrder

  /** The kept rows in final order: grouped by column and side class, ascending texel rows. */
  ghost predicate Grouped(rows: seq<LodRow>, kept: seq<nat>) {
    && Pairwise(kept, BySide(rows))
    && (forall i :: 0 <= i < |kept| ==> LastOfTexel(rows, kept[i]))
    && (forall k: nat :: LastOfTexel(rows, k) ==> k in kept)
  }

  lemma SameSide(rows: seq<LodRow>, s: seq<nat>, at: nat, i: nat, j: nat)
    requires ColumnBoundary(rows, s, at) && i < |s| && j < |s|
    requires At(rows, s[i]).col == At(rows, s[j]).col
    ensures i < at <==> j < at
  {
  }

  /** A column's range holds exactly the survivors of that column. */
  lemma ColumnCount(rows: seq<LodRow>, kept: seq<nat>, at: nat, end: nat, col: int)
    requires Grouped(rows, kept) && at < end <= |kept|
    requires ColumnBoundary(rows, kept, at) && ColumnBoundary(rows, kept, end)
    requires forall i :: at <= i < end ==> At(rows, kept[i]).col == col
    ensures |Column(rows, col)| == end - at
  {
    var slice := kept[at..end];
    forall k: nat
      ensures k in slice <==> k in Column(rows, col)
    {
      if k in slice {
        var i :| 0 <= i < |slice| && slice[i] == k;
        assert k == kept[at + i];
      }
      if k in Column(rows, col) {
        assert k in kept;
        var i :| 0 <= i < |kept| && kept[i] == k;
        SameSide(rows, kept, at, i, at);
        SameSide(rows, kept, end, i, at);
        assert k == slice[i - at];
      }
    }
    assert Elems(slice) == Column(rows, col);
    ElemsCount(slice);
  }

  /** One side class of one column: `[from, to)` inside the column range `[at, end)`. */
  ghost predicate ClassRange(rows: seq<LodRow>, kept: seq<nat>, at: nat, from: nat, to: nat, end: nat) {
    && at <= from < to <= end <= |kept|
    && ColumnBoundary(rows, kept, at) && ColumnBoundary(rows, kept, end)
    && (forall i :: at <= i < end ==> At(rows, kept[i]).col == At(rows, kept[from]).col)
    && (forall i :: at <= i < from ==> Class(At(rows, kept[i])) < Class(At(rows, kept[from])))
    && (forall i :: from <= i < to ==> Class(At(rows, kept[i])) == Class(At(rows, kept[from])))
    && (forall i :: to <= i < end ==> Class(At(rows, kept[i])) > Class(At(rows, kept[from])))
  }

  lemma InClassRange(rows: seq<LodRow>, kept: seq<nat>, at: nat, from: nat, to: nat, end: nat, k: nat) returns (i: nat)
    requires Grouped(rows, kept) && ClassRange(rows, kept, at, from, to, end)
    requires k in Group(rows, At(rows, kept[from]).col, Class(At(rows, kept[from])))
    ensures from <= i < to && kept[i] == k
  {
    assert k in kept;
    i :| 0 <= i < |kept| && kept[i] == k;
    SameSide(rows, kept, at, i, from);
    SameSide(rows, kept, end, i, from);
  }

  /** The part of a class range before `i` holds exactly the group members on lower rows. */
  lemma ClassPrefix(rows: seq<LodRow>, kept: seq<nat>, at: nat, from: nat, to: nat, end: nat, i: nat, k: nat)
    requires Grouped(rows, kept) && ClassRange(rows, kept, at, from, to, end) && from <= i < to
    ensures k in kept[from..i] <==> k in Ahead(rows, kept[i])
  {
    var ahead := kept[from..i];
    if k in ahead {
      var j :| 0 <= j < |ahead| && ahead[j] == k;
      assert kept[from + j] == k;
    }
    if k in Ahead(rows, kept[i]) {
      var j := InClassRange(rows, kept, at, from, to, end, k);
      assert k == ahead[j - from];
    }
  }

  lemma ClassMembers(rows: seq<LodRow>, kept: seq<nat>, at: nat, from: nat, to: nat, end: nat, k: nat)
    requires Grouped(rows, kept) && ClassRange(rows, kept, at, from, to, end)
    ensures k in kept[from..to] <==> k in Group(rows, At(rows, kept[from]).col, Class(At(rows, kept[from])))
  {
    var all := kept[from..to];
    if k in all {
      var j :| 0 <= j < |all| && all[j] == k;
      assert kept[from + j] == k;
    }
    if k in Group(rows, At(rows, kept[from]).col, Class(At(rows, kept[from]))) {
      var j := InClassRange(rows, kept, at, from, to, end, k);
      assert k == all[j - from];
    }
  }

  /** A class range holds exactly its group, and a member's position is its rank. */
  lemma ClassRank(rows: seq<LodRow>, kept: seq<nat>, at: nat, from: nat, to: nat, end: nat, i: nat)
    requires Grouped(rows, kept) && ClassRange(rows, kept, at, from, to, end) && from <= i < to
    ensures |Group(rows, At(rows, kept[i]).col, Class(At(rows, kept[i])))| == to - from
    ensures |Ahead(rows, kept[i])| == i - from
  {
    forall k: nat {
      ClassMembers(rows, kept, at, from, to, end, k);
    }
    assert Elems(kept[from..to]) == Group(rows, At(rows, kept[i]).col, Class(At(rows, kept[i])));
    ElemsCount(kept[from..to]);
    forall k: nat {
      ClassPrefix(rows, kept, at, from, to, end, i, k);
    }
    assert Elems(kept[from..i]) == Ahead(rows, kept[i]);
    ElemsCount(kept[from..i]);
  }

  /** The keep flags once every kept row before `at` has been decided. */
  ghost predicate Decided(rows: seq<LodRow>, kept: seq<nat>, at: nat, keep: seq<bool>) {
    && |keep| == |rows| && at <= |kept|
    && forall k :: 0 <= k < |rows| ==> (keep[k] <==> k in kept[..at] && CrossKept(rows, k))
  }

  /** Flags every row of a range. */
  method MarkAll(kept: seq<nat>, from: nat, to: nat, keep: array<bool>)
    requires from <= to <= |kept| && forall i :: from <= i < to ==> kept[i] < keep.Length
    modifies keep
    ensures forall k :: 0 <= k < keep.Length ==> (keep[k] <==> old(keep[k]) || k in kept[from..to])
  {
    var i := from;
    while i < to
      invariant from <= i <= to
      invariant forall k :: 0 <= k < keep.Length ==> (keep[k] <==> old(keep[k]) || k in kept[from..i])
    {
      keep[kept[i]] := true;
      assert kept[from..i + 1] == kept[from..i] + [kept[i]];
      i := i + 1;
    }
  }

  /** Flags the sampled rows of a range. */
  method MarkSampled(kept: seq<nat>, from: nat, to: nat, keep: array<bool>)
    requires from < to <= |kept| && forall i :: from <= i < to ==> kept[i] < keep.Length
    modifies keep
    ensures forall k :: 0 <= k < keep.Length ==>
      (keep[k] <==> old(keep[k]) || exists i :: from <= i < to && kept[i] == k && Sampled(i - from, to - from))
  {
    var stride := Stride(to - from);
    var i := from;
    while i < to
      invariant from <= i <= to
      invariant forall k :: 0 <= k < keep.Length ==>
        (keep[k] <==> old(keep[k]) || exists j :: from <= j < i && kept[j] == k && (j - from) % stride == 0)
    {
      if (i - from) % stride == 0 {
        keep[kept[i]] := true;
      }
      i := i + 1;
    }
    keep[kept[to - 1]] := true;
  }

  /** Everything of a small column is kept. */
  lemma SmallColumnDecided(rows: seq<LodRow>, kept: seq<nat>, was: seq<bool>, now: seq<bool>, at: nat, end: nat)
    requires Grouped(rows, kept) && Decided(rows, kept, at, was) && at < end <= |kept| && |now| == |was|
    requires ColumnBoundary(rows, kept, at) && ColumnBoundary(rows, kept, end)
    requires forall i :: at <= i < end ==> At(rows, kept[i]).col == At(rows, kept[at]).col
    requires end - at <= LOD_MAX_ROWS
    requires forall k :: 0 <= k < |now| ==> (now[k] <==> was[k] || k in kept[at..end])
    ensures Decided(rows, kept, end, now)
  {
    ColumnCount(rows, kept, at, end, At(rows, kept[at]).col);
    SplitPrefix(kept, at, end);
    forall i | at <= i < end
      ensures CrossKept(rows, kept[i])
    {
    }
    assert forall j :: 0 <= j < |kept[at..end]| ==> kept[at..end][j] == kept[at + j];
  }

  /** A class of a crowded column keeps exactly its sampled positions. */
  lemma ClassDecided(rows: seq<LodRow>, kept: seq<nat>, was: seq<bool>, now: seq<bool>,
                     at: nat, from: nat, to: nat, end: nat)
    requires Grouped(rows, kept) && Decided(rows, kept, from, was) && |now| == |was|
    requires ClassRange(rows, kept, at, from, to, end) && end - at > LOD_MAX_ROWS
    requires forall k :: 0 <= k < |now| ==>
      (now[k] <==> was[k] || exists i :: from <= i < to && kept[i] == k && Sampled(i - from, to - from))
    ensures Decided(rows, kept, to, now)
  {
    ColumnCount(rows, kept, at, end, At(rows, kept[from]).col);
    SplitPrefix(kept, from, to);
    forall i | from <= i < to
      ensures CrossKept(rows, kept[i]) <==> Sampled(i - from, to - from)
    {
      ClassRank(rows, kept, at, from, to, end, i);
    }
    forall k | 0 <= k < |rows|
      ensures k in kept[from..to] <==> exists i :: from <= i < to && kept[i] == k
    {
      InSlice(kept, from, to, k);
    }
  }

  lemma InSlice(s: seq<nat>, from: nat, to: nat, k: nat)
    requires from <= to <= |s|
    ensures k in s[from..to] <==> exists i :: from <= i < to && s[i] == k
  {
    var slice := s[from..to];
    if k in slice {
      var j :| 0 <= j < |slice| && slice[j] == k;
      assert s[from + j] == k;
    }
    if i :| from <= i < to && s[i] == k {
      assert slice[i - from] == k;
    }
  }

  /** How many leading elements of `s` share the side class of the first. */
  function ClassRun(rows: seq<LodRow>, s: seq<nat>): (n: nat)
    requires s != []
    ensures 0 < n <= |s|
  {
    var class_ := Class(At(rows, s[0]));
    PartitionPoint(s, (k: nat) => Class(At(rows, k)) == class_)
  }

  lemma ClassRunEdges(rows: seq<LodRow>, kept: seq<nat>, at: nat, from: nat, to: nat, end: nat)
    requires Grouped(rows, kept) && at <= from < end <= |kept| && to == from + ClassRun(rows, kept[from..end])
    requires ColumnBoundary(rows, kept, at) && ColumnBoundary(rows, kept, end)
    requires forall i :: at <= i < end ==> At(rows, kept[i]).col == At(rows, kept[at]).col
    requires ClassBoundary(rows, kept, at, from, end)
    ensures ClassRange(rows, kept, at, from, to, end) && ClassBoundary(rows, kept, at, to, end)
  {
    var rest := kept[from..end];
    assert forall i :: from <= i < to ==> kept[i] == rest[i - from];
    assert Class(At(rows, rest[0])) == Class(At(rows, kept[from]));
    if to < end {
      assert kept[to] == rest[to - from];
      assert Class(At(rows, kept[to])) != Class(At(rows, kept[from]));
      ClassesAscend(rows, kept, from, to);
      forall i | to <= i < end
        ensures Class(At(rows, kept[i])) >= Class(At(rows, kept[to]))
      {
        ClassesAscend(rows, kept, to, i);
      }
    }
  }

  ghost predicate ClassBoundary(rows: seq<LodRow>, kept: seq<nat>, at: nat, from: nat, end: nat) {
    && at <= from <= end <= |kept|
    && forall i, j :: at <= i < from <= j < end ==> Class(At(rows, kept[i])) < Class(At(rows, kept[j]))
  }

  lemma ClassesAscend(rows: seq<LodRow>, kept: seq<nat>, i: nat, j: nat)
    requires Grouped(rows, kept) && i <= j < |kept| && At(rows, kept[i]).col == At(rows, kept[j]).col
    ensures Class(At(rows, kept[i])) <= Class(At(rows, kept[j]))
  {
    assert i < j ==> LessB(rows, kept[i], kept[j]);
  }

  /** Samples one crowded column, side class by side class. */
  method SampleColumn(rows: seq<LodRow>, kept: seq<nat>, at: nat, end: nat, keep: array<bool>)
    requires Grouped(rows, kept) && at < end <= |kept|
    requires ColumnBoundary(rows, kept, at) && ColumnBoundary(rows, kept, end)
    requires forall i :: at <= i < end ==> At(rows, kept[i]).col == At(rows, kept[at]).col
    requires end - at > LOD_MAX_ROWS && Decided(rows, kept, at, keep[..])
    modifies keep
    ensures Decided(rows, kept, end, keep[..])
  {
    var sideStart := at;
    while sideStart < end
      invariant ClassBoundary(rows, kept, at, sideStart, end)
      invariant Decided(rows, kept, sideStart, keep[..])
    {
      ghost var was := keep[..];
      var sideEnd := sideStart + ClassRun(rows, kept[sideStart..end]);
      ClassRunEdges(rows, kept, at, sideStart, sideEnd, end);
      MarkSampled(kept, sideStart, sideEnd, keep);
      ClassDecided(rows, kept, was, keep[..], at, sideStart, sideEnd, end);
      sideStart := sideEnd;
    }
  }

  /** Keep flags for every row: small columns whole, crowded ones sampled per side class. */
  method SampleColumns(rows: seq<LodRow>, kept: seq<nat>) returns (keep: seq<bool>)
    requires Grouped(rows, kept)
    ensures |keep| == |rows| && forall k :: 0 <= k < |rows| ==> (keep[k] <==> CrossKept(rows, k))
  {
    var flags := new bool[|rows|](_ => false);
    var colStart := 0;
    while colStart < |kept|
      invariant ColumnBoundary(rows, kept, colStart) && Decided(rows, kept, colStart, flags[..])
    {
      ghost var was := flags[..];
      var colEnd := colStart + ColumnRun(rows, kept[colStart..]);
      ColumnRunEdges(rows, kept, colStart, colEnd);
      if colEnd - colStart <= LOD_MAX_ROWS {
        MarkAll(kept, colStart, colEnd, flags);
        SmallColumnDecided(rows, kept, was, flags[..], colStart, colEnd);
      } else {
        SampleColumn(rows, kept, colStart, colEnd, flags);
      }
      colStart := colEnd;
    }
    keep := flags[..];
    assert kept[..colStart] == kept;
  }
}

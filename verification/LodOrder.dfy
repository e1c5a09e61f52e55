/**
 The two row orders of the cross reduction, each reached by counting passes or by a comparison sort
 (crates/moon-chart/src/tick_volume.rs).
 */
module LodOrder {
  import opened Seqs
  import opened Sorting
  import opened CountingSort
  import opened LodRows
  import opened LodCross

  predicate LessA(rows: seq<LodRow>, a: nat, b: nat) {
    var p := At(rows, a);
    var q := At(rows, b);
    p.col < q.col || (p.col == q.col && (p.row < q.row || (p.row == q.row && a < b)))
  }

  predicate LessB(rows: seq<LodRow>, a: nat, b: nat) {
    var p := At(rows, a);
    var q := At(rows, b);
    p.col < q.col || (p.col == q.col && (Class(p) < Class(q) || (Class(p) == Class(q) &&
    (p.row < q.row || (p.row == q.row && a < b)))))
  }

  predicate LessOrEqual(lt: (nat, nat) -> bool, a: nat, b: nat) {
    lt(a, b) || a == b
  }

  function ByTexel(rows: seq<LodRow>): (nat, nat) -> bool {
    (a: nat, b: nat) => LessA(rows, a, b)
  }

  function BySide(rows: seq<LodRow>): (nat, nat) -> bool {
    (a: nat, b: nat) => LessB(rows, a, b)
  }

  /** Rows in `(column, row, draw index)` order by whichever sort the key span admits. */
  method TierAOrder(rows: seq<LodRow>, span: KeySpan) returns (order: seq<nat>)
    requires SpanCovers(rows, span)
    ensures Enumerates(order, |rows|, ByTexel(rows))
  {
    var n := |rows|;
    order := Indices(n);
    IndicesEnumerate(n);
    var colBuckets, rowBuckets := ColBuckets(span, n), RowBuckets(span, n);
    if colBuckets.Some? && rowBuckets.Some? {
      RadixEnumerates(rows, span, colBuckets.value, rowBuckets.value);
      order := CountingSortBy(order, rowBuckets.value, RowKey(rows, span.rowMin));
      order := CountingSortBy(order, colBuckets.value, ColKey(rows, span.colMin));
    } else {
      SortEnumerates(order, ByTexel(rows), (a: nat, b: nat) => LessOrEqual(ByTexel(rows), a, b));
      order := Sort(order, (a: nat, b: nat) => LessOrEqual(ByTexel(rows), a, b));
    }
  }

  predicate LessByRow(rows: seq<LodRow>, min: int, a: nat, b: nat) {
    var p := RowKey(rows, min)(a);
    var q := RowKey(rows, min)(b);
    p < q || (p == q && a < b)
  }

  function ByRow(rows: seq<LodRow>, min: int): (nat, nat) -> bool {
    (a: nat, b: nat) => LessByRow(rows, min, a, b)
  }

  /** The first pass: draw order, sorted stably by texel row. */
  lemma RowPass(rows: seq<LodRow>, min: int, buckets: nat)
    requires KeysBelow(Indices(|rows|), RowKey(rows, min), buckets)
    ensures Enumerates(Concat(Indices(|rows|), RowKey(rows, min), buckets), |rows|, ByRow(rows, min))
  {
    var start, r := Indices(|rows|), RowKey(rows, min);
    IndicesEnumerate(|rows|);
    StableSortRefines(start, r, buckets, (a: nat, b: nat) => a < b);
    ConcatMembers(start, r, buckets);
    assert forall k: nat :: k < |rows| ==> start[k] == k && r(start[k]) < buckets;
  }

  /** Two stable passes over the draw order, rows then columns, give the texel order. */
  lemma RadixEnumerates(rows: seq<LodRow>, span: KeySpan, colBuckets: nat, rowBuckets: nat)
    requires SpanCovers(rows, span)
    requires ColBuckets(span, |rows|) == Some(colBuckets) && RowBuckets(span, |rows|) == Some(rowBuckets)
    ensures var first := Concat(Indices(|rows|), RowKey(rows, span.rowMin), rowBuckets);
            && KeysBelow(Indices(|rows|), RowKey(rows, span.rowMin), rowBuckets)
            && KeysBelow(first, ColKey(rows, span.colMin), colBuckets)
            && Enumerates(Concat(first, ColKey(rows, span.colMin), colBuckets), |rows|, ByTexel(rows))
  {
    RowPass(rows, span.rowMin, rowBuckets);
    var first, c := Concat(Indices(|rows|), RowKey(rows, span.rowMin), rowBuckets), ColKey(rows, span.colMin);
    assert forall i :: 0 <= i < |first| ==> first[i] in first;
    StableSortRefines(first, c, colBuckets, ByRow(rows, span.rowMin));
    ConcatMembers(first, c, colBuckets);
    RadixIsTexelOrder(rows, span, Concat(first, c, colBuckets));
  }

  /** Two stable passes, rows then columns, leave the texel order. */
  lemma RadixIsTexelOrder(rows: seq<LodRow>, span: KeySpan, order: seq<nat>)
    requires span.finite && SpanCovers(rows, span)
    requires forall k: nat :: k in order ==> k < |rows|
    requires var c := ColKey(rows, span.colMin);
             Pairwise(order, (a: nat, b: nat) => c(a) < c(b) || (c(a) == c(b) && LessByRow(rows, span.rowMin, a, b)))
    ensures Pairwise(order, ByTexel(rows))
  {
    forall i, j | 0 <= i < j < |order|
      ensures LessA(rows, order[i], order[j])
    {
      assert order[i] in order && order[j] in order;
    }
  }

  /** The last row of each texel, read off the texel order. */
  method LastPerTexel(rows: seq<LodRow>, order: seq<nat>) returns (kept: seq<nat>)
    requires Enumerates(order, |rows|, ByTexel(rows))
    ensures Pairwise(kept, ByTexel(rows))
    ensures forall k: nat :: k in kept <==> LastOfTexel(rows, k)
  {
    kept := [];
    var i := 0;
    assert forall i :: 0 <= i < |order| ==> order[i] in order;
    while i < |order|
      invariant 0 <= i <= |order|
      invariant forall j :: 0 <= j < |kept| ==> kept[j] in order[..i]
      invariant Pairwise(kept, ByTexel(rows))
      invariant forall j :: 0 <= j < i ==> (order[j] in kept <==> LastOfTexel(rows, order[j]))
    {
      var k := order[i];
      NextTellsLast(rows, order, i);
      if i + 1 == |order| || !SameTexel(rows[order[i + 1]], rows[k]) {
        kept := kept + [k];
      }
      i := i + 1;
    }
    forall k: nat
      ensures k in kept <==> LastOfTexel(rows, k)
    {
      assert k in kept ==> k in order;
      assert k < |rows| ==> k in order;
    }
  }

  lemma NextTellsLast(rows: seq<LodRow>, order: seq<nat>, i: nat)
    requires Enumerates(order, |rows|, ByTexel(rows)) && i < |order|
    requires forall i :: 0 <= i < |order| ==> order[i] < |rows|
    ensures LastOfTexel(rows, order[i]) <==> i + 1 == |order| || !SameTexel(rows[order[i + 1]], rows[order[i]])
  {
    var k := order[i];
    assert i + 1 < |order| ==> LessA(rows, k, order[i + 1]);
    if !LastOfTexel(rows, k) {
      var later :| k < later < |rows| && SameTexel(rows[later], rows[k]);
      assert later in order;
      var j :| 0 <= j < |order| && order[j] == later;
      assert j < i ==> LessA(rows, later, k);
      assert i + 1 < j ==> LessA(rows, order[i + 1], later);
      assert SameTexel(rows[order[i + 1]], rows[k]);
    }
  }

  // ---- side classes ----

  function ClassKey(rows: seq<LodRow>): nat -> nat {
    (k: nat) => Class(At(rows, k))
  }

  /** Within one column: by side class, ties in the order the column had. */
  predicate LessInColumn(rows: seq<LodRow>, a: nat, b: nat) {
    var p := Class(At(rows, a));
    var q := Class(At(rows, b));
    p < q || (p == q && LessA(rows, a, b))
  }

  function InClassOrder(rows: seq<LodRow>): (nat, nat) -> bool {
    (a: nat, b: nat) => LessInColumn(rows, a, b)
  }

  /** How many leading elements of `s` lie in the column of the first: one `take_while` count. */
  function ColumnRun(rows: seq<LodRow>, s: seq<nat>): (n: nat)
    requires s != []
    ensures 0 < n <= |s|
  {
    var col := At(rows, s[0]).col;
    PartitionPoint(s, (k: nat) => At(rows, k).col == col)
  }

  /** Scatters one column range by side class through `scratch`, keeping the order in each class. */
  method PartitionColumn(kept: array<nat>, rows: seq<LodRow>, from: nat, to: nat, scratch: array<nat>)
    requires from <= to <= kept.Length && scratch != kept && scratch.Length == kept.Length
    modifies kept, scratch
    ensures kept[from..to] == Concat(old(kept[from..to]), ClassKey(rows), 3)
    ensures kept[..from] == old(kept[..from]) && kept[to..] == old(kept[to..])
  {
    var cursor := ClassCursors(kept[from..to], rows, from);
    ScatterColumn(kept, rows, from, to, cursor, scratch);
    CopyRange(kept, scratch, from, to);
  }

  /** Where each side class of a column starts in the scratch buffer. */
  method ClassCursors(slice: seq<nat>, rows: seq<LodRow>, from: nat) returns (cursor: array<nat>)
    ensures fresh(cursor) && cursor.Length == 3
    ensures CursorsAt(slice, rows, 0, from, cursor[..])
  {
    var key := ClassKey(rows);
    var classCount := new nat[3](_ => 0);
    Histogram(slice, key, classCount);
    cursor := new nat[3];
    cursor[0], cursor[1], cursor[2] := from, from + classCount[0], from + classCount[0] + classCount[1];
    StartNext(slice, key, 0);
    StartNext(slice, key, 1);
  }

  /** The write cursors after `i` elements of a column. */
  ghost predicate CursorsAt(slice: seq<nat>, rows: seq<LodRow>, i: nat, from: nat, cursor: seq<nat>)
    requires i <= |slice|
  {
    |cursor| == 3 && forall b :: 0 <= b < 3 ==>
      cursor[b] == from + Start(slice, ClassKey(rows), b) + |Bucket(slice[..i], ClassKey(rows), b)|
  }

  lemma CursorsStep(slice: seq<nat>, rows: seq<LodRow>, i: nat, from: nat, cursor: seq<nat>, next: seq<nat>)
    requires i < |slice| && CursorsAt(slice, rows, i, from, cursor)
    requires var c := Class(At(rows, slice[i])); next == cursor[c := cursor[c] + 1]
    ensures CursorsAt(slice, rows, i + 1, from, next)
  {
    BucketSizes(slice, ClassKey(rows), i, 3);
  }

  /** Writes one element of the range `from..to` at its class cursor and moves the cursor on. */
  method ScatterOne(cursor: array<nat>, scratch: array<nat>, c: nat, k: nat, ghost from: nat, ghost to: nat)
    requires cursor != scratch && c < cursor.Length && from <= cursor[c] < to <= scratch.Length
    modifies cursor, scratch
    ensures scratch[from..to] == old(scratch[from..to])[old(cursor[c]) - from := k]
    ensures cursor[..] == old(cursor[..])[c := old(cursor[c]) + 1]
  {
    scratch[cursor[c]] := k;
    cursor[c] := cursor[c] + 1;
  }

  /** Puts row `i` of a column in its place. */
  method ScatterNext(k: nat, rows: seq<LodRow>, cursor: array<nat>, scratch: array<nat>,
                     ghost slice: seq<nat>, ghost i: nat, ghost from: nat, ghost to: nat)
    requires cursor != scratch && from <= to <= scratch.Length && |slice| == to - from
    requires i < |slice| && k == slice[i] && Partway(slice, rows, i, from, cursor[..], scratch[from..to])
    modifies cursor, scratch
    ensures Partway(slice, rows, i + 1, from, cursor[..], scratch[from..to])
  {
    PartwayStep(slice, rows, i, from, cursor[..], scratch[from..to]);
    ScatterOne(cursor, scratch, Class(At(rows, k)), k, from, to);
  }

  method ScatterColumn(kept: array<nat>, rows: seq<LodRow>, from: nat, to: nat, cursor: array<nat>, scratch: array<nat>)
    requires from <= to <= kept.Length && scratch != kept && scratch.Length == kept.Length
    requires cursor.Length == 3 && cursor != kept && cursor != scratch
    requires CursorsAt(kept[from..to], rows, 0, from, cursor[..])
    modifies cursor, scratch
    ensures scratch[from..to] == Concat(kept[from..to], ClassKey(rows), 3)
  {
    ghost var slice := kept[from..to];
    PartwayStart(slice, rows, from, cursor[..], scratch[from..to]);
    var i: nat := 0;
    while i < to - from
      invariant i <= to - from
      invariant Partway(slice, rows, i, from, cursor[..], scratch[from..to])
    {
      ScatterNext(kept[from + i], rows, cursor, scratch, slice, i, from, to);
      i := i + 1;
    }
    PartwayDone(slice, rows, from, cursor[..], scratch[from..to]);
  }

  /** The first `i` rows of a column stand in their places and the class cursors behind them. */
  ghost predicate Partway(slice: seq<nat>, rows: seq<LodRow>, i: nat, from: nat, cursor: seq<nat>, out: seq<nat>) {
    && i <= |slice| == |out|
    && CursorsAt(slice, rows, i, from, cursor) && Scattered(slice, ClassKey(rows), i, 3, out)
  }

  lemma PartwayStart(slice: seq<nat>, rows: seq<LodRow>, from: nat, cursor: seq<nat>, out: seq<nat>)
    requires |out| == |slice| && CursorsAt(slice, rows, 0, from, cursor)
    ensures Partway(slice, rows, 0, from, cursor, out)
  {
    NothingScattered(slice, ClassKey(rows), 3, out);
  }

  lemma PartwayDone(slice: seq<nat>, rows: seq<LodRow>, from: nat, cursor: seq<nat>, out: seq<nat>)
    requires Partway(slice, rows, |slice|, from, cursor, out)
    ensures out == Concat(slice, ClassKey(rows), 3)
  {
    ScatteredIsConcat(slice, ClassKey(rows), 3, 3, out);
    ConcatLength(slice, ClassKey(rows), 3);
  }

  lemma PartwayStep(slice: seq<nat>, rows: seq<LodRow>, i: nat, from: nat, cursor: seq<nat>, out: seq<nat>)
    requires i < |slice| && Partway(slice, rows, i, from, cursor, out)
    ensures var c := Class(At(rows, slice[i]));
            && |cursor| == 3 && from <= cursor[c] < from + |slice|
            && Partway(slice, rows, i + 1, from, cursor[c := cursor[c] + 1], out[cursor[c] - from := slice[i]])
  {
    var key, c := ClassKey(rows), Class(At(rows, slice[i]));
    SlotInRange(slice, key, i, 3);
    RangesApart(slice, key, c, c, 3);
    ScatterStep(slice, key, i, 3, out, out[cursor[c] - from := slice[i]]);
    CursorsStep(slice, rows, i, from, cursor, cursor[c := cursor[c] + 1]);
  }

  method CopyRange(kept: array<nat>, scratch: array<nat>, from: nat, to: nat)
    requires from <= to <= kept.Length && scratch != kept && scratch.Length == kept.Length
    modifies kept
    ensures kept[from..to] == scratch[from..to]
    ensures kept[..from] == old(kept[..from]) && kept[to..] == old(kept[to..])
  {
    forall j | from <= j < to {
      kept[j] := scratch[j];
    }
  }

  /** Between column starts: a finished prefix in class order, an untouched suffix of later columns. */
  ghost predicate Partitioning(rows: seq<LodRow>, was: seq<nat>, now: seq<nat>, at: nat) {
    && at <= |was| == |now|
    && now[at..] == was[at..]
    && Pairwise(now[..at], BySide(rows))
    && (forall k: nat :: k in now[..at] <==> k in was[..at])
    && ColumnBoundary(rows, was, at)
  }

  /** Stable three-way partition of every column by side class, in place. */
  method PartitionKeptBySide(kept: array<nat>, rows: seq<LodRow>, scratch: array<nat>)
    requires scratch != kept && scratch.Length == kept.Length
    requires Pairwise(kept[..], ByTexel(rows))
    modifies kept, scratch
    ensures Pairwise(kept[..], BySide(rows))
    ensures forall k: nat :: k in kept[..] <==> k in old(kept[..])
  {
    ghost var was := kept[..];
    var colStart := 0;
    while colStart < kept.Length
      invariant Partitioning(rows, was, kept[..], colStart)
    {
      ghost var now := kept[..];
      var colEnd := colStart + ColumnRun(rows, kept[colStart..]);
      PartitionColumn(kept, rows, colStart, colEnd, scratch);
      ColumnPartitioned(rows, was, now, kept[..], colStart, colEnd);
      colStart := colEnd;
    }
    assert kept[..colStart] == kept[..] && was[..colStart] == was;
  }

  lemma ColumnPartitioned(rows: seq<LodRow>, was: seq<nat>, now: seq<nat>, next: seq<nat>, at: nat, end: nat)
    requires Pairwise(was, ByTexel(rows)) && Partitioning(rows, was, now, at) && at < |was| == |next|
    requires end == at + ColumnRun(rows, now[at..])
    requires next[..at] == now[..at] && next[end..] == now[end..]
    requires next[at..end] == Concat(now[at..end], ClassKey(rows), 3)
    ensures Partitioning(rows, was, next, end)
  {
    var col := At(rows, was[at]).col;
    var slice, part := was[at..end], next[at..end];
    assert now[at..end] == now[at..][..end - at] == was[at..][..end - at] == slice;
    assert now[end..] == now[at..][end - at..] == was[at..][end - at..] == was[end..];
    assert ColumnsAscend(rows, was) by {
      forall i, j | 0 <= i < j < |was|
        ensures At(rows, was[i]).col <= At(rows, was[j]).col
      {
        assert ByTexel(rows)(was[i], was[j]);
      }
    }
    ColumnRunEdges(rows, was, at, end);
    ColumnInClassOrder(rows, was, at, end);
    SplitPrefix(next, at, end);
    SplitPrefix(was, at, end);
    forall k: nat | k in next[..at]
      ensures At(rows, k).col < col
    {
      assert k in was[..at];
    }
    JoinSides(rows, next[..at], part, col);
  }

  lemma ColumnInClassOrder(rows: seq<LodRow>, was: seq<nat>, at: nat, end: nat)
    requires Pairwise(was, ByTexel(rows)) && at <= end <= |was|
    requires forall i :: at <= i < end ==> At(rows, was[i]).col == At(rows, was[at]).col
    ensures var part := Concat(was[at..end], ClassKey(rows), 3);
            && Pairwise(part, InClassOrder(rows))
            && (forall k: nat :: k in part <==> k in was[at..end])
            && (forall k: nat :: k in part ==> At(rows, k).col == At(rows, was[at]).col)
  {
    var slice := was[at..end];
    StableSortRefines(slice, ClassKey(rows), 3, ByTexel(rows));
    ConcatMembers(slice, ClassKey(rows), 3);
    assert forall i :: 0 <= i < |slice| ==> slice[i] == was[at + i];
  }

  ghost predicate ColumnsAscend(rows: seq<LodRow>, s: seq<nat>) {
    forall i, j :: 0 <= i < j < |s| ==> At(rows, s[i]).col <= At(rows, s[j]).col
  }

  /** `at` separates earlier columns from later ones. */
  ghost predicate ColumnBoundary(rows: seq<LodRow>, s: seq<nat>, at: nat) {
    at <= |s| && forall i, j :: 0 <= i < at <= j < |s| ==> At(rows, s[i]).col < At(rows, s[j]).col
  }

  /** A column run holds one column, and everything after it lies in later columns. */
  lemma ColumnRunEdges(rows: seq<LodRow>, s: seq<nat>, at: nat, end: nat)
    requires ColumnsAscend(rows, s) && at < |s| && end == at + ColumnRun(rows, s[at..])
    ensures end <= |s| && forall i :: at <= i < end ==> At(rows, s[i]).col == At(rows, s[at]).col
    ensures ColumnBoundary(rows, s, end)
  {
    var rest, n := s[at..], end - at;
    forall i | at <= i < end
      ensures At(rows, s[i]).col == At(rows, s[at]).col
    {
      assert s[i] == rest[i - at];
    }
    if n < |rest| {
      assert At(rows, rest[n]).col != At(rows, rest[0]).col;
      assert rest[n] == s[end] && rest[0] == s[at];
    }
  }

  lemma JoinSides(rows: seq<LodRow>, a: seq<nat>, b: seq<nat>, col: int)
    requires Pairwise(a, BySide(rows)) && Pairwise(b, InClassOrder(rows))
    requires forall k: nat :: k in a ==> At(rows, k).col < col
    requires forall k: nat :: k in b ==> At(rows, k).col == col
    ensures Pairwise(a + b, BySide(rows))
  {
    forall i, j | 0 <= i < j < |a + b|
      ensures LessB(rows, (a + b)[i], (a + b)[j])
    {
      var p, q := (a + b)[i], (a + b)[j];
      if |a| <= i {
        assert p in b && q in b && InClassOrder(rows)(p, q);
      } else if |a| <= j {
        assert p in a && At(rows, p).col < col;
        assert q in b && At(rows, q).col == col;
      } else {
        assert BySide(rows)(p, q);
      }
    }
  }

  /** The kept rows grouped by column and side class, by whichever sort the key span admits. */
  method TierBOrder(rows: seq<LodRow>, kept: seq<nat>, fast: bool) returns (order: seq<nat>)
    requires Pairwise(kept, ByTexel(rows))
    ensures Pairwise(order, BySide(rows))
    ensures forall k: nat :: k in order <==> k in kept
  {
    if fast {
      var buffer := new nat[|kept|](i requires 0 <= i < |kept| => kept[i]);
      var scratch := new nat[|kept|](_ => 0);
      assert buffer[..] == kept;
      PartitionKeptBySide(buffer, rows, scratch);
      order := buffer[..];
    } else {
      assert Distinct(kept);
      SortEnumerates(kept, BySide(rows), (a: nat, b: nat) => LessOrEqual(BySide(rows), a, b));
      order := Sort(kept, (a: nat, b: nat) => LessOrEqual(BySide(rows), a, b));
    }
  }
}

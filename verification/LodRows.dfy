/**
 Keying bake rows to their texel before reduction (crates/moon-chart/src/tick_volume.rs). The
 shader's affine transforms are taken as given: a tick arrives with its unrounded texel position.
 */
module LodRows {
  import opened Floats
  import opened Seqs
  import opened Sorting
  import opened CountingSort

  datatype Tick = Tick(slot: nat, sx: Float, sy: Float, side: nat, qty: Float)

  /** One input row keyed to its texel; its index in the row list is its draw order. */
  datatype LodRow = LodRow(slot: nat, col: int, row: int, side: nat, qty: Float)

  datatype BakeColumns = BakeColumns(width: real, height: real, markerHalf: real, bubbles: bool)

  /** Ring slots kept for each pass, in draw order. */
  class LodPick {
    var cross: seq<nat>
    var volume: seq<nat>

    constructor ()
      ensures cross == [] && volume == []
    {
      cross, volume := [], [];
    }
  }

  datatype KeySpan = KeySpan(finite: bool, colMin: int, colMax: int, rowMin: int, rowMax: int)

  const I64_MIN: int := -0x8000_0000_0000_0000
  const I64_MAX: int := 0x7fff_ffff_ffff_ffff

  function Round(f: Float): Float {
    if f.Fin? then Fin(RoundTiesEven(f.v) as real) else f
  }

  /** Rust's saturating `as i64`. */
  function ToKey(f: Float): int {
    match f
    case NaN => 0
    case NegInf => I64_MIN
    case PosInf => I64_MAX
    case Fin(v) => if v.Floor < I64_MIN then I64_MIN else if v.Floor > I64_MAX then I64_MAX else v.Floor
  }

  function KeyRow(t: Tick): LodRow {
    LodRow(t.slot, ToKey(Round(t.sx)), ToKey(Round(t.sy)), t.side, t.qty)
  }

  function Keyed(ticks: seq<Tick>, drawn: Tick -> bool): seq<LodRow> {
    var kept := Filter(ticks, drawn);
    seq(|kept|, i requires 0 <= i < |kept| => KeyRow(kept[i]))
  }

  ghost predicate SpanCovers(rows: seq<LodRow>, span: KeySpan) {
    span.finite ==> forall i :: 0 <= i < |rows| ==>
      span.colMin <= rows[i].col <= span.colMax && span.rowMin <= rows[i].row <= span.rowMax
  }

  /** Keys the drawn rows, tracking the span of their finite keys. */
  method KeyRows(ticks: seq<Tick>, drawn: Tick -> bool) returns (rows: seq<LodRow>, span: KeySpan)
    ensures rows == Keyed(ticks, drawn) && SpanCovers(rows, span)
  {
    rows, span := [], KeySpan(true, I64_MAX, I64_MIN, I64_MAX, I64_MIN);
    var i := 0;
    while i < |ticks|
      invariant 0 <= i <= |ticks|
      invariant rows == Keyed(ticks[..i], drawn) && SpanCovers(rows, span)
    {
      var t := ticks[i];
      assert ticks[..i + 1][..i] == ticks[..i];
      if drawn(t) {
        var key := KeyRow(t);
        if t.sx.Fin? && t.sy.Fin? {
          span := span.(colMin := if key.col < span.colMin then key.col else span.colMin,
                        colMax := if key.col > span.colMax then key.col else span.colMax,
                        rowMin := if key.row < span.rowMin then key.row else span.rowMin,
                        rowMax := if key.row > span.rowMax then key.row else span.rowMax);
        } else {
          span := span.(finite := false);
        }
        rows := rows + [key];
      }
      i := i + 1;
    }
    assert ticks[..i] == ticks;
  }

  /** Bucket count of `min..=max` when it fits the counting-sort budget. */
  function BucketCount(min: int, max: int, n: nat): Option<nat> {
    if min > max then None
    else if max - min + 1 <= 4 * n + 4096 then Some(max - min + 1) else None
  }

  function ColBuckets(span: KeySpan, n: nat): Option<nat> {
    if span.finite then BucketCount(span.colMin, span.colMax, n) else None
  }

  function RowBuckets(span: KeySpan, n: nat): Option<nat> {
    if span.finite then BucketCount(span.rowMin, span.rowMax, n) else None
  }

  /** Row `k`, or a neutral row for an index nobody asks about. */
  function At(rows: seq<LodRow>, k: nat): LodRow {
    if k < |rows| then rows[k] else LodRow(0, 0, 0, 0, NaN)
  }

  function ColKey(rows: seq<LodRow>, min: int): nat -> nat {
    (k: nat) => if At(rows, k).col >= min then At(rows, k).col - min else 0
  }

  function RowKey(rows: seq<LodRow>, min: int): nat -> nat {
    (k: nat) => if At(rows, k).row >= min then At(rows, k).row - min else 0
  }

  lemma IndicesEnumerate(n: nat)
    ensures Enumerates(Indices(n), n, (a: nat, b: nat) => a < b)
  {
    forall k: nat | k < n
      ensures k in Indices(n)
    {
      assert Indices(n)[k] == k;
    }
  }

  /** `s` holds every row index, each once, in the order `lt`. */
  ghost predicate Enumerates(s: seq<nat>, n: nat, lt: (nat, nat) -> bool) {
    Pairwise(s, lt) && forall k: nat :: k in s <==> k < n
  }

  /** The comparison-sort fallback: a sort by a total key enumerates in that key's order. */
  lemma SortEnumerates(s: seq<nat>, lt: (nat, nat) -> bool, le: (nat, nat) -> bool)
    requires TotalPreorder(le) && Distinct(s)
    requires forall a: nat, b: nat :: lt(a, b) <==> le(a, b) && a != b
    ensures Pairwise(Sort(s, le), lt)
    ensures forall k: nat :: k in Sort(s, le) <==> k in s
  {
    var r := Sort(s, le);
    SortSorted(s, le);
    PermutationMembers(s, r);
    DistinctPermutation(s, r);
  }

  /** Ring slots of the picked rows. */
  function Slots(rows: seq<LodRow>, picks: seq<nat>): seq<nat> {
    seq(|picks|, i requires 0 <= i < |picks| => At(rows, picks[i]).slot)
  }

  /** The flagged rows' slots in draw order. */
  method CollectSlots(rows: seq<LodRow>, keep: seq<bool>, ghost p: nat -> bool) returns (slots: seq<nat>)
    requires |keep| == |rows| && forall k :: 0 <= k < |rows| ==> (keep[k] <==> p(k))
    ensures slots == Slots(rows, Filter(Indices(|rows|), p))
  {
    slots := [];
    var k := 0;
    while k < |rows|
      invariant 0 <= k <= |rows|
      invariant slots == Slots(rows, Filter(Indices(k), p))
    {
      assert Indices(k + 1)[..k] == Indices(k);
      if keep[k] {
        slots := slots + [rows[k].slot];
      }
      k := k + 1;
    }
  }
}

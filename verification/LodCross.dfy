/**
 Reducing dense trade crosses to what a bitmap can show
 (crates/moon-chart/src/tick_volume.rs, `reduce_crosses`).
 */
module LodCross {
  import opened Floats
  import opened Seqs
  import opened LodRows

  const LOD_MAX_ROWS: nat := 32

  // ---- which rows survive ----

  predicate SameTexel(a: LodRow, b: LodRow) {
    a.col == b.col && a.row == b.row
  }

  function Class(r: LodRow): (c: nat)
    ensures c <= 2
  {
    if r.side < 2 then r.side else 2
  }

  /** Nothing drawn later lands on the same texel. */
  predicate LastOfTexel(rows: seq<LodRow>, k: nat) {
    k < |rows| && forall j :: k < j < |rows| ==> !SameTexel(rows[j], rows[k])
  }

  ghost function Column(rows: seq<LodRow>, col: int): set<nat> {
    set k: nat | k < |rows| && LastOfTexel(rows, k) && rows[k].col == col
  }

  ghost function Group(rows: seq<LodRow>, col: int, side: nat): set<nat> {
    set k: nat | k < |rows| && LastOfTexel(rows, k) && rows[k].col == col && Class(rows[k]) == side
  }

  /** The members of `k`'s column and side class on lower texel rows. */
  ghost function Ahead(rows: seq<LodRow>, k: nat): set<nat>
    requires k < |rows|
  {
    set j | j in Group(rows, rows[k].col, Class(rows[k])) && rows[j].row < rows[k].row
  }

  function Stride(n: nat): (s: nat)
    ensures s >= 1 && n <= s * LOD_MAX_ROWS
  {
    var s := (n + LOD_MAX_ROWS - 1) / LOD_MAX_ROWS;
    if s < 1 then 1 else s
  }

  /** Whether the sampling keeps the member at rank `pos` of a class of `n`. */
  predicate Sampled(pos: nat, n: nat) {
    pos % Stride(n) == 0 || pos + 1 == n
  }

  /** The rows the reduction keeps, stated without any sorting. */
  ghost predicate CrossKept(rows: seq<LodRow>, k: nat) {
    && k < |rows|
    && LastOfTexel(rows, k)
    && (|| |Column(rows, rows[k].col)| <= LOD_MAX_ROWS
        || Sampled(|Ahead(rows, k)|, |Group(rows, rows[k].col, Class(rows[k]))|))
  }

  ghost function CrossPicks(rows: seq<LodRow>): seq<nat> {
    Filter(Indices(|rows|), (k: nat) => CrossKept(rows, k))
  }
}

/**
 The cross reduction as a whole (crates/moon-chart/src/tick_volume.rs, `reduce_crosses`).
 */
module LodReduceCross {
  import opened Floats
  import opened Seqs
  import opened LodRows
  import opened LodTicks
  import opened LodCross
  import opened LodOrder
  import opened LodSampling
  import opened LodImage

  /** Reduces keyed rows to the last row per texel, sampled where a column stays crowded. */
  method ReduceRows(rows: seq<LodRow>, span: KeySpan) returns (slots: seq<nat>)
    requires SpanCovers(rows, span)
    ensures slots == Slots(rows, CrossPicks(rows))
  {
    var n := |rows|;
    var order := TierAOrder(rows, span);
    var kept := LastPerTexel(rows, order);
    var fast := ColBuckets(span, n).Some? && RowBuckets(span, n).Some?;
    var grouped := TierBOrder(rows, kept, fast);
    assert forall i :: 0 <= i < |grouped| ==> grouped[i] in grouped;
    var keep := SampleColumns(rows, grouped);
    slots := CollectSlots(rows, keep, (k: nat) => CrossKept(rows, k));
  }

  method ReduceCrosses(ticks: seq<Tick>, g: BakeColumns, out: LodPick)
    modifies out
    ensures out.cross == Slots(CrossRows(ticks, g), CrossPicks(CrossRows(ticks, g)))
    ensures Addressable(g) ==> out.cross == PickSlots(ticks, KeptTicks(ticks, g))
    ensures out.volume == old(out.volume)
  {
    if Addressable(g) { KeptRowsAreTicks(ticks, g); }
    out.cross := [];
    var rows, span := KeyRows(ticks, (t: Tick) => CrossDrawn(g, t));
    if |rows| == 0 {
      return;
    }
    out.cross := ReduceRows(rows, span);
  }
}

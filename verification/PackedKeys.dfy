/**
 The packed sort key of prints: one scalar comparison for price and then time
 (crates/moon-chart/src/clusters.rs, `price_time_order`).
 */
module PackedKeys {
  import opened Floats
  import opened Prints
  import opened Discs

  const TWO52: nat := 0x10_0000_0000_0000
  const TWO63: int := 0x8000_0000_0000_0000
  const TWO64: int := 0x1_0000_0000_0000_0000

  /** IEEE 754 totalOrder of a double given by its bits, as a signed rank. */
  function TotalRank(bits: nat): int
    requires bits < TWO64
  {
    if bits < TWO63 then bits else -(bits - TWO63) - 1
  }

  /** The bit trick: flip everything of a negative, only the sign of the rest. */
  function TimeRank(bits: nat): nat
    requires bits < TWO64
  {
    if bits < TWO63 then bits + TWO63 else TWO64 - 1 - bits
  }

  function PackedKey(key: int, bits: nat): nat
    requires -TWO63 <= key < TWO63 && bits < TWO64
  {
    (key + TWO63) * TWO64 + TimeRank(bits)
  }

  /** One scalar comparison of packed keys is price order, then total time order. */
  lemma PackedKeyOrders(k1: int, b1: nat, k2: int, b2: nat)
    requires -TWO63 <= k1 < TWO63 && -TWO63 <= k2 < TWO63 && b1 < TWO64 && b2 < TWO64
    ensures PackedKey(k1, b1) < PackedKey(k2, b2) <==> k1 < k2 || (k1 == k2 && TotalRank(b1) < TotalRank(b2))
    ensures PackedKey(k1, b1) == PackedKey(k2, b2) <==> k1 == k2 && b1 == b2
  {
  }

  // ---- what the bits stand for ----

  /** The magnitude of a double without its sign bit, in units of the smallest subnormal. */
  function Magnitude(mag: nat): nat {
    var (e, m) := (mag / TWO52, mag % TWO52);
    if e == 0 then m else (TWO52 + m) * Pow2(e - 1)
  }

  lemma MagnitudeStep(mag: nat)
    ensures Magnitude(mag) < Magnitude(mag + 1)
  {
    var e, m := mag / TWO52, mag % TWO52;
    if m + 1 < TWO52 {
      assert (mag + 1) / TWO52 == e && (mag + 1) % TWO52 == m + 1;
    } else {
      assert (mag + 1) / TWO52 == e + 1 && (mag + 1) % TWO52 == 0;
    }
  }

  /** A larger bit pattern is a larger magnitude, across exponents and down through the subnormals. */
  lemma {:induction false} MagnitudeGrows(a: nat, b: nat)
    requires a < b
    ensures Magnitude(a) < Magnitude(b)
    decreases b
  {
    MagnitudeStep(b - 1);
    if a < b - 1 { MagnitudeGrows(a, b - 1); }
  }

  function Units(bits: nat): int {
    if bits < TWO63 then Magnitude(bits) else 0 - Magnitude(bits - TWO63)
  }

  /** The real number a finite double stands for. */
  function TimeOf(bits: nat): real {
    Units(bits) as real / Pow2(1074) as real
  }

  /** The total order of doubles is the order of the numbers, a negative zero before the positive one. */
  lemma TotalRankIsOrder(b1: nat, b2: nat)
    requires b1 < TWO64 && b2 < TWO64
    ensures TotalRank(b1) < TotalRank(b2) <==> TimeOf(b1) < TimeOf(b2) || (b1 == TWO63 && b2 == 0)
  {
    QuotientOrder(Units(b1), Units(b2), Pow2(1074));
    var m1, m2 := if b1 < TWO63 then b1 else b1 - TWO63, if b2 < TWO63 then b2 else b2 - TWO63;
    if m1 < m2 { MagnitudeGrows(m1, m2); }
    if m2 < m1 { MagnitudeGrows(m2, m1); }
    if 0 < m1 { MagnitudeGrows(0, m1); }
    if 0 < m2 { MagnitudeGrows(0, m2); }
  }

  lemma QuotientOrder(x: int, y: int, d: nat)
    requires d > 0
    ensures x as real / d as real < y as real / d as real <==> x < y
  {
  }

  // ---- the order of prints ----

  /** The doubles in which the prints hold their times. */
  ghost predicate Stamped(prints: seq<Print>, bits: seq<nat>) {
    && |bits| == |prints|
    && forall i :: 0 <= i < |prints| ==>
         bits[i] < TWO64 && TimeOf(bits[i]) == prints[i].time && -TWO63 <= prints[i].key < TWO63
  }

  /**
   A stable comparison of packed keys is the order by price, time and tape position; only where two
   equal times are zeros of different signs does the negative one come first instead.
   */
  lemma PackedKeyIsBefore(prints: seq<Print>, bits: seq<nat>, a: nat, b: nat)
    requires Stamped(prints, bits) && a < |prints| && b < |prints|
    ensures var (ka, kb) := (PackedKey(prints[a].key, bits[a]), PackedKey(prints[b].key, bits[b]));
            (ka < kb || (ka == kb && a <= b))
            <==> if prints[a].key == prints[b].key && prints[a].time == prints[b].time && bits[a] != bits[b]
                 then bits[a] == TWO63
                 else Before(prints, a, b)
  {
    PackedKeyOrders(prints[a].key, bits[a], prints[b].key, bits[b]);
    TotalRankIsOrder(bits[a], bits[b]);
    TotalRankIsOrder(bits[b], bits[a]);
  }
}

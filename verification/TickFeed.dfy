/**
 A combo layer's tick history over a whole run: the resident ring, the uploads still pending, and the
 lateness evidence that is kept beside them (crates/moon-ui-gpui/src/chartdx/combo.rs).
 */
module TickFeed {
  import opened Floats
  import opened Seqs
  import opened TickTime
  import opened TickRing

  const MIN_COMBO_CAPACITY: nat := 1
  const MAX_PRICE_LINE_CAPACITY: nat := 0x100_0000
  const U32_MAX: nat := 0xFFFF_FFFF

  /** A ring size asked for, brought into the range the device buffers allow. */
  function Sanitized(capacity: nat): (c: nat)
    ensures MIN_COMBO_CAPACITY <= c <= U32_MAX
  {
    if capacity < MIN_COMBO_CAPACITY then MIN_COMBO_CAPACITY else if capacity > U32_MAX then U32_MAX else capacity
  }

  function SanitizedLines(capacity: nat): nat {
    var c := Sanitized(capacity);
    if c < MAX_PRICE_LINE_CAPACITY then c else MAX_PRICE_LINE_CAPACITY
  }

  /** Sizes in range are taken as asked; others go to the nearer end of it. */
  lemma SizesTaken(capacity: nat, other: nat)
    requires 1 <= other <= 0xFFFF_FFFF
    ensures 1 <= capacity <= 0xFFFF_FFFF ==> Sanitized(capacity) == capacity
    ensures Between(capacity, Sanitized(capacity), other)
    ensures 1 <= capacity <= 0x100_0000 ==> SanitizedLines(capacity) == capacity
    ensures other <= 0x100_0000 ==> Between(capacity, SanitizedLines(capacity), other)
    ensures 1 <= SanitizedLines(capacity) <= 0x100_0000
  {
  }

  predicate Between(a: nat, b: nat, c: nat) { a <= b <= c || c <= b <= a }

  class ComboLayer {
    var ring: CrossRing<Cross>
    var priceLines: nat
    var order: TickTimeOrder
    var pendingReset: Option<seq<Cross>>
    var pendingAppend: seq<Cross>
    /** Every row taken in since the history was last replaced, starting with what that kept. */
    ghost var stream: seq<Cross>

    /** What the next upload will publish. */
    ghost function Pending(): seq<Cross>
      reads this, ring
    {
      PendingRing(ring.buf, ring.head, ring.count, ring.capacity, pendingReset, pendingAppend)
    }

    /** The evidence is that of the whole stream, and the pending ring is the stream's tail. */
    ghost predicate Valid()
      reads this, ring, order
    {
      && ring.Valid() && order.Valid()
      && order.seen == Times(stream) && Pending() == Tail(stream, ring.capacity)
    }

    constructor ()
      ensures Valid() && stream == [] && ring.capacity == MIN_COMBO_CAPACITY && fresh(ring) && fresh(order)
    {
      ring := new CrossRing(MIN_COMBO_CAPACITY, Cross(Fin(0.0), 0));
      priceLines := MIN_COMBO_CAPACITY;
      order := new TickTimeOrder();
      pendingReset, pendingAppend, stream := None, [], [];
      new;
      EmptyPending(ring.buf, ring.head, ring.count, MIN_COMBO_CAPACITY);
    }

    /** Replaces the history; only what a ring can hold of it is ever published. */
    method Reset(data: seq<Cross>)
      requires Valid()
      modifies this
      ensures Valid() && ring == old(ring) && fresh(order) && stream == Tail(data, ring.capacity)
    {
      order := new TickTimeOrder();
      order.Extend(Times(Tail(data, ring.capacity)));
      pendingReset, pendingAppend := Some(data), [];
      stream := Tail(data, ring.capacity);
      PendingAfterReset(ring.buf, ring.head, ring.count, ring.capacity, data);
    }

    /**
     A new size, of the ticks or of the price lines, retires the resident rows with their storage; a
     pending replacement survives, queued rows do not. The sizes in force change nothing.
     */
    method SetCapacity(crosses: nat, lines: nat)
      requires Valid()
      modifies this
      ensures Valid() && ring.capacity == Sanitized(crosses) && priceLines == SanitizedLines(lines)
      ensures pendingReset == old(pendingReset)
      ensures if Sanitized(crosses) == old(ring.capacity) && SanitizedLines(lines) == old(priceLines)
              then stream == old(stream) && ring == old(ring) && order == old(order)
              else
                && fresh(ring) && fresh(order)
                && stream == (if pendingReset.Some? then Tail(pendingReset.value, ring.capacity) else [])
    {
      var capacity := Sanitized(crosses);
      if capacity == ring.capacity && SanitizedLines(lines) == priceLines {
        return;
      }
      priceLines := SanitizedLines(lines);
      ring := new CrossRing(capacity, Cross(Fin(0.0), 0));
      pendingAppend := [];
      var kept := PendingRing(ring.buf, ring.head, ring.count, capacity, pendingReset, []);
      order := new TickTimeOrder();
      order.Extend(Times(kept));
      stream := kept;
      if pendingReset.Some? {
        PendingAfterReset(ring.buf, ring.head, ring.count, capacity, pendingReset.value);
      } else {
        EmptyPending(ring.buf, ring.head, ring.count, capacity);
      }
    }

    /** Takes in live rows, keeping no more of the queue than the ring can hold once it is twice as long. */
    method Append(data: seq<Cross>)
      requires Valid()
      modifies this, order
      ensures Valid() && ring == old(ring) && order == old(order) && stream == old(stream) + data
    {
      if data == [] {
        return;
      }
      order.Extend(Times(data));
      TimesConcat(stream, data);
      PendingAfterAppend(ring.buf, ring.head, ring.count, ring.capacity, pendingReset, pendingAppend, data, stream);
      pendingAppend := pendingAppend + data;
      if |pendingAppend| > 2 * ring.capacity {
        PendingAfterDrain(ring.buf, ring.head, ring.count, ring.capacity, pendingReset, pendingAppend);
        pendingAppend := Tail(pendingAppend, ring.capacity);
      }
      stream := stream + data;
    }

    /** Moves everything pending into the resident ring. */
    method ApplyUploads()
      requires Valid()
      modifies this, ring
      ensures Valid() && ring == old(ring) && order == old(order) && stream == old(stream)
      ensures pendingReset.None? && pendingAppend == [] && ring.Contents() == Tail(stream, ring.capacity)
    {
      ring.Upload(pendingReset, pendingAppend);
      pendingReset, pendingAppend := None, [];
      PendingAfterUpload(ring.buf, ring.head, ring.count, ring.capacity);
    }

    /** A copy of the candidate rows of a window: the retained rows inside it, all of them and in order. */
    method TickSnapshot(from: Float, to: Float) returns (out: seq<Cross>)
      requires Valid()
      ensures Filter(out, (c: Cross) => InWindow(c.time, from, to))
           == Filter(Tail(stream, ring.capacity), (c: Cross) => InWindow(c.time, from, to))
    {
      SnapshotKeepsWindow(stream, ring.capacity, order.maxLateness, from, to);
      out := SnapshotCrosses(ring.buf, ring.head, ring.count, ring.capacity, pendingReset, pendingAppend,
                             order.maxLateness, from, to);
    }
  }

  lemma TimesConcat(a: seq<Cross>, b: seq<Cross>)
    ensures Times(a + b) == Times(a) + Times(b)
  {
  }

  lemma EmptyPending(buf: seq<Cross>, head: nat, count: nat, capacity: nat)
    requires 0 < capacity && count == 0
    ensures PendingRing(buf, head, count, capacity, None, []) == []
  {
    PendingRingIsTail(buf, head, count, capacity, None, []);
  }

  lemma PendingAfterReset(buf: seq<Cross>, head: nat, count: nat, capacity: nat, data: seq<Cross>)
    ensures PendingRing(buf, head, count, capacity, Some(data), []) == Tail(Tail(data, capacity), capacity)
  {
    PendingRingIsTail(buf, head, count, capacity, Some(data), []);
    assert Tail(data, capacity) + [] == Tail(data, capacity);
  }

  /** Queueing rows adds them to the tail. */
  lemma PendingAfterAppend(buf: seq<Cross>, head: nat, count: nat, capacity: nat, reset: Option<seq<Cross>>,
                           append: seq<Cross>, data: seq<Cross>, stream: seq<Cross>)
    requires PendingRing(buf, head, count, capacity, reset, append) == Tail(stream, capacity)
    ensures PendingRing(buf, head, count, capacity, reset, append + data) == Tail(stream + data, capacity)
  {
    var before := Before(buf, head, count, capacity, reset);
    PendingRingIsTail(buf, head, count, capacity, reset, append);
    PendingRingIsTail(buf, head, count, capacity, reset, append + data);
    TailOfTail(stream, data, capacity);
    TailOfTail(before + append, data, capacity);
    assert before + append + data == before + (append + data);
  }

  /** Dropping from an overlong queue what no ring could hold changes nothing that is published. */
  lemma PendingAfterDrain(buf: seq<Cross>, head: nat, count: nat, capacity: nat, reset: Option<seq<Cross>>,
                          append: seq<Cross>)
    requires |append| >= capacity
    ensures PendingRing(buf, head, count, capacity, reset, Tail(append, capacity))
         == PendingRing(buf, head, count, capacity, reset, append)
  {
    var before := Before(buf, head, count, capacity, reset);
    PendingRingIsTail(buf, head, count, capacity, reset, append);
    PendingRingIsTail(buf, head, count, capacity, reset, Tail(append, capacity));
    TailOfLong(before, append, capacity);
    TailOfLong(before, Tail(append, capacity), capacity);
  }

  lemma TailOfLong<T>(a: seq<T>, b: seq<T>, n: nat)
    requires |b| >= n
    ensures Tail(a + b, n) == Tail(b, n) && Tail(Tail(b, n), n) == Tail(b, n)
  {
  }

  lemma PendingAfterUpload(buf: seq<Cross>, head: nat, count: nat, capacity: nat)
    requires 0 < capacity && count <= |buf| <= capacity && head < capacity && (count < capacity ==> head == count)
    ensures PendingRing(buf, head, count, capacity, None, []) == Chronological(buf, head, count, capacity)
  {
    PendingRingIsTail(buf, head, count, capacity, None, []);
    var rows := Chronological(buf, head, count, capacity);
    assert rows + [] == rows;
  }
}

/**
 The native tick ring: the upload that fills it (crates/moon-ui-gpui/src/chartdx/types.rs) and the
 read-only views of what the next upload will publish (crates/moon-chart/src/tick_volume.rs).
 */
module TickRing {
  import opened Floats
  import opened Seqs
  import opened TickTime

  function OldCount<T>(resident: seq<T>, count: nat, capacity: nat, reset: Option<seq<T>>): (r: nat)
    ensures r <= capacity
  {
    var c := if reset.Some? then |reset.value| else if count <= |resident| then count else |resident|;
    if c <= capacity then c else capacity
  }

  function Total<T>(resident: seq<T>, count: nat, capacity: nat, reset: Option<seq<T>>, append: seq<T>): nat {
    OldCount(resident, count, capacity, reset) + |append|
  }

  /** The physical slot of chronological row `at` in a ring whose oldest row sits at `origin`. */
  function Slot(origin: nat, at: nat, capacity: nat): (slot: nat)
    requires 0 < capacity
    ensures slot < capacity && (origin + at < capacity ==> slot == origin + at)
  {
    (origin + at) % capacity
  }

  /** Row `index` of the retained tail, read straight out of the resident/reset/append slices. */
  function PendingRingAt<T>(resident: seq<T>, head: nat, count: nat, capacity: nat, reset: Option<seq<T>>,
                            append: seq<T>, index: nat): T
    requires index < Total(resident, count, capacity, reset, append)
    requires index < capacity
  {
    var oldCount := OldCount(resident, count, capacity, reset);
    var total := oldCount + |append|;
    var at := (if total <= capacity then 0 else total - capacity) + index;
    if at >= oldCount then append[at - oldCount]
    else if reset.Some? then reset.value[|reset.value| - oldCount + at]
    else
      resident[Slot(Oldest(head, oldCount, capacity), at, capacity)]
  }

  /** Where the oldest row sits: behind the head of a full ring, else at the front. */
  function Oldest(head: nat, held: nat, capacity: nat): (origin: nat)
    requires 0 < capacity
    ensures origin < capacity && (held < capacity ==> origin == 0)
  {
    if held >= capacity then head % capacity else 0
  }

  /** The whole next-upload ring, oldest row first. */
  function PendingRing<T>(resident: seq<T>, head: nat, count: nat, capacity: nat, reset: Option<seq<T>>,
                          append: seq<T>): (r: seq<T>)
  {
    var total := Total(resident, count, capacity, reset, append);
    seq(if total <= capacity then total else capacity,
        i requires 0 <= i && i < total && i < capacity =>
          PendingRingAt(resident, head, count, capacity, reset, append, i))
  }

  /** The chronological rows a physical ring holds. */
  ghost function Chronological<T>(buf: seq<T>, head: nat, count: nat, capacity: nat): (r: seq<T>) {
    if count < capacity && count <= |buf| then buf[..count]
    else if 0 < capacity <= |buf| then buf[head % capacity..capacity] + buf[..head % capacity]
    else []
  }

  /** What survives of the previous contents once a pending reset is taken into account. */
  ghost function Before<T>(resident: seq<T>, head: nat, count: nat, capacity: nat, reset: Option<seq<T>>): seq<T> {
    if reset.Some? then Tail(reset.value, capacity)
    else Chronological(resident, head, OldCount(resident, count, capacity, None), capacity)
  }

  lemma WrapIndex(origin: nat, at: nat, capacity: nat)
    requires origin < capacity && at < capacity
    ensures Slot(origin, at, capacity) == if origin + at < capacity then origin + at else origin + at - capacity
  {
  }

  lemma BeforeLength<T>(resident: seq<T>, head: nat, count: nat, capacity: nat, reset: Option<seq<T>>)
    requires 0 < capacity
    ensures |Before(resident, head, count, capacity, reset)| == OldCount(resident, count, capacity, reset)
  {
  }

  /** A surviving old row stands in its slot of the resident ring, or at its place in the pending reset. */
  lemma BeforeAt<T>(resident: seq<T>, head: nat, count: nat, capacity: nat, reset: Option<seq<T>>, at: nat)
    requires 0 < capacity && at < OldCount(resident, count, capacity, reset)
    ensures at < |Before(resident, head, count, capacity, reset)|
    ensures var n := OldCount(resident, count, capacity, reset);
            Before(resident, head, count, capacity, reset)[at]
            == if reset.Some? then reset.value[|reset.value| - n + at]
               else resident[Slot(Oldest(head, n, capacity), at, capacity)]
  {
    BeforeLength(resident, head, count, capacity, reset);
    if reset.None? {
      WrapIndex(Oldest(head, OldCount(resident, count, capacity, reset), capacity), at, capacity);
    }
  }

  lemma PendingRowIsTail<T>(resident: seq<T>, head: nat, count: nat, capacity: nat, reset: Option<seq<T>>,
                            append: seq<T>, index: nat)
    requires index < capacity && index < Total(resident, count, capacity, reset, append)
    ensures var all := Before(resident, head, count, capacity, reset) + append;
            var total := Total(resident, count, capacity, reset, append);
            var at := (if total <= capacity then 0 else total - capacity) + index;
            at < |all| && PendingRingAt(resident, head, count, capacity, reset, append, index) == all[at]
  {
    var n, before := OldCount(resident, count, capacity, reset), Before(resident, head, count, capacity, reset);
    var total := n + |append|;
    var at := (if total <= capacity then 0 else total - capacity) + index;
    BeforeLength(resident, head, count, capacity, reset);
    if at < n {
      BeforeAt(resident, head, count, capacity, reset, at);
      assert (before + append)[at] == before[at];
    } else {
      assert (before + append)[at] == append[at - n];
    }
  }

  /** The index arithmetic reads exactly the newest `capacity` rows of old contents plus appends. */
  lemma PendingRingIsTail<T>(resident: seq<T>, head: nat, count: nat, capacity: nat, reset: Option<seq<T>>,
                             append: seq<T>)
    ensures PendingRing(resident, head, count, capacity, reset, append)
         == Tail(Before(resident, head, count, capacity, reset) + append, capacity)
  {
    var ring := PendingRing(resident, head, count, capacity, reset, append);
    var all := Before(resident, head, count, capacity, reset) + append;
    if capacity > 0 {
      BeforeLength(resident, head, count, capacity, reset);
      forall i | 0 <= i < |ring| ensures ring[i] == Tail(all, capacity)[i] {
        PendingRowIsTail(resident, head, count, capacity, reset, append, i);
      }
    }
  }

  lemma SmallMod(x: nat, n: nat)
    requires x < n
    ensures x % n == x
  {
  }

  lemma NextSlot(head: nat, capacity: nat)
    requires head < capacity
    ensures (head + 1) % capacity == if head + 1 == capacity then 0 else head + 1
  {
  }

  /** Writing one row at the head drops the oldest row of a full ring and appends to any other. */
  lemma ChronologicalPush<T>(buf: seq<T>, head: nat, count: nat, capacity: nat, row: T)
    requires |buf| == capacity && head < capacity && count <= capacity
    requires count < capacity ==> head == count
    ensures (head + 1) % capacity == if head + 1 == capacity then 0 else head + 1
    ensures Chronological(buf[head := row], (head + 1) % capacity,
                          if count + 1 <= capacity then count + 1 else capacity, capacity)
         == Tail(Chronological(buf, head, count, capacity) + [row], capacity)
  {
    var next, at := buf[head := row], if head + 1 == capacity then 0 else head + 1;
    NextSlot(head, capacity);
    SmallMod(head, capacity);
    SmallMod(at, capacity);
    if count == capacity {
      assert Chronological(buf, head, count, capacity) == buf[head..] + buf[..head];
      assert Chronological(next, at, capacity, capacity) == next[at..] + next[..at];
    } else {
      assert next[..count + 1] == buf[..count] + [row];
      assert next[0..capacity] + next[..0] == next;
    }
  }

  /** The physical ring the GPU layer owns. */
  class CrossRing<T> {
    const capacity: nat
    const zero: T
    var buf: seq<T>
    var head: nat
    var count: nat

    ghost predicate Valid()
      reads this
    {
      && 0 < capacity
      && count <= |buf| <= capacity
      && head < capacity
      && (count < capacity ==> head == count)
    }

    ghost function Contents(): seq<T>
      reads this
    {
      Chronological(buf, head, count, capacity)
    }

    constructor (capacity: nat, zero: T)
      requires 0 < capacity
      ensures Valid() && Contents() == [] && this.capacity == capacity
    {
      this.capacity, this.zero, buf, head, count := capacity, zero, [], 0, 0;
    }

    method Reset(data: seq<T>)
      requires Valid()
      modifies this
      ensures Valid() && Contents() == Tail(data, capacity)
    {
      var start := if |data| <= capacity then 0 else |data| - capacity;
      buf := data[start..];
      count := |buf|;
      if count < capacity { SmallMod(count, capacity); }
      head := count % capacity;
    }

    method Append(data: seq<T>)
      requires Valid()
      modifies this
      ensures Valid() && Contents() == Tail(old(Contents()) + data, capacity)
    {
      if |data| == 0 {
        return;
      }
      if |data| >= capacity {
        Reset(data);
        assert Tail(old(Contents()) + data, capacity) == Tail(data, capacity);
        return;
      }
      if |buf| < capacity {
        ghost var grown := buf + seq(capacity - |buf|, _ => zero);
        assert grown[..count] == buf[..count];
        buf := buf + seq(capacity - |buf|, _ => zero);
      }
      AppendRows(data);
    }

    /** The row-by-row half of an append, once the storage has its full size. */
    method AppendRows(data: seq<T>)
      requires Valid() && |buf| == capacity
      modifies this
      ensures Valid() && Contents() == Tail(old(Contents()) + data, capacity)
    {
      ghost var was := Contents();
      var i := 0;
      assert was + data[..i] == was;
      while i < |data|
        invariant 0 <= i <= |data|
        invariant Valid() && |buf| == capacity
        invariant Contents() == Tail(was + data[..i], capacity)
      {
        AppendRow(data[i]);
        TailOfTail(was + data[..i], [data[i]], capacity);
        assert was + data[..i] + [data[i]] == was + data[..i + 1];
        i := i + 1;
      }
      assert data[..i] == data;
    }

    method AppendRow(row: T)
      requires Valid() && |buf| == capacity
      modifies this
      ensures Valid() && |buf| == capacity
      ensures Contents() == Tail(old(Contents()) + [row], capacity)
    {
      ChronologicalPush(buf, head, count, capacity, row);
      buf := buf[head := row];
      head := (head + 1) % capacity;
      count := if count + 1 <= capacity then count + 1 else capacity;
    }

    /** One GPU upload: an optional replacement of the contents, then the pending appends. */
    method Upload(reset: Option<seq<T>>, append: seq<T>)
      requires Valid()
      modifies this
      ensures Valid()
      ensures Contents() == PendingRing(old(buf), old(head), old(count), capacity, reset, append)
    {
      PendingRingIsTail(buf, head, count, capacity, reset, append);
      if reset.Some? {
        Reset(reset.value);
      }
      Append(append);
    }
  }

  // ---- window snapshot ----

  datatype Cross = Cross(time: Float, slot: nat)

  function Times(rows: seq<Cross>): (r: seq<Float>)
    ensures |r| == |rows|
  {
    seq(|rows|, i requires 0 <= i < |rows| => rows[i].time)
  }

  function Snapshot(ring: seq<Cross>, lateness: Float, from: Float, to: Float): seq<Cross> {
    var range := TimeRange(Times(ring), lateness, from, to);
    if range.0 <= range.1 then ring[range.0..range.1] else []
  }

  /** Copies the candidate rows of the next-upload ring. */
  method SnapshotCrosses(resident: seq<Cross>, head: nat, count: nat, capacity: nat, reset: Option<seq<Cross>>,
                         append: seq<Cross>, lateness: Float, from: Float, to: Float) returns (out: seq<Cross>)
    ensures out == Snapshot(PendingRing(resident, head, count, capacity, reset, append), lateness, from, to)
  {
    var samples := PendingRing(resident, head, count, capacity, reset, append);
    var start, end := TickTimeRange(Times(samples), lateness, from, to);
    RangeOrdered(Times(samples), lateness, from, to);
    out := samples[start..end];
  }

  /**
   A caller's exact time predicate sees the same rows, in the same order, through the snapshot as
   through the whole retained ring, for evidence gathered over the entire stream.
   */
  lemma SnapshotKeepsWindow(stream: seq<Cross>, capacity: nat, lateness: Float, from: Float, to: Float)
    requires Evidence(Times(stream), lateness)
    ensures Filter(Snapshot(Tail(stream, capacity), lateness, from, to), (c: Cross) => InWindow(c.time, from, to))
         == Filter(Tail(stream, capacity), (c: Cross) => InWindow(c.time, from, to))
  {
    var ring := Tail(stream, capacity);
    var keep := (c: Cross) => InWindow(c.time, from, to);
    assert Times(ring) == Tail(Times(stream), capacity);
    EvidenceCoversTail(Times(stream), lateness, capacity);
    RangeOrdered(Times(ring), lateness, from, to);
    var (start, end) := TimeRange(Times(ring), lateness, from, to);
    forall k | 0 <= k < |ring| && keep(ring[k])
      ensures start <= k < end
    {
      assert Times(ring)[k] == ring[k].time;
      RangeMissesNothing(Times(ring), lateness, from, to, k);
    }
    FilterSlice(ring, start, end, keep);
  }

  // ---- draw order ----

  datatype Run = Run(start: nat, len: nat)

  function Origin(head: nat, count: nat, capacity: nat): nat {
    if count == capacity && capacity > 0 then head % capacity else 0
  }

  /** Chronological bounds as at most two physical runs in ascending slot order. */
  function TickSlotRuns(start: nat, end: nat, head: nat, count: nat, capacity: nat): (r: (Run, Run)) {
    if end <= start || capacity == 0 then (Run(0, 0), Run(0, 0))
    else
      var len := end - start;
      var at := Slot(Origin(head, count, capacity), start, capacity);
      var first := if len <= capacity - at then len else capacity - at;
      var second := len - first;
      if second == 0 then (Run(at, first), Run(0, 0)) else (Run(0, second), Run(at, first))
  }

  ghost predicate InRun(slot: nat, run: Run) {
    run.start <= slot < run.start + run.len
  }

  /** The runs are disjoint, ascending, stay in the ring, and hold exactly the range's slots. */
  lemma SlotRunsCoverRange(start: nat, end: nat, head: nat, count: nat, capacity: nat, slot: nat)
    requires start <= end <= count <= capacity && 0 < capacity
    ensures var (a, b) := TickSlotRuns(start, end, head, count, capacity);
            && a.len + b.len == end - start
            && (b.len > 0 ==> a.start + a.len <= b.start)
            && (InRun(slot, a) || InRun(slot, b) <==>
                  exists i :: start <= i < end && slot == Slot(Origin(head, count, capacity), i, capacity))
  {
    var origin := Origin(head, count, capacity);
    var (a, b) := TickSlotRuns(start, end, head, count, capacity);
    forall i | start <= i < end
      ensures Slot(origin, i, capacity) == if origin + i < capacity then origin + i else origin + i - capacity
    {
      WrapIndex(origin, i, capacity);
    }
    if start < end {
      WrapIndex(origin, start, capacity);
      if InRun(slot, a) || InRun(slot, b) {
        var i := if start <= slot - origin < end then slot - origin else slot + capacity - origin;
        assert start <= i < end && slot == Slot(origin, i, capacity);
      }
    }
  }
}

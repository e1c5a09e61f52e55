/**
 The log panel's ring of lines and the cursors its readers chain (crates/moon-core/src/applog.rs).
 Every operation is one critical section under the ring's mutex.
 */
module AppLog {
  import opened Seqs

  type Line = string

  /** The count of pushed lines is unsigned 64-bit and saturates. */
  const MAX_PUSHED: nat := 0xffff_ffff_ffff_ffff

  /** What the ring holds and everything ever pushed into it. */
  datatype Held = Held(lines: seq<Line>, log: seq<Line>)
  {
    /** The held lines are the newest ones. */
    predicate Sound() { |lines| <= |log| && lines == log[|log| - |lines|..] }

    /** How many lines are gone. */
    function Evicted(): nat
      requires Sound()
    {
      |log| - |lines|
    }

    function Pushed(): nat { if |log| <= MAX_PUSHED then |log| else MAX_PUSHED }
  }

  function AtLeastOne(capacity: nat): nat { if capacity < 1 then 1 else capacity }

  /** Room for one more line at the capacity of the moment. */
  function Trimmed(lines: seq<Line>, capacity: nat): seq<Line> {
    Tail(lines, AtLeastOne(capacity) - 1)
  }

  function PushTo(h: Held, line: Line, capacity: nat): Held {
    Held(Trimmed(h.lines, capacity) + [line], h.log + [line])
  }

  /** How many of the newest lines a reader at a cursor has not seen. */
  function Unseen(pushed: nat, len: nat, cursor: nat): (take: nat)
    ensures take <= len
  {
    var missed := if cursor < pushed then pushed - cursor else 0;
    if missed < len then missed else len
  }

  class Ring {
    var lines: seq<Line>
    var pushed: nat
    ghost var log: seq<Line>

    ghost function Now(): Held
      reads this
    {
      Held(lines, log)
    }

    ghost predicate Valid()
      reads this
    {
      Now().Sound() && pushed == Now().Pushed()
    }

    constructor ()
      ensures Valid() && Now() == Held([], [])
    {
      lines, pushed, log := [], 0, [];
    }

    /** Drops the oldest lines until one more fits; the capacity is live, so this is a loop. */
    method Evict(cap: nat)
      requires cap >= 1
      modifies this`lines
      ensures lines == Tail(old(lines), cap - 1)
    {
      ghost var was := lines;
      while |lines| >= cap
        invariant |lines| <= |was| && lines == Tail(was, |lines|)
        invariant |lines| >= cap - 1 || lines == was
      {
        lines := lines[1..];
      }
    }

    method Push(line: Line, capacity: nat)
      requires Valid()
      modifies this
      ensures Valid() && Now() == PushTo(old(Now()), line, capacity)
    {
      Evict(if capacity < 1 then 1 else capacity);
      lines := lines + [line];
      log := log + [line];
      if pushed < MAX_PUSHED {
        pushed := pushed + 1;
      }
    }

    method Since(cursor: nat) returns (unseen: seq<Line>, next: nat)
      requires Valid()
      ensures unseen == SinceOf(Now(), cursor) && next == Now().Pushed()
    {
      var take := Unseen(pushed, |lines|, cursor);
      unseen, next := lines[|lines| - take..], pushed;
    }

    method SnapshotWithCursor(max: nat) returns (latest: seq<Line>, cursor: nat)
      requires Valid()
      ensures latest == Tail(Now().lines, max) && cursor == Now().Pushed()
    {
      var start := if |lines| <= max then 0 else |lines| - max;
      latest, cursor := lines[start..], pushed;
    }
  }

  // ---- one read ----

  function Later(a: nat, b: nat): nat { if a < b then b else a }

  function SinceOf(h: Held, cursor: nat): seq<Line> {
    h.lines[|h.lines| - Unseen(h.Pushed(), |h.lines|, cursor)..]
  }

  /** A read returns exactly the lines past the cursor that are still held. */
  lemma ReadDelivers(h: Held, cursor: nat)
    requires h.Sound() && |h.log| <= MAX_PUSHED && cursor <= |h.log|
    ensures SinceOf(h, cursor) == h.log[Later(cursor, h.Evicted())..]
  {
    var take := Unseen(h.Pushed(), |h.lines|, cursor);
    assert |h.lines| - take + h.Evicted() == Later(cursor, h.Evicted());
  }

  /**
   A reader that has seen everything receives the next pushed line exactly while the counter has not
   saturated; afterwards it silently receives nothing.
   */
  lemma NextLineArrives(h: Held, line: Line, capacity: nat)
    requires h.Sound()
    ensures SinceOf(PushTo(h, line, capacity), h.Pushed()) == (if |h.log| < 0xffff_ffff_ffff_ffff then [line] else [])
  {
  }

  /** A push keeps the newest lines of before and the new one, as many as the capacity of the moment, never none. */
  lemma PushKeepsNewest(h: Held, line: Line, capacity: nat)
    ensures PushTo(h, line, capacity).lines == Tail(h.lines + [line], if capacity < 1 then 1 else capacity)
    ensures PushTo(h, line, capacity).log == h.log + [line]
  {
  }

  // ---- a reader's whole run ----

  datatype Event = Push(line: Line, capacity: nat) | Read

  /** A ring and one reader; `got` are the positions in the log of the lines received so far. */
  datatype Run = Run(ring: Held, cursor: nat, received: seq<Line>, got: seq<nat>)

  function Step(r: Run, e: Event): Run
    requires r.ring.Sound()
  {
    match e
    case Push(line, capacity) => r.(ring := PushTo(r.ring, line, capacity))
    case Read =>
      var from := Later(r.cursor, r.ring.Evicted());
      r.(cursor := r.ring.Pushed(), received := r.received + SinceOf(r.ring, r.cursor),
         got := r.got + if from <= |r.ring.log| then Positions(from, |r.ring.log|) else [])
  }

  function Positions(from: nat, end: nat): (r: seq<nat>)
    requires from <= end
    ensures |r| == end - from && forall i :: 0 <= i < |r| ==> r[i] == from + i
  {
    seq(end - from, i => from + i)
  }

  ghost function After(start: Run, es: seq<Event>): (r: Run)
    requires start.ring.Sound()
    ensures r.ring.Sound()
  {
    if es == [] then start
    else
      var before := After(start, es[..|es| - 1]);
      assert es[|es| - 1].Push? ==> PushTo(before.ring, es[|es| - 1].line, es[|es| - 1].capacity).Sound();
      Step(before, es[|es| - 1])
  }

  /** The lines received are the log's lines at ascending positions below the cursor. */
  ghost predicate InOrder(start: Run, r: Run)
    requires r.ring.Sound()
  {
    && start.cursor <= r.cursor <= |r.ring.log|
    && |r.got| == |r.received|
    && (forall i :: 0 <= i < |r.got| ==> start.cursor <= r.got[i] < r.cursor && r.ring.log[r.got[i]] == r.received[i])
    && (forall i, j :: 0 <= i < j < |r.got| ==> r.got[i] < r.got[j])
  }

  /** The `k`-th event is a read that came after line `i` was evicted and before the reader saw it. */
  ghost predicate MissedAt(start: Run, es: seq<Event>, k: nat, i: nat)
    requires start.ring.Sound() && k < |es|
  {
    es[k].Read? && After(start, es[..k]).cursor <= i < After(start, es[..k]).ring.Evicted()
  }

  ghost predicate Missed(start: Run, es: seq<Event>, i: nat)
    requires start.ring.Sound()
  {
    exists k :: 0 <= k < |es| && MissedAt(start, es, k, i)
  }

  lemma MissedGrows(start: Run, es: seq<Event>, i: nat)
    requires start.ring.Sound() && es != []
    ensures Missed(start, es, i) <==> Missed(start, es[..|es| - 1], i) || MissedAt(start, es, |es| - 1, i)
  {
    var init := es[..|es| - 1];
    forall k | 0 <= k < |init| ensures MissedAt(start, es, k, i) <==> MissedAt(start, init, k, i) {
      assert init[..k] == es[..k];
    }
  }

  /** A reader that has received nothing yet, from the ring's start or from a snapshot's cursor. */
  predicate Fresh(r: Run) {
    r.ring.Sound() && r.cursor <= |r.ring.log| && r.received == [] && r.got == []
  }

  lemma PositionsMembers(from: nat, end: nat)
    requires from <= end
    ensures forall i :: i in Positions(from, end) <==> from <= i < end
  {
    var more := Positions(from, end);
    forall i | from <= i < end ensures i in more {
      assert more[i - from] == i;
    }
  }

  lemma ReadInOrder(start: Run, r: Run)
    requires r.ring.Sound() && |r.ring.log| <= MAX_PUSHED && InOrder(start, r)
    ensures InOrder(start, Step(r, Read))
    ensures forall i :: i in Step(r, Read).got <==> i in r.got || Later(r.cursor, r.ring.Evicted()) <= i < |r.ring.log|
  {
    var from := Later(r.cursor, r.ring.Evicted());
    PositionsMembers(from, |r.ring.log|);
    Appended(start, r, from, r.(cursor := |r.ring.log|, received := r.received + r.ring.log[from..],
                                got := r.got + Positions(from, |r.ring.log|)));
  }

  lemma Appended(start: Run, r: Run, from: nat, next: Run)
    requires r.ring.Sound() && InOrder(start, r) && r.cursor <= from <= |r.ring.log|
    requires next.ring == r.ring && next.cursor == |r.ring.log|
    requires next.received == r.received + r.ring.log[from..] && next.got == r.got + Positions(from, |r.ring.log|)
    ensures InOrder(start, next)
  {
  }

  /**
   Over any run, whatever the capacity does, a reader chaining cursors receives log lines in order
   and none twice.
   */
  lemma {:induction false} ReaderInOrder(start: Run, es: seq<Event>)
    requires Fresh(start) && |After(start, es).ring.log| <= MAX_PUSHED
    ensures InOrder(start, After(start, es))
  {
    if es != [] {
      var init, e := es[..|es| - 1], es[|es| - 1];
      ReaderInOrder(start, init);
      match e
      case Push(_, _) =>
      case Read => ReadInOrder(start, After(start, init));
    }
  }

  /** Of the lines the cursor has passed it lacks exactly those evicted before the read that passed them. */
  lemma {:induction false} ReaderMissesOnlyEvicted(start: Run, es: seq<Event>, i: nat)
    requires Fresh(start) && |After(start, es).ring.log| <= MAX_PUSHED
    requires start.cursor <= i < After(start, es).cursor
    ensures i in After(start, es).got <==> !Missed(start, es, i)
  {
    if es != [] {
      var init, e := es[..|es| - 1], es[|es| - 1];
      var before := After(start, init);
      ReaderInOrder(start, init);
      MissedGrows(start, es, i);
      if e.Read? { ReadInOrder(start, before); }
      if i < before.cursor {
        ReaderMissesOnlyEvicted(start, init, i);
      } else {
        NotYetMissed(start, init, i);
        assert i !in before.got;
      }
    }
  }

  /** Nothing at or past the cursor has been missed yet. */
  lemma {:induction false} NotYetMissed(start: Run, es: seq<Event>, i: nat)
    requires Fresh(start) && |After(start, es).ring.log| <= MAX_PUSHED && i >= After(start, es).cursor
    ensures !Missed(start, es, i)
  {
    if es != [] {
      var init := es[..|es| - 1];
      ReaderInOrder(start, init);
      MissedGrows(start, es, i);
      NotYetMissed(start, init, i);
    }
  }
}

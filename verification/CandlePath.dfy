/**
 The open candle's intraday path: cached minute rows over five-minute fallback
 (crates/moon-chart/src/open_candle_path.rs).
 */
module CandlePath {
  import opened Floats
  import opened Seqs
  import opened Sorting

  const MINUTE: real := 60_000.0
  const FIVE: real := 300_000.0

  datatype Candle = Candle(tOpen: Float, low: Float, high: Float)

  /** A price range over the half-open interval of instants `[left, right)`. */
  datatype Span = Span(left: real, right: real, low: real, high: real)
  {
    predicate Covers(x: real) { left <= x < right }
  }

  datatype PathBar = PathBar(tOpenRel: real, duration: real, low: real, high: real, rising: bool)

  predicate ValidRange(low: Float, high: Float) {
    low.Fin? && high.Fin? && low.v > 0.0 && high.v >= low.v
  }

  predicate Usable(c: Candle) { c.tOpen.Fin? && ValidRange(c.low, c.high) }

  // ---- placing the prefix ----

  /** A row clipped to the window; nothing when it is malformed or misses the window. */
  function Clipped(c: Candle, width: real, start: real, end: real): seq<Span> {
    if Usable(c) && Max(c.tOpen.v, start) < Min(c.tOpen.v + width, end)
    then [Span(Max(c.tOpen.v, start), Min(c.tOpen.v + width, end), c.low.v, c.high.v)]
    else []
  }

  function MinuteSpans(rows: seq<Candle>, start: real, end: real): seq<Span> {
    if rows == [] then []
    else MinuteSpans(rows[..|rows| - 1], start, end) + Clipped(rows[|rows| - 1], MINUTE, start, end)
  }

  /** One subtraction step: the piece left of a finer span, and where the rest begins. */
  function Piece(rest: Span, finer: Span): seq<Span> {
    if finer.right <= rest.left || finer.left >= rest.right || finer.left <= rest.left then []
    else [rest.(right := Min(finer.left, rest.right))]
  }

  function Rest(rest: Span, finer: Span): Span {
    if finer.right <= rest.left || finer.left >= rest.right then rest
    else rest.(left := Max(rest.left, finer.right))
  }

  function Advance(rest: Span, finer: seq<Span>): Span {
    if finer == [] then rest else Rest(Advance(rest, finer[..|finer| - 1]), finer[|finer| - 1])
  }

  /** The pieces cut off while walking the finer spans. */
  function Pieces(rest: Span, finer: seq<Span>): seq<Span> {
    if finer == [] then []
    else Pieces(rest, finer[..|finer| - 1]) + Piece(Advance(rest, finer[..|finer| - 1]), finer[|finer| - 1])
  }

  function Nonempty(s: Span): seq<Span> { if s.left < s.right then [s] else [] }

  function Carved(rest: Span, finer: seq<Span>): seq<Span> {
    Pieces(rest, finer) + Nonempty(Advance(rest, finer))
  }

  /** A five-minute row's window, possibly empty. */
  function Window(c: Candle, start: real, end: real): Span
    requires Usable(c)
  {
    Span(Max(c.tOpen.v, start), Min(c.tOpen.v + FIVE, end), c.low.v, c.high.v)
  }

  /** What a fallback row adds beside the finer spans. */
  function CarvedRow(c: Candle, finer: seq<Span>, start: real, end: real): seq<Span> {
    if Usable(c) then Carved(Window(c, start, end), finer) else []
  }

  function Fallback(five: seq<Candle>, finer: seq<Span>, start: real, end: real): seq<Span> {
    if five == [] then []
    else Fallback(five[..|five| - 1], finer, start, end) + CarvedRow(five[|five| - 1], finer, start, end)
  }

  predicate ByLeft(a: Span, b: Span) { a.left <= b.left }

  const LEFT_ORDER := (a: Span, b: Span) => ByLeft(a, b)

  function Finer(minutes: seq<Candle>, start: real, end: real): seq<Span> {
    Sort(MinuteSpans(minutes, start, end), LEFT_ORDER)
  }

  function Prefix(minutes: seq<Candle>, five: seq<Candle>, start: real, end: real): seq<Span> {
    var finer := Finer(minutes, start, end);
    Sort(finer + Fallback(five, finer, start, end), LEFT_ORDER)
  }

  function Middle(s: Span): real { (s.low + s.high) * 0.5 }

  function LastMid(spans: seq<Span>, prev: Option<real>): Option<real> {
    if spans == [] then prev else Some(Middle(spans[|spans| - 1]))
  }

  predicate Rises(prev: Option<real>, mid: real) { prev.None? || mid >= prev.value }

  function BarOf(s: Span, epoch: real, prev: Option<real>): PathBar {
    PathBar(s.left - epoch, s.right - s.left, s.low, s.high, Rises(prev, Middle(s)))
  }

  /** Each span becomes a bar coloured against the one before it. */
  function Bars(spans: seq<Span>, epoch: real): seq<PathBar> {
    if spans == [] then []
    else
      var init := spans[..|spans| - 1];
      Bars(init, epoch) + [BarOf(spans[|spans| - 1], epoch, LastMid(init, None))]
  }

  predicate Places(start: Float, end: Float, tfMs: int) {
    tfMs > 60_000 && start.Fin? && end.Fin? && start.v < end.v
  }

  method Carve(row: Span, finer: seq<Span>) returns (pieces: seq<Span>)
    ensures pieces == Carved(row, finer)
  {
    pieces := [];
    var left := row.left;
    for i := 0 to |finer|
      invariant left == Advance(row, finer[..i]).left
      invariant Advance(row, finer[..i]) == row.(left := left)
      invariant pieces == Pieces(row, finer[..i])
    {
      assert finer[..i + 1][..i] == finer[..i];
      var f := finer[i];
      if f.right <= left || f.left >= row.right {
        continue;
      }
      if f.left > left {
        pieces := pieces + [Span(left, Min(f.left, row.right), row.low, row.high)];
      }
      left := Max(left, f.right);
    }
    assert finer[..|finer|] == finer;
    if left < row.right {
      pieces := pieces + [Span(left, row.right, row.low, row.high)];
    }
  }

  method ClipMinutes(rows: seq<Candle>, start: real, end: real) returns (ranges: seq<Span>)
    ensures ranges == MinuteSpans(rows, start, end)
  {
    ranges := [];
    for i := 0 to |rows|
      invariant ranges == MinuteSpans(rows[..i], start, end)
    {
      assert rows[..i + 1][..i] == rows[..i];
      ranges := ranges + Clipped(rows[i], MINUTE, start, end);
    }
    assert rows[..|rows|] == rows;
  }

  method CarveFallback(five: seq<Candle>, finer: seq<Span>, start: real, end: real) returns (ranges: seq<Span>)
    ensures ranges == Fallback(five, finer, start, end)
  {
    ranges := [];
    for i := 0 to |five|
      invariant ranges == Fallback(five[..i], finer, start, end)
    {
      assert five[..i + 1][..i] == five[..i];
      if Usable(five[i]) {
        var pieces := Carve(Window(five[i], start, end), finer);
        ranges := ranges + pieces;
      }
    }
    assert five[..|five|] == five;
  }

  method PushBars(ranges: seq<Span>, epoch: real, out: seq<PathBar>) returns (placed: seq<PathBar>, mid: Option<real>)
    ensures placed == out + Bars(ranges, epoch) && mid == LastMid(ranges, None)
  {
    placed, mid := out, None;
    for i := 0 to |ranges|
      invariant mid == LastMid(ranges[..i], None)
      invariant placed == out + Bars(ranges[..i], epoch)
    {
      assert ranges[..i + 1][..i] == ranges[..i];
      placed := placed + [BarOf(ranges[i], epoch, mid)];
      mid := Some(Middle(ranges[i]));
    }
    assert ranges[..|ranges|] == ranges;
  }

  method PlacePrefix(minutes: Option<seq<Candle>>, five: seq<Candle>, start: Float, end: Float, tfMs: int,
                     epoch: real, out: seq<PathBar>) returns (placed: seq<PathBar>, mid: Option<real>)
    ensures !Places(start, end, tfMs) ==> placed == out && mid.None?
    ensures Places(start, end, tfMs) ==>
              var spans := Prefix(if minutes.Some? then minutes.value else [], five, start.v, end.v);
              placed == out + Bars(spans, epoch) && mid == LastMid(spans, None)
  {
    placed, mid := out, None;
    if tfMs <= 60_000 || !start.Fin? || !end.Fin? || end.v <= start.v {
      return;
    }
    var ranges := ClipMinutes(if minutes.Some? then minutes.value else [], start.v, end.v);
    var finer := Sort(ranges, LEFT_ORDER);
    var fallback := CarveFallback(five, finer, start.v, end.v);
    placed, mid := PushBars(Sort(finer + fallback, LEFT_ORDER), epoch, out);
  }

  // ---- what covers an instant ----

  function SpanAt(s: Span, x: real): multiset<(real, real)> {
    if s.Covers(x) then multiset{(s.low, s.high)} else multiset{}
  }

  /** The price ranges drawn at an instant, with multiplicity. */
  function At(spans: seq<Span>, x: real): multiset<(real, real)> {
    if spans == [] then multiset{} else At(spans[..|spans| - 1], x) + SpanAt(spans[|spans| - 1], x)
  }

  predicate Holds(c: Candle, width: real, x: real) { Usable(c) && c.tOpen.v <= x < c.tOpen.v + width }

  /** The price ranges of the well-formed rows of one width that contain an instant. */
  function RowsAt(rows: seq<Candle>, width: real, x: real): multiset<(real, real)> {
    if rows == [] then multiset{}
    else
      var last := rows[|rows| - 1];
      RowsAt(rows[..|rows| - 1], width, x)
      + if Holds(last, width, x) then multiset{(last.low.v, last.high.v)} else multiset{}
  }

  lemma {:induction false} AtConcat(a: seq<Span>, b: seq<Span>, x: real)
    ensures At(a + b, x) == At(a, x) + At(b, x)
  {
    if b == [] {
      assert a + b == a;
    } else {
      assert (a + b)[..|a + b| - 1] == a + b[..|b| - 1];
      AtConcat(a, b[..|b| - 1], x);
    }
  }

  lemma AtOne(s: Span, x: real)
    ensures At([s], x) == SpanAt(s, x)
  {
    assert [s][..0] == [];
  }

  lemma {:induction false} AtInsert(spans: seq<Span>, s: Span, x: real)
    ensures At(Insert(spans, s, LEFT_ORDER), x) == At(spans, x) + SpanAt(s, x)
  {
    AtOne(s, x);
    if spans == [] || LEFT_ORDER(spans[|spans| - 1], s) {
      AtConcat(spans, [s], x);
    } else {
      var init, last := spans[..|spans| - 1], spans[|spans| - 1];
      AtInsert(init, s, x);
      AtConcat(Insert(init, s, LEFT_ORDER), [last], x);
      AtOne(last, x);
    }
  }

  lemma {:induction false} AtSorted(spans: seq<Span>, x: real)
    ensures At(Sort(spans, LEFT_ORDER), x) == At(spans, x)
  {
    if spans != [] {
      AtSorted(spans[..|spans| - 1], x);
      AtInsert(Sort(spans[..|spans| - 1], LEFT_ORDER), spans[|spans| - 1], x);
    }
  }

  /** Somebody covers the instant exactly when a price range is drawn there. */
  lemma {:induction false} AtNobody(spans: seq<Span>, x: real)
    ensures At(spans, x) == multiset{} <==> forall i :: 0 <= i < |spans| ==> !spans[i].Covers(x)
  {
    if spans != [] {
      AtNobody(spans[..|spans| - 1], x);
      var last := spans[|spans| - 1];
      if last.Covers(x) {
        assert (last.low, last.high) in At(spans, x);
      }
    }
  }

  lemma ClippedAt(c: Candle, width: real, start: real, end: real, x: real)
    ensures At(Clipped(c, width, start, end), x)
         == if start <= x < end && Holds(c, width, x) then multiset{(c.low.v, c.high.v)} else multiset{}
  {
    var clipped := Clipped(c, width, start, end);
    if clipped != [] { AtOne(clipped[0], x); }
  }

  lemma {:induction false} MinutesAt(rows: seq<Candle>, start: real, end: real, x: real)
    ensures At(MinuteSpans(rows, start, end), x) == if start <= x < end then RowsAt(rows, MINUTE, x) else multiset{}
  {
    if rows != [] {
      var init, last := rows[..|rows| - 1], rows[|rows| - 1];
      MinutesAt(init, start, end, x);
      ClippedAt(last, MINUTE, start, end, x);
      AtConcat(MinuteSpans(init, start, end), Clipped(last, MINUTE, start, end), x);
    }
  }

  predicate NobodyCovers(finer: seq<Span>, x: real) {
    forall i :: 0 <= i < |finer| ==> !finer[i].Covers(x)
  }

  /** Walking the finer spans only ever shortens a row from the left. */
  lemma {:induction false} AdvanceShape(rest: Span, finer: seq<Span>)
    ensures var r := Advance(rest, finer); r == rest.(left := r.left) && rest.left <= r.left
  {
    if finer != [] { AdvanceShape(rest, finer[..|finer| - 1]); }
  }

  predicate AllNonempty(spans: seq<Span>) {
    forall i :: 0 <= i < |spans| ==> spans[i].left < spans[i].right
  }

  function Price(s: Span): multiset<(real, real)> { multiset{(s.low, s.high)} }

  /** The walk so far: left of where it stands, a piece is drawn exactly where no finer span is. */
  predicate WalkedAt(rest: Span, finer: seq<Span>, x: real) {
    var stand := Advance(rest, finer).left;
    && At(Pieces(rest, finer), x)
       == (if rest.Covers(x) && x < stand && NobodyCovers(finer, x) then Price(rest) else multiset{})
    && (rest.Covers(x) && x >= stand ==> NobodyCovers(finer, x))
    && (rest.Covers(x) && x < stand && NobodyCovers(finer, x) ==> finer != [] && x < finer[|finer| - 1].left)
  }

  lemma {:induction false} Walk(rest: Span, finer: seq<Span>, x: real)
    requires Pairwise(finer, LEFT_ORDER) && AllNonempty(finer)
    ensures WalkedAt(rest, finer, x)
  {
    if finer != [] {
      var init, f := finer[..|finer| - 1], finer[|finer| - 1];
      Walk(rest, init, x);
      AdvanceShape(rest, init);
      WalkStep(rest, init, f, x);
      assert finer == init + [f];
    }
  }

  /** What one finer span does to the instants still to come. */
  lemma StepAt(r: Span, f: Span, x: real)
    requires f.left < f.right
    ensures At(Piece(r, f), x) == if r.Covers(x) && x < Rest(r, f).left && !f.Covers(x) then Price(r) else multiset{}
    ensures r.Covers(x) && x >= Rest(r, f).left ==> !f.Covers(x)
    ensures r.Covers(x) && x < Rest(r, f).left && !f.Covers(x) ==> x < f.left
    ensures r.left <= Rest(r, f).left
  {
    var cut := Piece(r, f);
    if cut != [] { AtOne(cut[0], x); }
  }

  lemma WalkStep(rest: Span, init: seq<Span>, f: Span, x: real)
    requires WalkedAt(rest, init, x) && f.left < f.right
    requires init != [] ==> init[|init| - 1].left <= f.left
    requires Advance(rest, init) == rest.(left := Advance(rest, init).left) && rest.left <= Advance(rest, init).left
    ensures WalkedAt(rest, init + [f], x)
  {
    var finer, r := init + [f], Advance(rest, init);
    assert finer[..|finer| - 1] == init;
    AtConcat(Pieces(rest, init), Piece(r, f), x);
    StepAt(r, f, x);
    NobodyCoversMore(init, f, x);
  }

  lemma NobodyCoversMore(init: seq<Span>, f: Span, x: real)
    ensures NobodyCovers(init + [f], x) <==> NobodyCovers(init, x) && !f.Covers(x)
  {
    var finer := init + [f];
    assert finer[|init|] == f;
    assert forall i :: 0 <= i < |init| ==> finer[i] == init[i];
  }

  lemma NonemptyAt(s: Span, x: real)
    ensures At(Nonempty(s), x) == SpanAt(s, x)
  {
    if s.left < s.right { AtOne(s, x); }
  }

  /** Left of where the walk stands the pieces decide, from there on what is left of the row. */
  lemma StandAt(rest: Span, stand: Span, finer: seq<Span>, x: real)
    requires WalkedAt(rest, finer, x) && stand == Advance(rest, finer) == rest.(left := stand.left)
    requires rest.left <= stand.left
    ensures At(Pieces(rest, finer), x) + SpanAt(stand, x)
         == if rest.Covers(x) && NobodyCovers(finer, x) then Price(rest) else multiset{}
  {
    if x < stand.left {
      assert SpanAt(stand, x) == multiset{};
    } else {
      assert At(Pieces(rest, finer), x) == multiset{};
    }
  }

  /** A fallback row is drawn exactly where no finer span is. */
  lemma CarvedAt(rest: Span, finer: seq<Span>, x: real)
    requires Pairwise(finer, LEFT_ORDER) && AllNonempty(finer)
    ensures At(Carved(rest, finer), x)
         == if rest.Covers(x) && NobodyCovers(finer, x) then Price(rest) else multiset{}
  {
    var stand := Advance(rest, finer);
    Walk(rest, finer, x);
    AdvanceShape(rest, finer);
    AtConcat(Pieces(rest, finer), Nonempty(stand), x);
    NonemptyAt(stand, x);
    StandAt(rest, stand, finer, x);
  }

  lemma CarvedRowAt(c: Candle, finer: seq<Span>, start: real, end: real, x: real)
    requires Pairwise(finer, LEFT_ORDER) && AllNonempty(finer)
    ensures At(CarvedRow(c, finer, start, end), x)
         == if start <= x < end && Holds(c, FIVE, x) && NobodyCovers(finer, x)
            then multiset{(c.low.v, c.high.v)}
            else multiset{}
  {
    if Usable(c) { CarvedAt(Window(c, start, end), finer, x); }
  }

  lemma {:induction false} FallbackAt(five: seq<Candle>, finer: seq<Span>, start: real, end: real, x: real)
    requires Pairwise(finer, LEFT_ORDER) && AllNonempty(finer)
    ensures At(Fallback(five, finer, start, end), x)
         == if start <= x < end && NobodyCovers(finer, x) then RowsAt(five, FIVE, x) else multiset{}
  {
    if five != [] {
      var init, last := five[..|five| - 1], five[|five| - 1];
      FallbackAt(init, finer, start, end, x);
      CarvedRowAt(last, finer, start, end, x);
      AtConcat(Fallback(init, finer, start, end), CarvedRow(last, finer, start, end), x);
    }
  }

  lemma {:induction false} MinuteSpansNonempty(rows: seq<Candle>, start: real, end: real)
    ensures AllNonempty(MinuteSpans(rows, start, end))
  {
    if rows != [] { MinuteSpansNonempty(rows[..|rows| - 1], start, end); }
  }

  lemma FinerFacts(minutes: seq<Candle>, start: real, end: real)
    ensures Pairwise(Finer(minutes, start, end), LEFT_ORDER) && AllNonempty(Finer(minutes, start, end))
  {
    var spans := MinuteSpans(minutes, start, end);
    SortSorted(spans, LEFT_ORDER);
    MinuteSpansNonempty(minutes, start, end);
    PermutationMembers(Sort(spans, LEFT_ORDER), spans);
    var finer := Finer(minutes, start, end);
    assert forall i :: 0 <= i < |finer| ==> finer[i] in spans;
  }

  /**
   The composition rule, for any rows at all: at every instant of the window the bars drawn are the
   valid minute rows containing it, or where there is none the valid five-minute rows containing it;
   outside the window nothing is drawn.
   */
  lemma PrefixAt(minutes: seq<Candle>, five: seq<Candle>, start: real, end: real, x: real)
    ensures At(Prefix(minutes, five, start, end), x)
         == if !(start <= x < end) then multiset{}
            else if RowsAt(minutes, MINUTE, x) != multiset{} then RowsAt(minutes, MINUTE, x)
            else RowsAt(five, FIVE, x)
  {
    var finer := Finer(minutes, start, end);
    var fallback := Fallback(five, finer, start, end);
    FinerFacts(minutes, start, end);
    MinutesAt(minutes, start, end, x);
    AtSorted(MinuteSpans(minutes, start, end), x);
    FallbackAt(five, finer, start, end, x);
    AtNobody(finer, x);
    AtConcat(finer, fallback, x);
    AtSorted(finer + fallback, x);
  }

  // ---- order and disjointness ----

  predicate Apart(a: Span, b: Span) { a.right <= b.left }

  const APART_ORDER := (a: Span, b: Span) => Apart(a, b)

  lemma {:induction false} PiecesNonempty(rest: Span, finer: seq<Span>)
    ensures AllNonempty(Pieces(rest, finer))
  {
    if finer != [] {
      PiecesNonempty(rest, finer[..|finer| - 1]);
      AdvanceShape(rest, finer[..|finer| - 1]);
    }
  }

  lemma {:induction false} FallbackNonempty(five: seq<Candle>, finer: seq<Span>, start: real, end: real)
    ensures AllNonempty(Fallback(five, finer, start, end))
  {
    if five != [] {
      FallbackNonempty(five[..|five| - 1], finer, start, end);
      if Usable(five[|five| - 1]) { PiecesNonempty(Window(five[|five| - 1], start, end), finer); }
    }
  }

  /** Every bar has a positive width, and bars come in time order. */
  lemma PrefixOrdered(minutes: seq<Candle>, five: seq<Candle>, start: real, end: real)
    ensures Pairwise(Prefix(minutes, five, start, end), LEFT_ORDER) && AllNonempty(Prefix(minutes, five, start, end))
  {
    var finer := Finer(minutes, start, end);
    var all, spans := finer + Fallback(five, finer, start, end), Prefix(minutes, five, start, end);
    FinerFacts(minutes, start, end);
    FallbackNonempty(five, finer, start, end);
    SortSorted(all, LEFT_ORDER);
    PermutationMembers(spans, all);
    assert forall i :: 0 <= i < |spans| ==> spans[i] in all;
  }

  lemma {:induction false} AtCounts(spans: seq<Span>, i: nat, j: nat, x: real)
    requires i < j < |spans| && spans[i].Covers(x) && spans[j].Covers(x)
    ensures |At(spans, x)| >= 2
  {
    var n := |spans| - 1;
    AtGrows(spans[..n], spans[n], x);
    assert spans[..n] + [spans[n]] == spans;
    if j < n {
      AtCounts(spans[..n], i, j, x);
    } else {
      AtSome(spans[..n], i, x);
    }
  }

  lemma SpanAtSize(s: Span, x: real)
    ensures |SpanAt(s, x)| == if s.Covers(x) then 1 else 0
  {
  }

  lemma SumSize(a: multiset<(real, real)>, b: multiset<(real, real)>)
    ensures |a + b| == |a| + |b|
  {
  }

  lemma AtGrows(spans: seq<Span>, last: Span, x: real)
    ensures |At(spans + [last], x)| == |At(spans, x)| + if last.Covers(x) then 1 else 0
  {
    assert (spans + [last])[..|spans|] == spans;
    SumSize(At(spans, x), SpanAt(last, x));
    SpanAtSize(last, x);
  }

  lemma AtSome(spans: seq<Span>, i: nat, x: real)
    requires i < |spans| && spans[i].Covers(x)
    ensures |At(spans, x)| >= 1
  {
    AtNobody(spans, x);
    assert At(spans, x) != multiset{};
  }

  lemma {:induction false} AtMostOne(spans: seq<Span>, x: real)
    requires Pairwise(spans, APART_ORDER) && AllNonempty(spans)
    ensures |At(spans, x)| <= 1
  {
    if spans != [] {
      var n := |spans| - 1;
      AtMostOne(spans[..n], x);
      AtNobody(spans[..n], x);
      assert forall i :: 0 <= i < n ==> APART_ORDER(spans[i], spans[n]);
    }
  }

  /** Ordered bars are pairwise disjoint exactly when no instant is drawn twice. */
  lemma DisjointIff(spans: seq<Span>)
    requires Pairwise(spans, LEFT_ORDER) && AllNonempty(spans)
    ensures Pairwise(spans, APART_ORDER) <==> forall x: real :: |At(spans, x)| <= 1
  {
    if Pairwise(spans, APART_ORDER) {
      forall x: real ensures |At(spans, x)| <= 1 { AtMostOne(spans, x); }
    } else {
      var i, j :| 0 <= i < j < |spans| && !APART_ORDER(spans[i], spans[j]);
      assert LEFT_ORDER(spans[i], spans[j]);
      AtCounts(spans, i, j, spans[j].left);
    }
  }

  /** No two well-formed rows of one width overlap. */
  predicate RowsApart(rows: seq<Candle>, width: real) {
    forall i, j :: 0 <= i < j < |rows| && Usable(rows[i]) && Usable(rows[j]) ==>
      rows[i].tOpen.v + width <= rows[j].tOpen.v || rows[j].tOpen.v + width <= rows[i].tOpen.v
  }

  lemma {:induction false} RowsAtNobody(rows: seq<Candle>, width: real, x: real)
    ensures RowsAt(rows, width, x) == multiset{} <==> forall i :: 0 <= i < |rows| ==> !Holds(rows[i], width, x)
  {
    if rows != [] {
      RowsAtNobody(rows[..|rows| - 1], width, x);
      var last := rows[|rows| - 1];
      if Holds(last, width, x) { assert (last.low.v, last.high.v) in RowsAt(rows, width, x); }
    }
  }

  lemma {:induction false} RowsAtOnce(rows: seq<Candle>, width: real, x: real)
    requires RowsApart(rows, width)
    ensures |RowsAt(rows, width, x)| <= 1
  {
    if rows != [] {
      RowsAtOnce(rows[..|rows| - 1], width, x);
      RowsAtNobody(rows[..|rows| - 1], width, x);
    }
  }

  /** Rows that do not overlap within their own series give bars that never overlap across both. */
  lemma PrefixDisjoint(minutes: seq<Candle>, five: seq<Candle>, start: real, end: real)
    requires RowsApart(minutes, MINUTE) && RowsApart(five, FIVE)
    ensures Pairwise(Prefix(minutes, five, start, end), APART_ORDER)
  {
    var spans := Prefix(minutes, five, start, end);
    PrefixOrdered(minutes, five, start, end);
    forall x: real ensures |At(spans, x)| <= 1 {
      PrefixAt(minutes, five, start, end, x);
      RowsAtOnce(minutes, MINUTE, x);
      RowsAtOnce(five, FIVE, x);
    }
    DisjointIff(spans);
  }

  /** No bar leaves the window. */
  lemma PrefixInside(minutes: seq<Candle>, five: seq<Candle>, start: real, end: real)
    ensures forall s :: s in Prefix(minutes, five, start, end) ==> start <= s.left < s.right <= end
  {
    var spans := Prefix(minutes, five, start, end);
    PrefixOrdered(minutes, five, start, end);
    forall s | s in spans ensures start <= s.left && s.right <= end {
      DrawnInside(minutes, five, start, end, s, s.left);
      DrawnInside(minutes, five, start, end, s, if s.right <= end then s.left else Max(s.left, end));
    }
  }

  lemma DrawnInside(minutes: seq<Candle>, five: seq<Candle>, start: real, end: real, s: Span, x: real)
    requires s in Prefix(minutes, five, start, end) && s.Covers(x)
    ensures start <= x < end
  {
    AtNobody(Prefix(minutes, five, start, end), x);
    PrefixAt(minutes, five, start, end, x);
  }

  /** Bar `i` is span `i`, coloured rising unless its middle fell below the previous one's. */
  lemma {:induction false} BarsMirror(spans: seq<Span>, epoch: real, i: nat)
    requires i < |spans|
    ensures |Bars(spans, epoch)| == |spans|
    ensures var b := Bars(spans, epoch)[i];
            && b.tOpenRel + epoch == spans[i].left && b.tOpenRel + b.duration + epoch == spans[i].right
            && (b.low, b.high) == (spans[i].low, spans[i].high)
            && (b.rising <==> i == 0 || spans[i - 1].low + spans[i - 1].high <= spans[i].low + spans[i].high)
  {
    BarsLength(spans, epoch);
    if i < |spans| - 1 {
      BarsLength(spans[..|spans| - 1], epoch);
      BarsMirror(spans[..|spans| - 1], epoch, i);
    } else {
      BarsLength(spans[..i], epoch);
    }
  }

  lemma {:induction false} BarsLength(spans: seq<Span>, epoch: real)
    ensures |Bars(spans, epoch)| == |spans|
  {
    if spans != [] { BarsLength(spans[..|spans| - 1], epoch); }
  }

  // ---- what the bars show ----

  /** A well-formed row of one width with this price range contains the instant. */
  predicate RowShows(c: Candle, width: real, x: real, low: real, high: real) {
    && c.tOpen.Fin? && c.tOpen.v <= x && x - c.tOpen.v < width
    && c.low == Fin(low) && c.high == Fin(high) && 0.0 < low <= high
  }

  predicate Shows(rows: seq<Candle>, width: real, x: real, low: real, high: real) {
    exists i :: 0 <= i < |rows| && RowShows(rows[i], width, x, low, high)
  }

  /** No well-formed row of one width contains the instant. */
  predicate ShowsNothing(rows: seq<Candle>, width: real, x: real) {
    forall i :: 0 <= i < |rows| && rows[i].low.Fin? && rows[i].high.Fin? ==>
      !RowShows(rows[i], width, x, rows[i].low.v, rows[i].high.v)
  }

  lemma {:induction false} RowsAtMembers(rows: seq<Candle>, width: real, x: real, low: real, high: real)
    ensures (low, high) in RowsAt(rows, width, x) <==> Shows(rows, width, x, low, high)
  {
    if rows != [] {
      var n := |rows| - 1;
      RowsAtMembers(rows[..n], width, x, low, high);
      RowHolds(rows[n], width, x, low, high);
      ShowsNext(rows, width, x, low, high);
    }
  }

  lemma RowHolds(c: Candle, width: real, x: real, low: real, high: real)
    ensures Holds(c, width, x) && (c.low.v, c.high.v) == (low, high) <==> RowShows(c, width, x, low, high)
  {
  }

  lemma ShowsNext(rows: seq<Candle>, width: real, x: real, low: real, high: real)
    requires rows != []
    ensures var n := |rows| - 1;
            Shows(rows, width, x, low, high)
            <==> Shows(rows[..n], width, x, low, high) || RowShows(rows[n], width, x, low, high)
  {
    var n := |rows| - 1;
    if i :| 0 <= i < n && RowShows(rows[..n][i], width, x, low, high) { assert rows[i] == rows[..n][i]; }
    if i :| 0 <= i < n && RowShows(rows[i], width, x, low, high) { assert rows[i] == rows[..n][i]; }
  }

  lemma NothingAt(rows: seq<Candle>, width: real, x: real)
    ensures RowsAt(rows, width, x) == multiset{} <==> ShowsNothing(rows, width, x)
  {
    RowsAtNobody(rows, width, x);
    forall i | 0 <= i < |rows| && rows[i].low.Fin? && rows[i].high.Fin?
      ensures Holds(rows[i], width, x) <==> RowShows(rows[i], width, x, rows[i].low.v, rows[i].high.v)
    {
      RowHolds(rows[i], width, x, rows[i].low.v, rows[i].high.v);
    }
  }

  lemma {:induction false} AtMembers(spans: seq<Span>, x: real, low: real, high: real)
    ensures (low, high) in At(spans, x) <==>
              exists i :: 0 <= i < |spans| && SpanShows(spans[i], x, low, high)
  {
    if spans != [] {
      var n := |spans| - 1;
      AtMembers(spans[..n], x, low, high);
      SpanMember(spans[n], x, low, high);
      if i :| 0 <= i < n && SpanShows(spans[..n][i], x, low, high) { assert SpanShows(spans[i], x, low, high); }
      if i :| 0 <= i < n && SpanShows(spans[i], x, low, high) { assert SpanShows(spans[..n][i], x, low, high); }
    }
  }

  predicate SpanShows(s: Span, x: real, low: real, high: real) {
    s.left <= x < s.right && s.low == low && s.high == high
  }

  lemma SpanMember(s: Span, x: real, low: real, high: real)
    ensures (low, high) in SpanAt(s, x) <==> SpanShows(s, x, low, high)
  {
  }

  /** Some bar shows this price range at the instant. */
  predicate BarShows(bars: seq<PathBar>, epoch: real, x: real, low: real, high: real) {
    exists i :: 0 <= i < |bars| && (bars[i].low, bars[i].high) == (low, high)
                && bars[i].tOpenRel + epoch <= x < bars[i].tOpenRel + bars[i].duration + epoch
  }

  lemma BarsShowSpans(spans: seq<Span>, epoch: real, x: real, low: real, high: real)
    ensures BarShows(Bars(spans, epoch), epoch, x, low, high) <==> (low, high) in At(spans, x)
  {
    var bars := Bars(spans, epoch);
    AtMembers(spans, x, low, high);
    BarsLength(spans, epoch);
    forall i | 0 <= i < |spans|
      ensures bars[i].tOpenRel + epoch == spans[i].left && bars[i].tOpenRel + bars[i].duration + epoch == spans[i].right
      ensures (bars[i].low, bars[i].high) == (spans[i].low, spans[i].high)
    {
      BarsMirror(spans, epoch, i);
    }
    if i :| 0 <= i < |spans| && SpanShows(spans[i], x, low, high) {
      assert (bars[i].low, bars[i].high) == (low, high);
    }
  }

  /**
   The bars placed show at an instant of the window exactly the price ranges of the well-formed minutes
   there; where no minute is, those of the well-formed five-minute rows; outside the window nothing.
   */
  lemma BarsShowRows(minutes: seq<Candle>, five: seq<Candle>, start: real, end: real, epoch: real, x: real,
                     low: real, high: real)
    ensures BarShows(Bars(Prefix(minutes, five, start, end), epoch), epoch, x, low, high) <==>
              && start <= x < end
              && (|| Shows(minutes, 60_000.0, x, low, high)
                  || (ShowsNothing(minutes, 60_000.0, x) && Shows(five, 300_000.0, x, low, high)))
  {
    BarsShowSpans(Prefix(minutes, five, start, end), epoch, x, low, high);
    PrefixAt(minutes, five, start, end, x);
    RowsAtMembers(minutes, MINUTE, x, low, high);
    RowsAtMembers(five, FIVE, x, low, high);
    NothingAt(minutes, MINUTE, x);
  }
}

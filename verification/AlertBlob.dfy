/**
 The binary chart-object codec: encoding alertable figures and decoding blobs
 (crates/moon-core/src/alert_blob.rs). Floats travel as their bit patterns.
 */
module AlertBlob {
  import opened Seqs

  type byte = b: nat | b < 0x100
  /** Bit patterns of 32- and 64-bit words, floats among them. */
  type U32 = n: nat | n < 0x1_0000_0000
  type U64 = n: nat | n < 0x1_0000_0000_0000_0000
  type Rgba = c: seq<byte> | |c| == 4 witness [0, 0, 0, 0]
  type Levels = l: seq<U64> | |l| == 7 witness [0, 0, 0, 0, 0, 0, 0]

  const KIND_ALERT: U32 := 13
  const PAYLOAD_OFF: nat := 48
  const MB_FIB_LEVELS: nat := 7
  const MB_FIB_LEVELS_OFF: nat := 89
  const MB_FIB_LEN: nat := 145

  /** Bits of 0.1, 20.0, 1.0 and positive infinity; positive floats order as their bits do. */
  const MIN_THICKNESS: U32 := 0x3dcc_cccd
  const MAX_THICKNESS: U32 := 0x41a0_0000
  const DEFAULT_THICKNESS: U32 := 0x3f80_0000
  const INFINITE: U32 := 0x7f80_0000

  datatype LineKind = Solid | Dash | Dot | DashDot | DashDotDot

  datatype Node = Node(time: U64, price: U64)

  datatype FigureKind =
    | HLine(price: U64)
    | Segment(a: Node, b: Node)
    | Triangle(a: Node, b: Node, c: Node)
    | Channel(price1: U64, price2: U64)
    | MbFib(zero: U64, one: U64, time: U64, levels: Levels)
    | FibRetracement | Rect | Ray | HorizontalRay | Position

  datatype Alert = Alert(kind: FigureKind, color: Rgba, thickness: U32, lineKind: LineKind,
                         created: U64, strategy: U64, uid: U64)

  /** The date conversion on bit patterns, in each direction. */
  datatype Dates = Dates(toWire: U64 -> U64, fromWire: U64 -> U64)

  ghost predicate Exact(d: Dates) {
    forall t: U64 :: d.fromWire(d.toWire(t)) == t
  }

  function ToPen(k: LineKind): U32 {
    match k case Solid => 0 case Dash => 1 case Dot => 2 case DashDot => 3 case DashDotDot => 4
  }

  function FromPen(v: U32): LineKind {
    if v == 0 then Solid else if v == 2 then Dot else if v == 3 then DashDot else if v == 4 then DashDotDot else Dash
  }

  function SwapRb(c: Rgba): Rgba { [c[2], c[1], c[0], c[3]] }

  /** A width that means something is clamped; anything else becomes the default. */
  function Repaired(t: U32): (r: U32)
    ensures 0x3dcc_cccd <= r <= 0x41a0_0000
    ensures r == t <==> 0x3dcc_cccd <= t <= 0x41a0_0000
  {
    if 0 < t < INFINITE then
      if t < MIN_THICKNESS then MIN_THICKNESS else if t > MAX_THICKNESS then MAX_THICKNESS else t
    else DEFAULT_THICKNESS
  }

  predicate Between(a: U32, b: U32, c: U32) { a <= b <= c || c <= b <= a }

  /** A positive finite width is moved no further than to the nearest drawable one. */
  lemma RepairedIsNearest(t: U32, drawable: U32)
    requires MIN_THICKNESS <= drawable <= MAX_THICKNESS
    ensures 0 < t < INFINITE ==> Between(t, Repaired(t), drawable)
    ensures t == 0 || t >= 0x7f80_0000 ==> Repaired(t) == 0x3f80_0000
  {
  }

  predicate Alertable(k: FigureKind) { k.HLine? || k.Segment? || k.Triangle? || k.Channel? || k.MbFib? }

  function TypeByte(k: FigureKind): byte
    requires Alertable(k)
  {
    match k
    case HLine(_) => 1
    case Segment(_, _) => 2
    case MbFib(_, _, _, _) => 3
    case Triangle(_, _, _) => 4
    case _ => 5
  }

  // ---- little-endian words ----

  function Pow256(n: nat): (p: nat)
    ensures p > 0
  {
    if n == 0 then 1 else 256 * Pow256(n - 1)
  }

  function ToLe(v: nat, n: nat): (s: seq<byte>)
    ensures |s| == n
  {
    if n == 0 then [] else [v % 256] + ToLe(v / 256, n - 1)
  }

  function FromLe(s: seq<byte>): (v: nat)
    ensures v < Pow256(|s|)
  {
    if s == [] then 0 else s[0] + 256 * FromLe(s[1..])
  }

  lemma {:induction false} FromToLe(v: nat, n: nat)
    requires v < Pow256(n)
    ensures FromLe(ToLe(v, n)) == v
  {
    if n > 0 {
      FromToLe(v / 256, n - 1);
      assert ToLe(v, n)[1..] == ToLe(v / 256, n - 1);
    }
  }

  function Le4(v: U32): (s: seq<byte>)
    ensures |s| == 4
  {
    ToLe(v, 4)
  }

  function Le8(v: U64): (s: seq<byte>)
    ensures |s| == 8
  {
    ToLe(v, 8)
  }

  function Read4(s: seq<byte>): U32
    requires |s| == 4
  {
    FromLe(s)
  }

  function Read8(s: seq<byte>): U64
    requires |s| == 8
  {
    FromLe(s)
  }

  lemma Read4Back(v: U32)
    ensures Read4(Le4(v)) == v
  {
    FromToLe(v, 4);
  }

  lemma Read8Back(v: U64)
    ensures Read8(Le8(v)) == v
  {
    FromToLe(v, 8);
  }

  // ---- the blob ----

  const ZERO2: seq<byte> := [0, 0]

  function Header(x: Alert, d: Dates): seq<byte>
    requires Alertable(x.kind)
  {
    [TypeByte(x.kind)] + Le4(KIND_ALERT) + SwapRb(x.color) + Le4(x.thickness) + Le4(ToPen(x.lineKind)) + [1] + Le4(0)
    + Le8(d.toWire(x.created)) + ZERO2 + Le8(x.strategy) + Le8(x.uid)
  }

  function NodeBytes(n: Node, d: Dates): (s: seq<byte>)
    ensures |s| == 16
  {
    Le8(d.toWire(n.time)) + Le8(n.price)
  }

  function LevelBytes(levels: seq<U64>): (s: seq<byte>)
    ensures |s| == 8 * |levels|
  {
    if levels == [] then [] else LevelBytes(levels[..|levels| - 1]) + Le8(levels[|levels| - 1])
  }

  function FibHead(zero: U64, one: U64, time: U64): (s: seq<byte>)
    ensures |s| == 41
  {
    Le8(zero) + Le8(one) + Le8(time) + Le8(0) + Le8(0) + [0]
  }

  function Payload(k: FigureKind, d: Dates): seq<byte>
    requires Alertable(k)
  {
    match k
    case HLine(price) => Le8(price) + ZERO2
    case Segment(a, b) => NodeBytes(a, d) + NodeBytes(b, d)
    case Triangle(a, b, c) => NodeBytes(a, d) + NodeBytes(b, d) + NodeBytes(c, d)
    case Channel(price1, price2) => Le8(price1) + Le8(price2) + ZERO2
    case MbFib(zero, one, time, levels) =>
      FibHead(zero, one, d.toWire(time)) + LevelBytes(levels)
  }

  /** Local-only figures have no blob. */
  function Encoded(x: Alert, d: Dates): Option<seq<byte>> {
    if Alertable(x.kind) then Some(Header(x, d) + Payload(x.kind, d)) else None
  }

  method PushLevels(out: seq<byte>, levels: Levels) returns (longer: seq<byte>)
    ensures longer == out + LevelBytes(levels)
  {
    longer := out;
    for i := 0 to |levels|
      invariant longer == out + LevelBytes(levels[..i])
    {
      assert levels[..i + 1][..i] == levels[..i];
      longer := longer + Le8(levels[i]);
    }
    assert levels[..|levels|] == levels;
  }

  /** What precedes the levels: the two prices, the time, two zero words and a zero byte. */
  method PushFib(out: seq<byte>, zero: U64, one: U64, time: U64) returns (longer: seq<byte>)
    ensures longer == out + FibHead(zero, one, time)
  {
    longer := out + Le8(zero);
    longer := longer + Le8(one);
    longer := longer + Le8(time);
    longer := longer + Le8(0);
    longer := longer + Le8(0);
    longer := longer + [0];
  }

  lemma Join(a: seq<byte>, b: seq<byte>, c: seq<byte>)
    ensures a + b + c == a + (b + c)
  {
  }

  method PushPayload(out: seq<byte>, k: FigureKind, d: Dates) returns (blob: seq<byte>)
    requires Alertable(k)
    ensures blob == out + Payload(k, d)
  {
    blob := out;
    match k
    case HLine(price) =>
      Join(out, Le8(price), ZERO2);
      blob := blob + Le8(price);
      blob := blob + ZERO2;
    case Segment(a, b) =>
      Join(out, NodeBytes(a, d), NodeBytes(b, d));
      blob := blob + NodeBytes(a, d);
      blob := blob + NodeBytes(b, d);
    case Triangle(a, b, c) =>
      Join(out, NodeBytes(a, d), NodeBytes(b, d));
      Join(out, NodeBytes(a, d) + NodeBytes(b, d), NodeBytes(c, d));
      blob := blob + NodeBytes(a, d);
      blob := blob + NodeBytes(b, d);
      blob := blob + NodeBytes(c, d);
    case Channel(price1, price2) =>
      Join(out, Le8(price1), Le8(price2));
      Join(out, Le8(price1) + Le8(price2), ZERO2);
      blob := blob + Le8(price1);
      blob := blob + Le8(price2);
      blob := blob + ZERO2;
    case MbFib(zero, one, time, levels) =>
      Join(out, FibHead(zero, one, d.toWire(time)), LevelBytes(levels));
      blob := PushFib(blob, zero, one, d.toWire(time));
      blob := PushLevels(blob, levels);
  }

  method Encode(x: Alert, d: Dates) returns (r: Option<seq<byte>>)
    ensures r == Encoded(x, d)
  {
    if !Alertable(x.kind) {
      return None;
    }
    var out: seq<byte> := [TypeByte(x.kind)];
    out := out + Le4(KIND_ALERT);
    out := out + SwapRb(x.color);
    out := out + Le4(x.thickness);
    out := out + Le4(ToPen(x.lineKind));
    out := out + [1];
    out := out + Le4(0);
    out := out + Le8(d.toWire(x.created));
    out := out + ZERO2;
    out := out + Le8(x.strategy);
    out := out + Le8(x.uid);
    var blob := PushPayload(out, x.kind, d);
    r := Some(blob);
  }

  // ---- decoding ----

  /** Eight bytes at an offset, if they are all there. */
  function F64At(blob: seq<byte>, off: nat): Option<U64> {
    if off + 8 <= |blob| then Some(Read8(blob[off..off + 8])) else None
  }

  function NodeAt(blob: seq<byte>, off: nat, d: Dates): Option<Node> {
    if off + 16 <= |blob|
    then Some(Node(d.fromWire(Read8(blob[off..off + 8])), Read8(blob[off + 8..off + 16])))
    else None
  }

  function LevelsAt(blob: seq<byte>, off: nat, n: nat): (l: seq<U64>)
    requires off + 8 * n <= |blob|
    ensures |l| == n
  {
    if n == 0 then [] else LevelsAt(blob, off, n - 1) + [Read8(blob[off + 8 * (n - 1)..off + 8 * n])]
  }

  function KindAt(blob: seq<byte>, d: Dates): Option<FigureKind>
    requires |blob| >= PAYLOAD_OFF + 8
  {
    var p := PAYLOAD_OFF;
    match blob[0]
    case 1 => Some(HLine(F64At(blob, p).value))
    case 2 =>
      var (a, b) := (NodeAt(blob, p, d), NodeAt(blob, p + 16, d));
      if a.Some? && b.Some? then Some(Segment(a.value, b.value)) else None
    case 3 =>
      if |blob| != MB_FIB_LEN then None
      else Some(MbFib(F64At(blob, p).value, F64At(blob, p + 8).value, d.fromWire(F64At(blob, p + 16).value),
                      LevelsAt(blob, MB_FIB_LEVELS_OFF, MB_FIB_LEVELS)))
    case 4 =>
      var (a, b, c) := (NodeAt(blob, p, d), NodeAt(blob, p + 16, d), NodeAt(blob, p + 32, d));
      if a.Some? && b.Some? && c.Some? then Some(Triangle(a.value, b.value, c.value)) else None
    case 5 =>
      var (a, b) := (F64At(blob, p), F64At(blob, p + 8));
      if a.Some? && b.Some? then Some(Channel(a.value, b.value)) else None
    case _ => None
  }

  function Decoded(blob: seq<byte>, d: Dates): Option<Alert> {
    if |blob| < PAYLOAD_OFF + 8 then None
    else
      var kind := KindAt(blob, d);
      if kind.None? then None
      else
        Some(Alert(kind.value, SwapRb(blob[5..9]), Repaired(Read4(blob[9..13])), FromPen(Read4(blob[13..17])),
                   d.fromWire(Read8(blob[22..30])), Read8(blob[32..40]), Read8(blob[40..48])))
  }

  /** Fills the level array word by word. */
  method ReadLevels(blob: seq<byte>) returns (levels: Levels)
    requires |blob| == MB_FIB_LEN
    ensures levels == LevelsAt(blob, MB_FIB_LEVELS_OFF, MB_FIB_LEVELS)
  {
    var filled := new U64[MB_FIB_LEVELS](_ => 0);
    for i := 0 to MB_FIB_LEVELS
      invariant filled[..i] == LevelsAt(blob, MB_FIB_LEVELS_OFF, i)
    {
      var off := MB_FIB_LEVELS_OFF + i * 8;
      filled[i] := Read8(blob[off..off + 8]);
      assert filled[..i + 1] == filled[..i] + [filled[i]];
    }
    levels := filled[..];
  }

  method Decode(blob: seq<byte>, d: Dates) returns (r: Option<Alert>)
    ensures r == Decoded(blob, d)
  {
    if |blob| < PAYLOAD_OFF + 8 {
      return None;
    }
    var color := SwapRb([blob[5], blob[6], blob[7], blob[8]]);
    assert blob[5..9] == [blob[5], blob[6], blob[7], blob[8]];
    var thickness := Repaired(Read4(blob[9..13]));
    var lineKind := FromPen(Read4(blob[13..17]));
    var created := d.fromWire(Read8(blob[22..30]));
    var strategy, uid := Read8(blob[32..40]), Read8(blob[40..48]);
    var kind := KindAt(blob, d);
    if blob[0] == 3 {
      if |blob| != MB_FIB_LEN {
        return None;
      }
      var levels := ReadLevels(blob);
      kind := Some(MbFib(F64At(blob, PAYLOAD_OFF).value, F64At(blob, PAYLOAD_OFF + 8).value,
                         d.fromWire(F64At(blob, PAYLOAD_OFF + 16).value), levels));
    }
    if kind.None? {
      return None;
    }
    r := Some(Alert(kind.value, color, thickness, lineKind, created, strategy, uid));
  }

  /** The least length a blob of a type needs; a fibo must be exactly that long. */
  function NeedOf(ty: byte): Option<nat> {
    match ty
    case 1 => Some(56)
    case 2 => Some(80)
    case 3 => Some(145)
    case 4 => Some(96)
    case 5 => Some(64)
    case _ => None
  }

  /** Which blobs decode at all. */
  lemma DecodesIff(blob: seq<byte>, d: Dates)
    ensures Decoded(blob, d).Some? <==>
              && |blob| >= 56
              && (|| blob[0] == 1
                  || (blob[0] == 2 && |blob| >= 80)
                  || (blob[0] == 3 && |blob| == 145)
                  || (blob[0] == 4 && |blob| >= 96)
                  || (blob[0] == 5 && |blob| >= 64))
  {
  }

  // ---- layout ----

  /** A run of bytes stands at an offset. */
  predicate Field(blob: seq<byte>, off: nat, bytes: seq<byte>) {
    off + |bytes| <= |blob| && blob[off..off + |bytes|] == bytes
  }

  lemma Grow(out: seq<byte>, more: seq<byte>)
    ensures Field(out + more, |out|, more)
    ensures forall off: nat, bytes :: Field(out, off, bytes) ==> Field(out + more, off, bytes)
  {
    forall off: nat, bytes | Field(out, off, bytes) ensures Field(out + more, off, bytes) {
      assert (out + more)[off..off + |bytes|] == out[off..off + |bytes|];
    }
  }

  /** The header is 48 bytes with every field at its documented offset. */
  predicate HeaderAt(blob: seq<byte>, x: Alert, d: Dates)
    requires Alertable(x.kind)
  {
    && Field(blob, 0, [TypeByte(x.kind)]) && Field(blob, 1, Le4(KIND_ALERT)) && Field(blob, 5, SwapRb(x.color))
    && Field(blob, 9, Le4(x.thickness)) && Field(blob, 13, Le4(ToPen(x.lineKind))) && Field(blob, 17, [1])
    && Field(blob, 18, Le4(0)) && Field(blob, 22, Le8(d.toWire(x.created))) && Field(blob, 30, ZERO2)
    && Field(blob, 32, Le8(x.strategy)) && Field(blob, 40, Le8(x.uid))
  }

  /** The first half of the header, up to the line kind. */
  function HeadStart(x: Alert): (s: seq<byte>)
    requires Alertable(x.kind)
    ensures |s| == 17
  {
    [TypeByte(x.kind)] + Le4(KIND_ALERT) + SwapRb(x.color) + Le4(x.thickness) + Le4(ToPen(x.lineKind))
  }

  lemma HeaderLayout(x: Alert, d: Dates)
    requires Alertable(x.kind)
    ensures |Header(x, d)| == PAYLOAD_OFF && HeaderAt(Header(x, d), x, d)
  {
    var a := HeadStart(x);
    var b := a + [1];
    var c := b + Le4(0);
    var e := c + Le8(d.toWire(x.created));
    var f := e + ZERO2;
    var g := f + Le8(x.strategy);
    Grow(a, [1]);
    Grow(b, Le4(0));
    Grow(c, Le8(d.toWire(x.created)));
    Grow(e, ZERO2);
    Grow(f, Le8(x.strategy));
    Grow(g, Le8(x.uid));
  }

  /** The same in bytes: the figure's type, the object kind 13, the colour as B, G, R, A, the line kind's number. */
  lemma HeaderBytes(x: Alert, d: Dates)
    requires Alertable(x.kind)
    ensures var (h, c) := (Header(x, d), x.color);
            && |h| == 48
            && h[0] == (if x.kind.HLine? then 1 else if x.kind.Segment? then 2 else if x.kind.MbFib? then 3
                        else if x.kind.Triangle? then 4 else 5)
            && h[1..5] == [13, 0, 0, 0] && h[5..9] == [c[2], c[1], c[0], c[3]] && h[17] == 1
            && h[13..17] == [if x.lineKind.Solid? then 0 else if x.lineKind.Dash? then 1 else if x.lineKind.Dot? then 2
                             else if x.lineKind.DashDot? then 3 else 4, 0, 0, 0]
  {
    HeaderLayout(x, d);
    var h := Header(x, d);
    assert h[0..1] == [TypeByte(x.kind)] && h[17..18] == [1];
    assert h[0] == h[0..1][0] && h[17] == h[17..18][0];
    SmallWord(KIND_ALERT);
    SmallWord(ToPen(x.lineKind));
  }

  lemma SmallWord(v: U32)
    requires v < 256
    ensures Le4(v) == [v, 0, 0, 0]
  {
    assert ToLe(0, 0) == [] && ToLe(0, 1) == [0] && ToLe(0, 2) == [0, 0] && ToLe(0, 3) == [0, 0, 0];
  }

  /** Reading a written word gives it back. */
  lemma ReadField8(blob: seq<byte>, off: nat, v: U64)
    requires Field(blob, off, Le8(v))
    ensures F64At(blob, off) == Some(v)
  {
    Read8Back(v);
  }

  lemma ReadField4(blob: seq<byte>, off: nat, v: U32)
    requires Field(blob, off, Le4(v))
    ensures Read4(blob[off..off + 4]) == v
  {
    Read4Back(v);
  }

  lemma ReadNode(blob: seq<byte>, off: nat, n: Node, d: Dates)
    requires Exact(d) && Field(blob, off, NodeBytes(n, d))
    ensures NodeAt(blob, off, d) == Some(n)
  {
    var bytes := NodeBytes(n, d);
    assert bytes[..8] == Le8(d.toWire(n.time)) && bytes[8..] == Le8(n.price);
    assert blob[off..off + 8] == bytes[..8] && blob[off + 8..off + 16] == bytes[8..];
    Read8Back(d.toWire(n.time));
    Read8Back(n.price);
  }

  lemma WordsRead(blob: seq<byte>, x: Alert, d: Dates)
    requires Exact(d) && Alertable(x.kind) && HeaderAt(blob, x, d)
    ensures |blob| >= 48 && d.fromWire(Read8(blob[22..30])) == x.created
    ensures Read8(blob[32..40]) == x.strategy && Read8(blob[40..48]) == x.uid
  {
    ReadField8(blob, 22, d.toWire(x.created));
    ReadField8(blob, 32, x.strategy);
    ReadField8(blob, 40, x.uid);
  }

  /** The header fields of a blob, read back. */
  lemma HeaderReads(blob: seq<byte>, x: Alert, d: Dates)
    requires Exact(d) && Alertable(x.kind) && HeaderAt(blob, x, d)
    ensures |blob| >= 48 && blob[0] == TypeByte(x.kind) && SwapRb(blob[5..9]) == x.color
    ensures Read4(blob[9..13]) == x.thickness && FromPen(Read4(blob[13..17])) == x.lineKind
    ensures d.fromWire(Read8(blob[22..30])) == x.created
    ensures Read8(blob[32..40]) == x.strategy && Read8(blob[40..48]) == x.uid
  {
    WordsRead(blob, x, d);
    ReadField4(blob, 9, x.thickness);
    ReadField4(blob, 13, ToPen(x.lineKind));
    assert blob[0..1] == [TypeByte(x.kind)];
    assert blob[0] == blob[0..1][0];
  }

  // ---- payloads ----

  lemma {:induction false} LevelsLayout(blob: seq<byte>, off: nat, levels: seq<U64>)
    requires Field(blob, off, LevelBytes(levels))
    ensures LevelsAt(blob, off, |levels|) == levels
  {
    if levels != [] {
      var n := |levels| - 1;
      var init := levels[..n];
      var bytes := LevelBytes(levels);
      assert bytes[..8 * n] == LevelBytes(init) && bytes[8 * n..] == Le8(levels[n]);
      assert blob[off..off + 8 * n] == bytes[..8 * n];
      LevelsLayout(blob, off, init);
      assert blob[off + 8 * n..off + 8 * (n + 1)] == bytes[8 * n..];
      Read8Back(levels[n]);
    }
  }

  predicate FibAt(p: seq<byte>, off: nat, k: FigureKind, d: Dates)
    requires k.MbFib?
  {
    && Field(p, off, Le8(k.zero)) && Field(p, off + 8, Le8(k.one)) && Field(p, off + 16, Le8(d.toWire(k.time)))
    && Field(p, off + 41, LevelBytes(k.levels))
  }

  lemma FibReads(blob: seq<byte>, k: FigureKind, d: Dates)
    requires k.MbFib? && Exact(d) && |blob| == MB_FIB_LEN && blob[0] == 3 && FibAt(blob, PAYLOAD_OFF, k, d)
    ensures KindAt(blob, d) == Some(k)
  {
    ReadField8(blob, PAYLOAD_OFF, k.zero);
    ReadField8(blob, PAYLOAD_OFF + 8, k.one);
    ReadField8(blob, PAYLOAD_OFF + 16, d.toWire(k.time));
    LevelsLayout(blob, MB_FIB_LEVELS_OFF, k.levels);
  }

  lemma FibHeadLayout(zero: U64, one: U64, time: U64)
    ensures var s := FibHead(zero, one, time);
            Field(s, 0, Le8(zero)) && Field(s, 8, Le8(one)) && Field(s, 16, Le8(time))
  {
  }

  /** A field keeps its bytes behind a prefix. */
  lemma Behind(head: seq<byte>, blob: seq<byte>, off: nat, bytes: seq<byte>)
    requires Field(blob, off, bytes)
    ensures Field(head + blob, |head| + off, bytes)
  {
    assert (head + blob)[|head| + off..|head| + off + |bytes|] == blob[off..off + |bytes|];
  }

  lemma FibLayout(head: seq<byte>, k: FigureKind, d: Dates)
    requires k.MbFib?
    ensures FibAt(head + Payload(k, d), |head|, k, d)
  {
    var time := d.toWire(k.time);
    var a, l := FibHead(k.zero, k.one, time), LevelBytes(k.levels);
    FibHeadLayout(k.zero, k.one, time);
    Grow(a, l);
    Behind(head, a + l, 0, Le8(k.zero));
    Behind(head, a + l, 8, Le8(k.one));
    Behind(head, a + l, 16, Le8(time));
    Behind(head, a + l, 41, l);
  }

  lemma FibBack(head: seq<byte>, k: FigureKind, d: Dates)
    requires k.MbFib? && Exact(d) && |head| == PAYLOAD_OFF && head[0] == 3
    ensures KindAt(head + Payload(k, d), d) == Some(k)
  {
    FibLayout(head, k, d);
    FibReads(head + Payload(k, d), k, d);
  }

  lemma SegmentBack(head: seq<byte>, k: FigureKind, d: Dates)
    requires k.Segment? && Exact(d) && |head| == PAYLOAD_OFF && head[0] == 2
    ensures KindAt(head + Payload(k, d), d) == Some(k)
  {
    var a, b := NodeBytes(k.a, d), NodeBytes(k.b, d);
    assert Field(a, 0, a);
    Grow(a, b);
    Behind(head, a + b, 0, a);
    Behind(head, a + b, 16, b);
    ReadNode(head + Payload(k, d), PAYLOAD_OFF, k.a, d);
    ReadNode(head + Payload(k, d), PAYLOAD_OFF + 16, k.b, d);
  }

  lemma TriangleBack(head: seq<byte>, k: FigureKind, d: Dates)
    requires k.Triangle? && Exact(d) && |head| == PAYLOAD_OFF && head[0] == 4
    ensures KindAt(head + Payload(k, d), d) == Some(k)
  {
    var a, b, c := NodeBytes(k.a, d), NodeBytes(k.b, d), NodeBytes(k.c, d);
    assert Field(a, 0, a);
    Grow(a, b);
    Grow(a + b, c);
    Behind(head, a + b + c, 0, a);
    Behind(head, a + b + c, 16, b);
    Behind(head, a + b + c, 32, c);
    ReadNode(head + Payload(k, d), PAYLOAD_OFF, k.a, d);
    ReadNode(head + Payload(k, d), PAYLOAD_OFF + 16, k.b, d);
    ReadNode(head + Payload(k, d), PAYLOAD_OFF + 32, k.c, d);
  }

  lemma LineBack(head: seq<byte>, k: FigureKind, d: Dates)
    requires k.HLine? && |head| == PAYLOAD_OFF && head[0] == 1
    ensures KindAt(head + Payload(k, d), d) == Some(k)
  {
    var a := Le8(k.price);
    assert Field(a, 0, a);
    Grow(a, ZERO2);
    Behind(head, a + ZERO2, 0, a);
    ReadField8(head + Payload(k, d), PAYLOAD_OFF, k.price);
  }

  lemma ChannelBack(head: seq<byte>, k: FigureKind, d: Dates)
    requires k.Channel? && |head| == PAYLOAD_OFF && head[0] == 5
    ensures KindAt(head + Payload(k, d), d) == Some(k)
  {
    var a, b := Le8(k.price1), Le8(k.price2);
    assert Field(a, 0, a);
    Grow(a, b);
    Grow(a + b, ZERO2);
    Behind(head, a + b + ZERO2, 0, a);
    Behind(head, a + b + ZERO2, 8, b);
    ReadField8(head + Payload(k, d), PAYLOAD_OFF, k.price1);
    ReadField8(head + Payload(k, d), PAYLOAD_OFF + 8, k.price2);
  }

  lemma KindBack(head: seq<byte>, k: FigureKind, d: Dates)
    requires Alertable(k) && Exact(d) && |head| == PAYLOAD_OFF && head[0] == TypeByte(k)
    ensures KindAt(head + Payload(k, d), d) == Some(k)
  {
    match k
    case HLine(_) => LineBack(head, k, d);
    case Channel(_, _) => ChannelBack(head, k, d);
    case MbFib(_, _, _, _) => FibBack(head, k, d);
    case Segment(_, _) => SegmentBack(head, k, d);
    case Triangle(_, _, _) => TriangleBack(head, k, d);
  }

  // ---- round trips ----

  /** Decoding what was encoded gives the figure back, with its thickness repaired. */
  lemma DecodeEncode(x: Alert, d: Dates)
    requires Exact(d) && Alertable(x.kind)
    ensures Decoded(Encoded(x, d).value, d) == Some(x.(thickness := Repaired(x.thickness)))
  {
    var head, p := Header(x, d), Payload(x.kind, d);
    HeaderLayout(x, d);
    Grow(head, p);
    assert HeaderAt(head + p, x, d);
    HeaderReads(head, x, d);
    HeaderReads(head + p, x, d);
    KindBack(head, x.kind, d);
  }

  /** Exactly the figures whose thickness is drawable survive the round trip unchanged. */
  lemma RoundTripIff(x: Alert, d: Dates)
    requires Exact(d) && Alertable(x.kind)
    ensures Decoded(Encoded(x, d).value, d) == Some(x) <==> MIN_THICKNESS <= x.thickness <= MAX_THICKNESS
  {
    DecodeEncode(x, d);
  }

  /** Encoding loses nothing: figures with the same blob are the same figure. */
  lemma EncodedInjective(x: Alert, y: Alert, d: Dates)
    requires Exact(d) && Alertable(x.kind) && Alertable(y.kind) && Encoded(x, d) == Encoded(y, d)
    ensures x == y
  {
    DecodeEncode(x, d);
    DecodeEncode(y, d);
    HeaderLayout(x, d);
    HeaderLayout(y, d);
    Grow(Header(x, d), Payload(x.kind, d));
    Grow(Header(y, d), Payload(y.kind, d));
    ReadField4(Encoded(x, d).value, 9, x.thickness);
    ReadField4(Encoded(y, d).value, 9, y.thickness);
  }

  /** Re-encoding a decoded blob reproduces it byte for byte exactly when its figure was drawable. */
  lemma ReencodeReproducesIff(x: Alert, d: Dates)
    requires Exact(d) && Alertable(x.kind)
    ensures Encoded(Decoded(Encoded(x, d).value, d).value, d) == Encoded(x, d)
            <==> MIN_THICKNESS <= x.thickness <= MAX_THICKNESS
  {
    DecodeEncode(x, d);
    var y := x.(thickness := Repaired(x.thickness));
    if Encoded(y, d) == Encoded(x, d) { EncodedInjective(y, x, d); }
  }

  /** Whatever blob arrives, one decode settles it: encoding the result and decoding again changes nothing. */
  lemma DecodeSettles(blob: seq<byte>, d: Dates)
    requires Exact(d) && Decoded(blob, d).Some?
    ensures var x := Decoded(blob, d).value;
            Alertable(x.kind) && Decoded(Encoded(x, d).value, d) == Some(x)
  {
    var x := Decoded(blob, d).value;
    assert Alertable(x.kind);
    RoundTripIff(x, d);
  }
}

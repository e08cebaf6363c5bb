/** WebSocket framing (sections 5.2 and 5.3 of RFC 6455): the frame printer and
    socket reader of tools/replay_benchmark.py and the raw-buffer parser of
    tools/match_capture.py. */
module Frames {
  import opened Basics

  type Bytes = seq<Byte>
  type Mask = m: Bytes | |m| == 4 witness [0, 0, 0, 0]

  const MAX_SIZE: nat := 0x1_0000_0000_0000_0000

  /** What a sender puts in a frame, and what a receiver takes out. */
  datatype Outgoing = Outgoing(opcode: Byte, payload: Bytes, mask: Option<Mask>)
  datatype Frame = Frame(fin: bool, opcode: Byte, payload: Bytes)

  // ------------------------------------------------------------ numbers in network order

  function Pow256(w: nat): (r: nat)
    ensures r > 0
  {
    if w == 0 then 1 else 256 * Pow256(w - 1)
  }

  function Packed(n: nat, w: nat): (r: Bytes)
    ensures |r| == w
  {
    if w == 0 then [] else Packed(n / 256, w - 1) + [n % 256]
  }

  function Unpacked(b: Bytes): nat {
    if b == [] then 0 else Unpacked(b[..|b| - 1]) * 256 + b[|b| - 1]
  }

  lemma {:induction false} UnpackedPacked(n: nat, w: nat)
    requires n < Pow256(w)
    ensures Unpacked(Packed(n, w)) == n
  {
    if w > 0 {
      UnpackedPacked(n / 256, w - 1);
      assert Packed(n, w)[..w - 1] == Packed(n / 256, w - 1);
    }
  }

  /** Network order: byte i holds the digit of weight 256 to the w - 1 - i. */
  lemma {:induction false} PackedDigits(n: nat, w: nat, i: nat)
    requires i < w
    ensures Packed(n, w)[i] == (n / Pow256(w - 1 - i)) % 256
  {
    if i < w - 1 {
      PackedDigits(n / 256, w - 1, i);
      DivideTwice(n, Pow256(w - 2 - i));
    }
  }

  lemma DivideTwice(n: nat, d: nat)
    requires d > 0
    ensures n / (256 * d) == (n / 256) / d
  {
    var q, r := n / 256, n % 256;
    var u, v := q / d, q % d;
    assert n == 256 * (d * u + v) + r;
    assert n == (256 * d) * u + (256 * v + r);
    assert 256 * v + r < 256 * d;
    QuotientIs(n, 256 * d, u, 256 * v + r);
  }

  lemma Between(d: nat, k: int)
    requires d > 0
    ensures k >= 1 ==> d * k >= d
    ensures k <= -1 ==> d * k + d <= 0
  {}

  lemma QuotientIs(n: nat, d: nat, q: nat, r: nat)
    requires d > 0 && n == d * q + r && r < d
    ensures n / d == q
  {
    var p := n / d;
    assert d * (p - q) == r - n % d;
    Between(d, p - q);
  }

  lemma Widths()
    ensures Pow256(2) == 65536 && Pow256(8) == MAX_SIZE
  {
    assert Pow256(1) == 256 && Pow256(3) == 0x100_0000 && Pow256(4) == 0x1_0000_0000;
    assert Pow256(5) == 0x100_0000_0000 && Pow256(6) == 0x1_0000_0000_0000 && Pow256(7) == 0x100_0000_0000_0000;
  }

  // ------------------------------------------------------------ bits

  function Pow2(n: nat): (r: nat)
    ensures r > 0
  {
    if n == 0 then 1 else 2 * Pow2(n - 1)
  }

  /** Exclusive or of the lowest width bits. */
  function Xor(x: nat, y: nat, width: nat): (r: nat)
    ensures r < Pow2(width)
    decreases width
  {
    if width == 0 then 0 else 2 * Xor(x / 2, y / 2, width - 1) + (x + y) % 2
  }

  lemma Halves(q: nat, x: nat, y: nat)
    ensures (2 * q + (x + y) % 2) / 2 == q && ((2 * q + (x + y) % 2) + y) % 2 == x % 2
  {}

  lemma {:induction false} XorTwice(x: nat, y: nat, width: nat)
    requires x < Pow2(width)
    ensures Xor(Xor(x, y, width), y, width) == x
    decreases width
  {
    if width > 0 {
      XorTwice(x / 2, y / 2, width - 1);
      var q := Xor(x / 2, y / 2, width - 1);
      var r := 2 * q + (x + y) % 2;
      assert r == Xor(x, y, width);
      Halves(q, x, y);
      assert Xor(r, y, width) == 2 * Xor(q, y / 2, width - 1) + x % 2;
    }
  }

  lemma EightBits()
    ensures Pow2(8) == 256
  {
    assert Pow2(4) == 16;
  }

  function XorByte(x: Byte, y: Byte): Byte {
    EightBits();
    Xor(x, y, 8)
  }

  /** 128 | x, x & 127, x & 128 and x & 15. */
  function WithHigh(x: Byte): Byte { if x < 128 then x + 128 else x }
  function Low7(x: Byte): Byte { x % 128 }
  predicate High(x: Byte) { x >= 128 }
  function Low4(x: Byte): Byte { x % 16 }

  // ------------------------------------------------------------ printing

  function Masked(payload: Bytes, key: Mask): (r: Bytes)
    ensures |r| == |payload|
  {
    seq(|payload|, i requires 0 <= i < |payload| => XorByte(payload[i], key[i % 4]))
  }

  lemma MaskTwice(payload: Bytes, key: Mask)
    ensures Masked(Masked(payload, key), key) == payload
  {
    EightBits();
    hide Xor, Pow2;
    forall i | 0 <= i < |payload| ensures Masked(Masked(payload, key), key)[i] == payload[i] {
      XorTwice(payload[i], key[i % 4], 8);
    }
  }

  /** Bytes of extended length, and the seven-bit field that announces them. */
  function ExtOf(size: nat): nat { if size < 126 then 0 else if size < 65536 then 2 else 8 }
  function FieldOf(size: nat): (n: nat)
    ensures n < 128
  {
    if size < 126 then size else if size < 65536 then 126 else 127
  }

  function First(opcode: Byte): Byte { WithHigh(opcode) }

  function Second(masked: bool, n: nat): Byte
    requires n < 128
  {
    if masked then WithHigh(n) else n
  }

  function Printed(f: Outgoing): Bytes
    requires |f.payload| < MAX_SIZE
  {
    var size := |f.payload|;
    var head := [First(f.opcode), Second(f.mask.Some?, FieldOf(size))] + Packed(size, ExtOf(size));
    match f.mask
    case Some(key) => head + key + Masked(f.payload, key)
    case None => head + f.payload
  }

  // ------------------------------------------------------------ reading

  function Field(second: Byte): nat { Low7(second) }
  predicate HasMask(second: Byte) { High(second) }
  predicate HasFin(first: Byte) { High(first) }
  function Opcode(first: Byte): Byte { Low4(first) }

  function Ext(field: nat): nat { if field == 126 then 2 else if field == 127 then 8 else 0 }

  function HeadSize(second: Byte): nat { 2 + Ext(Field(second)) + if HasMask(second) then 4 else 0 }

  function SizeIn(b: Bytes): nat
    requires |b| >= 2 && |b| >= 2 + Ext(Field(b[1]))
  {
    if Ext(Field(b[1])) == 0 then Field(b[1]) else Unpacked(b[2..2 + Ext(Field(b[1]))])
  }

  /** The bytes start with a whole frame. */
  predicate Whole(b: Bytes) {
    |b| >= 2 && |b| >= 2 + Ext(Field(b[1])) && |b| >= HeadSize(b[1]) + SizeIn(b)
  }

  function FrameSize(b: Bytes): (n: nat)
    requires Whole(b)
    ensures 2 <= n <= |b|
  {
    HeadSize(b[1]) + SizeIn(b)
  }

  function FrameIn(b: Bytes): Frame
    requires Whole(b)
  {
    var h := HeadSize(b[1]);
    var body := b[h..FrameSize(b)];
    Frame(HasFin(b[0]), Opcode(b[0]), if HasMask(b[1]) then Masked(body, b[h - 4..h]) else body)
  }

  /** The frames of a stream up to a cut-off tail: read_frame until the socket ends. */
  function ReadAll(b: Bytes): seq<Frame>
    decreases |b|
  {
    if !Whole(b) then [] else [FrameIn(b)] + ReadAll(b[FrameSize(b)..])
  }

  predicate Known(opcode: Byte) {
    opcode == 0 || opcode == 1 || opcode == 2 || opcode == 8 || opcode == 9 || opcode == 10
  }

  function KnownPrefix(fs: seq<Frame>): seq<Frame> {
    if fs == [] || !Known(fs[0].opcode) then [] else [fs[0]] + KnownPrefix(fs[1..])
  }

  // ------------------------------------------------------------ round trip

  function PrintedAll(fs: seq<Outgoing>): Bytes
    requires forall i :: 0 <= i < |fs| ==> |fs[i].payload| < MAX_SIZE
  {
    if fs == [] then [] else Printed(fs[0]) + PrintedAll(fs[1..])
  }

  function Delivered(f: Outgoing): Frame { Frame(true, Opcode(f.opcode), f.payload) }

  function DeliveredAll(fs: seq<Outgoing>): seq<Frame> {
    seq(|fs|, i requires 0 <= i < |fs| => Delivered(fs[i]))
  }

  lemma HeaderBits(masked: bool, n: nat, opcode: Byte)
    requires n < 128
    ensures Field(Second(masked, n)) == n && HasMask(Second(masked, n)) == masked
    ensures HasFin(First(opcode)) && Opcode(First(opcode)) == Opcode(opcode)
  {}

  lemma FieldMeansExt(size: nat)
    ensures Ext(FieldOf(size)) == ExtOf(size)
    ensures ExtOf(size) == 0 ==> FieldOf(size) == size
  {}

  lemma ShortestForm(size: nat)
    ensures ExtOf(size) == if size <= 125 then 0 else if size <= 0xffff then 2 else 8
  {}

  /** The length field of a printed frame gives the payload's length. */
  lemma SizeIsRead(f: Outgoing, rest: Bytes)
    requires |f.payload| < MAX_SIZE
    ensures var b := Printed(f) + rest;
            && |b| >= 2 && Field(b[1]) == FieldOf(|f.payload|) && HasMask(b[1]) == f.mask.Some?
            && |b| >= 2 + Ext(Field(b[1])) && SizeIn(b) == |f.payload|
  {
    var size := |f.payload|;
    Widths();
    if size >= 126 { UnpackedPacked(size, ExtOf(size)); }
    hide Pow256;
    var b := Printed(f) + rest;
    HeaderBits(f.mask.Some?, FieldOf(size), f.opcode);
    FieldMeansExt(size);
    hide Field, HasMask, First, Second, Masked, Packed, Unpacked, FieldOf;
    assert b[2..2 + ExtOf(size)] == Packed(size, ExtOf(size));
  }

  /** Where the mask and the body of a printed frame lie. */
  lemma BodyIsFound(f: Outgoing, rest: Bytes)
    requires |f.payload| < MAX_SIZE
    ensures var b, size, h := Printed(f) + rest, |f.payload|, 2 + ExtOf(|f.payload|) + if f.mask.Some? then 4 else 0;
            && |Printed(f)| == h + size
            && b[0] == First(f.opcode)
            && (f.mask.Some? ==> b[h - 4..h] == f.mask.value && b[h..h + size] == Masked(f.payload, f.mask.value))
            && (f.mask.None? ==> b[h..h + size] == f.payload)
  {
    hide Masked, First, Second, Packed, ExtOf, FieldOf;
  }

  /** A printed frame is read back whole, leaving what follows it. */
  lemma PrintedIsRead(f: Outgoing, rest: Bytes)
    requires |f.payload| < MAX_SIZE
    ensures var b := Printed(f) + rest;
            Whole(b) && FrameSize(b) == |Printed(f)| && FrameIn(b) == Delivered(f) && b[FrameSize(b)..] == rest
    ensures |Printed(f)| == |f.payload| + (if f.mask.Some? then 4 else 0)
                            + if |f.payload| <= 125 then 2 else if |f.payload| <= 0xffff then 4 else 10
  {
    var size, b := |f.payload|, Printed(f) + rest;
    SizeIsRead(f, rest);
    FieldMeansExt(size);
    ShortestForm(size);
    HeaderBits(f.mask.Some?, FieldOf(size), f.opcode);
    hide SizeIn, Masked, Field, HasMask, First, Second, Packed, Unpacked, HasFin, Opcode, ExtOf, FieldOf, Ext;
    BodyIsFound(f, rest);
    if f.mask.Some? { MaskTwice(f.payload, f.mask.value); }
    assert b[|Printed(f)|..] == rest;
    hide Printed;
  }

  /** A cut-off frame is not whole. */
  lemma CutIsNotWhole(f: Outgoing, n: nat)
    requires |f.payload| < MAX_SIZE && n < |Printed(f)|
    ensures !Whole(Printed(f)[..n])
  {
    PrintedIsRead(f, []);
    hide Printed, Field, HasMask, Unpacked, FrameIn, Delivered;
    var b := Printed(f);
    assert b + [] == b;
    if n >= 2 && n >= 2 + Ext(Field(b[1])) { SizeInPrefix(b, n); }
  }

  lemma SizeInPrefix(b: Bytes, n: nat)
    requires 2 <= n <= |b| && 2 + Ext(Field(b[1])) <= n
    ensures b[..n][1] == b[1] && SizeIn(b[..n]) == SizeIn(b)
  {
    hide Field, Unpacked;
    assert b[..n][2..2 + Ext(Field(b[1]))] == b[2..2 + Ext(Field(b[1]))];
  }

  predicate Fits(fs: seq<Outgoing>) { forall i :: 0 <= i < |fs| ==> |fs[i].payload| < MAX_SIZE }

  /** tail is nothing, or the beginning of some frame. */
  ghost predicate CutTail(tail: Bytes) {
    tail == [] || exists f: Outgoing, n: nat :: |f.payload| < MAX_SIZE && n < |Printed(f)| && tail == Printed(f)[..n]
  }

  /** Any concatenation of printed frames is read back as those frames, and a
      cut-off tail adds none. */
  lemma {:induction false} RoundTrip(fs: seq<Outgoing>, tail: Bytes)
    requires Fits(fs) && CutTail(tail)
    ensures ReadAll(PrintedAll(fs) + tail) == DeliveredAll(fs)
  {
    hide Whole, FrameIn, FrameSize, Printed, Delivered;
    if fs == [] {
      if tail != [] {
        var f: Outgoing, n: nat :| |f.payload| < MAX_SIZE && n < |Printed(f)| && tail == Printed(f)[..n];
        CutIsNotWhole(f, n);
      }
      assert PrintedAll(fs) + tail == tail;
    } else {
      var rest := PrintedAll(fs[1..]) + tail;
      assert PrintedAll(fs) + tail == Printed(fs[0]) + rest;
      PrintedIsRead(fs[0], rest);
      RoundTrip(fs[1..], tail);
      assert DeliveredAll(fs) == [Delivered(fs[0])] + DeliveredAll(fs[1..]);
    }
  }

  lemma {:induction false} AllKnown(fs: seq<Frame>)
    requires forall i :: 0 <= i < |fs| ==> Known(fs[i].opcode)
    ensures KnownPrefix(fs) == fs
  {
    if fs != [] { AllKnown(fs[1..]); }
  }

  lemma KnownIsLow(opcode: Byte)
    requires Known(opcode)
    ensures Opcode(opcode) == opcode
  {}

  /** raw is these frames, all of opcodes the raw parser knows, and a cut-off tail. */
  ghost predicate Captured(raw: Bytes, fs: seq<Outgoing>, tail: Bytes) {
    Fits(fs) && CutTail(tail) && (forall i :: 0 <= i < |fs| ==> Known(fs[i].opcode)) && raw == PrintedAll(fs) + tail
  }

  /** Frames of those opcodes are all read, before the first unknown one. */
  lemma RawRoundTrip(fs: seq<Outgoing>, tail: Bytes)
    requires Fits(fs) && CutTail(tail) && forall i :: 0 <= i < |fs| ==> Known(fs[i].opcode)
    ensures KnownPrefix(ReadAll(PrintedAll(fs) + tail)) == ReadAll(PrintedAll(fs) + tail) == DeliveredAll(fs)
    ensures forall i :: 0 <= i < |fs| ==> DeliveredAll(fs)[i] == Frame(true, fs[i].opcode, fs[i].payload)
  {
    RoundTrip(fs, tail);
    hide PrintedAll, ReadAll, Fits, CutTail;
    forall i | 0 <= i < |fs| ensures Opcode(fs[i].opcode) == fs[i].opcode { KnownIsLow(fs[i].opcode); }
    hide Known, Opcode;
    AllKnown(DeliveredAll(fs));
  }

  // ------------------------------------------------------------ a frame, byte by byte

  /** Bit k of a number. */
  predicate Bit(x: nat, k: nat) { (x / Pow2(k)) % 2 == 1 }

  lemma {:induction false} HalfShift(x: nat, k: nat)
    requires k > 0
    ensures Bit(x, k) <==> Bit(x / 2, k - 1)
  {
    var d := Pow2(k - 1);
    assert Pow2(k) == 2 * d;
    HalveTwice(x, d);
  }

  lemma HalveTwice(n: nat, d: nat)
    requires d > 0
    ensures n / (2 * d) == (n / 2) / d
  {
    var q, r := n / 2, n % 2;
    var u, v := q / d, q % d;
    assert n == 2 * (d * u + v) + r;
    assert n == (2 * d) * u + (2 * v + r);
    assert 2 * v + r < 2 * d;
    QuotientIs(n, 2 * d, u, 2 * v + r);
  }

  /** Exclusive or, bit by bit. */
  lemma {:induction false} XorBits(x: nat, y: nat, width: nat, k: nat)
    requires k < width
    ensures Bit(Xor(x, y, width), k) <==> Bit(x, k) != Bit(y, k)
    decreases width
  {
    var z := Xor(x, y, width);
    XorHalves(x, y, width);
    if k == 0 {
      FirstBit(z);
      FirstBit(x);
      FirstBit(y);
      hide Bit;
      OddSum(x, y);
    } else {
      XorBits(x / 2, y / 2, width - 1, k - 1);
      HalfShift(z, k);
      HalfShift(x, k);
      HalfShift(y, k);
    }
    hide Xor, Bit;
  }

  lemma XorHalves(x: nat, y: nat, width: nat)
    requires width > 0
    ensures Xor(x, y, width) / 2 == Xor(x / 2, y / 2, width - 1) && Xor(x, y, width) % 2 == (x + y) % 2
  {
    var q := Xor(x / 2, y / 2, width - 1);
    assert Xor(x, y, width) == 2 * q + (x + y) % 2;
  }

  lemma FirstBit(x: nat)
    ensures Bit(x, 0) <==> x % 2 == 1
  {
    assert Pow2(0) == 1 && x / 1 == x;
  }

  lemma OddSum(x: nat, y: nat)
    ensures (x + y) % 2 == 1 <==> (x % 2 == 1) != (y % 2 == 1)
  {}

  lemma {:induction false} BitsDecide(x: nat, y: nat, width: nat)
    requires x < Pow2(width) && y < Pow2(width) && forall k :: 0 <= k < width ==> (Bit(x, k) <==> Bit(y, k))
    ensures x == y
    decreases width
  {
    if width > 0 {
      forall k | 0 <= k < width - 1 ensures Bit(x / 2, k) <==> Bit(y / 2, k) {
        HalfShift(x, k + 1);
        HalfShift(y, k + 1);
        assert Bit(x, k + 1) <==> Bit(y, k + 1);
      }
      BitsDecide(x / 2, y / 2, width - 1);
      FirstBit(x);
      FirstBit(y);
      assert Bit(x, 0) <==> Bit(y, 0);
    }
  }

  /** z has the bits in which x and y differ. */
  ghost predicate Differ(z: Byte, x: Byte, y: Byte) {
    forall k :: 0 <= k < 8 ==> (Bit(z, k) <==> Bit(x, k) != Bit(y, k))
  }

  lemma XorDiffers(z: Byte, x: Byte, y: Byte)
    ensures Differ(z, x, y) <==> z == XorByte(x, y)
  {
    EightBits();
    forall k | 0 <= k < 8 ensures Bit(XorByte(x, y), k) <==> Bit(x, k) != Bit(y, k) { XorBits(x, y, 8, k); }
    hide Xor, Pow2;
    if Differ(z, x, y) { BitsDecide(z, XorByte(x, y), 8); }
  }

  lemma {:induction false} PackedUnpacked(b: Bytes)
    ensures Unpacked(b) < Pow256(|b|) && Packed(Unpacked(b), |b|) == b
  {
    if b != [] {
      PackedUnpacked(b[..|b| - 1]);
      assert b == b[..|b| - 1] + [b[|b| - 1]];
    }
  }

  /** size is the number that the extended length bytes write in network order. */
  lemma UnpackedMeans(b: Bytes, size: nat)
    ensures Unpacked(b) == size <==> size < Pow256(|b|) && b == Packed(size, |b|)
  {
    PackedUnpacked(b);
    if size < Pow256(|b|) { UnpackedPacked(size, |b|); }
    hide Unpacked, Packed, Pow256;
  }

  /** The first n bytes are the frame f: FIN and opcode; the mask bit and seven
      bits of length, 126 and 127 announcing two and eight bytes more of it; the
      key, if there is one; and the payload under that key. */
  ghost predicate Begins(b: Bytes, f: Frame, n: nat) {
    && 2 <= n <= |b| && f.fin == (b[0] >= 128) && f.opcode == b[0] % 16
    && var ext := if b[1] % 128 == 126 then 2 else if b[1] % 128 == 127 then 8 else 0;
       var key := if b[1] >= 128 then 4 else 0;
       var size := |f.payload|;
       && n == 2 + ext + key + size
       && (if ext == 0 then size == b[1] % 128 else size < Pow256(ext) && b[2..2 + ext] == Packed(size, ext))
       && Carries(f.payload, b, n - size, b[1] >= 128)
  }

  /** b has the payload at an offset, under the key before it if it is masked. */
  ghost predicate Carries(payload: Bytes, b: Bytes, at: nat, masked: bool)
    requires at + |payload| <= |b| && (masked ==> at >= 4)
  {
    if masked then forall i :: 0 <= i < |payload| ==> MaskedByte(payload, b, at, i)
    else forall i :: 0 <= i < |payload| ==> payload[i] == b[at + i]
  }

  ghost predicate MaskedByte(payload: Bytes, b: Bytes, at: nat, i: nat)
    requires at + |payload| <= |b| && at >= 4 && i < |payload|
  {
    Differ(payload[i], b[at + i], b[at - 4 + i % 4])
  }

  lemma MaskedMeans(p: Bytes, body: Bytes, key: Mask)
    requires |p| == |body|
    ensures p == Masked(body, key) <==> forall i :: 0 <= i < |p| ==> Differ(p[i], body[i], key[i % 4])
  {
    forall i | 0 <= i < |p| ensures Differ(p[i], body[i], key[i % 4]) <==> p[i] == XorByte(body[i], key[i % 4]) {
      XorDiffers(p[i], body[i], key[i % 4]);
    }
    hide Differ, XorByte;
    if forall i :: 0 <= i < |p| ==> p[i] == XorByte(body[i], key[i % 4]) { assert p == Masked(body, key); }
  }

  /** The payload of a whole frame, byte by byte. */
  lemma BodyIs(b: Bytes, p: Bytes)
    requires Whole(b) && |p| == SizeIn(b)
    ensures p == FrameIn(b).payload <==> Carries(p, b, HeadSize(b[1]), HasMask(b[1]))
  {
    var h := HeadSize(b[1]);
    assert b[h..FrameSize(b)] == b[h..h + |p|];
    hide SizeIn, Field, HasMask, Ext, Masked, Carries;
    if HasMask(b[1]) { MaskedCarries(p, b, h); } else { PlainCarries(p, b, h); }
  }

  lemma MaskedCarries(p: Bytes, b: Bytes, h: nat)
    requires 4 <= h && h + |p| <= |b|
    ensures p == Masked(b[h..h + |p|], b[h - 4..h]) <==> Carries(p, b, h, true)
  {
    var body, key := b[h..h + |p|], b[h - 4..h];
    MaskedMeans(p, body, key);
    forall i | 0 <= i < |p| ensures Differ(p[i], body[i], key[i % 4]) <==> MaskedByte(p, b, h, i) {
      SameByte(p, b, h, i);
    }
    hide Masked, Differ, MaskedByte;
  }

  lemma SameByte(p: Bytes, b: Bytes, h: nat, i: nat)
    requires 4 <= h && h + |p| <= |b| && i < |p|
    ensures Differ(p[i], b[h..h + |p|][i], b[h - 4..h][i % 4]) <==> MaskedByte(p, b, h, i)
  {
    hide Differ;
    assert b[h..h + |p|][i] == b[h + i] && b[h - 4..h][i % 4] == b[h - 4 + i % 4];
  }

  lemma PlainCarries(p: Bytes, b: Bytes, h: nat)
    requires h + |p| <= |b|
    ensures p == b[h..h + |p|] <==> Carries(p, b, h, false)
  {
    var body := b[h..h + |p|];
    assert forall i :: 0 <= i < |p| ==> body[i] == b[h + i];
  }

  /** What Begins says of the length, in the readers' terms. */
  lemma LengthMeans(b: Bytes, size: nat)
    requires |b| >= 2 && |b| >= 2 + Ext(Field(b[1]))
    ensures var ext := Ext(Field(b[1]));
            SizeIn(b) == size <==>
              if ext == 0 then size == b[1] % 128 else size < Pow256(ext) && b[2..2 + ext] == Packed(size, ext)
  {
    UnpackedMeans(b[2..2 + Ext(Field(b[1]))], size);
    hide Unpacked, Packed, Pow256;
  }

  /** There is such a frame exactly where the readers take one, and it is that. */
  lemma BeginsIff(b: Bytes, f: Frame, n: nat)
    ensures Begins(b, f, n) <==> Whole(b) && f == FrameIn(b) && n == FrameSize(b)
  {
    hide Unpacked, Packed, Pow256, Masked, Differ, SizeIn;
    if |b| >= 2 && |b| >= 2 + Ext(Field(b[1])) {
      LengthMeans(b, |f.payload|);
      if Whole(b) && |f.payload| == SizeIn(b) {
        BodyIs(b, f.payload);
      }
    }
    hide Carries;
  }

  // ------------------------------------------------------------ the socket reader

  lemma SliceOfTail(raw: Bytes, offset: nat, i: nat, j: nat)
    requires i <= j && offset + j <= |raw|
    ensures raw[offset..][i..j] == raw[offset + i..offset + j]
    ensures raw[offset..][..j] == raw[offset..offset + j] && raw[offset..][j..] == raw[offset + j..]
  {}

  /** A connection whose peer has sent rest and then closed: recv hands over
      some of it, as it pleases, and nothing once all is gone. */
  class Socket {
    var rest: Bytes

    constructor (sent: Bytes)
      ensures rest == sent
    {
      rest := sent;
    }

    method Recv(size: nat) returns (part: Bytes)
      requires size > 0
      modifies this
      ensures old(rest) == part + rest && |part| <= size
      ensures part == [] <==> old(rest) == []
    {
      if rest == [] { return []; }
      var n: nat :| 1 <= n <= size && n <= |rest|;
      part := rest[..n];
      rest := rest[n..];
    }

    /** exact: the next size bytes, however they arrive; None for EOFError. */
    method Exact(size: nat) returns (r: Option<Bytes>)
      modifies this
      ensures size <= |old(rest)| ==> r == Some(old(rest)[..size]) && rest == old(rest)[size..]
      ensures size > |old(rest)| ==> r.None? && rest == []
    {
      var data: Bytes := [];
      while |data| < size
        invariant old(rest) == data + rest && |data| <= size
        decreases size - |data|
      {
        var part := Recv(size - |data|);
        if part == [] { return None; }
        data := data + part;
      }
      r := Some(data);
    }

    /** The announced payload size, extended field included. */
    method ReadSize(field: nat) returns (size: Option<nat>)
      modifies this
      ensures Ext(field) <= |old(rest)| ==>
                && size == Some(if Ext(field) == 0 then field else Unpacked(old(rest)[..Ext(field)]))
                && rest == old(rest)[Ext(field)..]
      ensures Ext(field) > |old(rest)| ==> size.None? && rest == []
    {
      var extension: Option<Bytes>;
      if field == 126 {
        extension := Exact(2);
      } else if field == 127 {
        extension := Exact(8);
      } else {
        return Some(field);
      }
      size := if extension.Some? then Some(Unpacked(extension.value)) else None;
    }

    /** The mask, if one is announced, and the payload. */
    method ReadBody(masked: bool, size: nat) returns (body: Option<Bytes>)
      modifies this
      ensures var all, m := old(rest), if masked then 4 else 0;
              if m + size <= |all| then
                && body == Some(if masked then Masked(all[m..m + size], all[..4]) else all[m..m + size])
                && rest == all[m + size..]
              else body.None? && rest == []
    {
      hide Masked;
      ghost var all := rest;
      if !masked {
        body := Exact(size);
        return;
      }
      var mask := Exact(4);
      if mask.None? { return None; }
      var payload := Exact(size);
      SliceOfTail(all, 4, 0, if 4 + size <= |all| then size else 0);
      body := if payload.Some? then Some(Masked(payload.value, mask.value)) else None;
    }

    /** read_frame: the next frame, or the end of the connection. */
    method ReadFrame() returns (r: Option<Frame>)
      modifies this
      ensures Whole(old(rest)) ==> r == Some(FrameIn(old(rest))) && rest == old(rest)[FrameSize(old(rest))..]
      ensures !Whole(old(rest)) ==> r.None? && rest == []
      ensures r.Some? ==> exists n: nat :: Begins(old(rest), r.value, n) && rest == old(rest)[n..]
      ensures r.None? ==> rest == [] && forall f, n :: !Begins(old(rest), f, n)
    {
      ReadMeans(rest);
      hide Begins;
      ghost var all := rest;
      hide Field, Unpacked, HasMask, HasFin, Opcode, Masked;
      var head := Exact(2);
      if head.None? { return None; }
      var second := head.value[1];
      var size := ReadSize(Field(second));
      if size.None? { return None; }
      ghost var at := 2 + Ext(Field(second));
      assert size.value == SizeIn(all) by { SliceOfTail(all, 2, 0, at - 2); }
      assert rest == all[at..];
      hide SizeIn, Ext;
      var body := ReadBody(HasMask(second), size.value);
      if body.None? { return None; }
      BodyOfFrame(all, at);
      r := Some(Frame(HasFin(head.value[0]), Opcode(head.value[0]), body.value));
    }
  }

  lemma ReadMeans(b: Bytes)
    ensures Whole(b) ==> Begins(b, FrameIn(b), FrameSize(b))
    ensures !Whole(b) ==> forall f, n :: !Begins(b, f, n)
  {
    if Whole(b) { BeginsIff(b, FrameIn(b), FrameSize(b)); }
    forall f, n: nat | !Whole(b) ensures !Begins(b, f, n) { BeginsIff(b, f, n); }
  }

  /** Mask and payload, seen from behind the length field. */
  lemma BodyOfFrame(all: Bytes, at: nat)
    requires Whole(all) && at == 2 + Ext(Field(all[1]))
    ensures var body, m := all[at..], if HasMask(all[1]) then 4 else 0;
            && m + SizeIn(all) <= |body| && body[m + SizeIn(all)..] == all[FrameSize(all)..]
            && FrameIn(all).payload == if HasMask(all[1]) then Masked(body[m..m + SizeIn(all)], body[..4])
                                       else body[m..m + SizeIn(all)]
  {
    hide SizeIn, Masked, Field, HasMask, Ext;
    var m := if HasMask(all[1]) then 4 else 0;
    SliceOfTail(all, at, m, m + SizeIn(all));
    SliceOfTail(all, at, 0, m);
  }

  // ------------------------------------------------------------ the raw-buffer parser

  /** The mask taken off in place. */
  method Unmask(payload: array<Byte>, key: Mask)
    modifies payload
    ensures payload[..] == Masked(old(payload[..]), key)
  {
    for i := 0 to payload.Length
      invariant payload[..i] == Masked(old(payload[..i]), key)
      invariant payload[i..] == old(payload[i..])
    {
      payload[i] := XorByte(payload[i], key[i % 4]);
    }
  }

  predicate CarriesData(opcode: Byte) { opcode == 0 || opcode == 1 || opcode == 2 }

  const DEFLATE_TAIL: Bytes := [0x00, 0x00, 0xff, 0xff]

  /** What is yielded for one payload: itself if it is JSON, else its inflated
      form if that exists and is JSON, else nothing. */
  function Yield(payload: Bytes, json: Bytes -> bool, inflate: Bytes -> Option<Bytes>): seq<Bytes> {
    if json(payload) then [payload]
    else
      var inflated := inflate(payload + DEFLATE_TAIL);
      if inflated.Some? && json(inflated.value) then [inflated.value] else []
  }

  /** The messages in a list of frames. */
  function Messages(fs: seq<Frame>, json: Bytes -> bool, inflate: Bytes -> Option<Bytes>): seq<Bytes> {
    if fs == [] then []
    else (if CarriesData(fs[0].opcode) then Yield(fs[0].payload, json, inflate) else [])
         + Messages(fs[1..], json, inflate)
  }

  /** part is what a frame with this payload yields. */
  ghost predicate Yields(f: Frame, json: Bytes -> bool, inflate: Bytes -> Option<Bytes>, part: seq<Bytes>) {
    if f.opcode != 0 && f.opcode != 1 && f.opcode != 2 then part == []
    else if json(f.payload) then part == [f.payload]
    else
      match inflate(f.payload + [0x00, 0x00, 0xff, 0xff])
      case Some(text) => part == if json(text) then [text] else []
      case None => part == []
  }

  ghost predicate BeginsKnown(raw: Bytes, f: Frame, n: nat) {
    Begins(raw, f, n) && f.opcode in {0, 1, 2, 8, 9, 10}
  }

  /** out is what the frames at the front of raw yield, one after the other, up
      to where none of a known opcode begins. */
  ghost predicate Parsed(raw: Bytes, json: Bytes -> bool, inflate: Bytes -> Option<Bytes>, out: seq<Bytes>)
    decreases |raw|
  {
    if exists f, n: nat :: BeginsKnown(raw, f, n) then
      exists f, n: nat, part ::
        && BeginsKnown(raw, f, n) && Yields(f, json, inflate, part) && |part| <= |out| && part == out[..|part|]
        && Parsed(raw[n..], json, inflate, out[|part|..])
    else out == []
  }

  lemma {:induction false} MessagesAreParsed(raw: Bytes, json: Bytes -> bool, inflate: Bytes -> Option<Bytes>)
    ensures Parsed(raw, json, inflate, Messages(KnownPrefix(ReadAll(raw)), json, inflate))
    decreases |raw|
  {
    ReadMeans(raw);
    hide Begins, Yields, Yield, Whole;
    var out := Messages(KnownPrefix(ReadAll(raw)), json, inflate);
    if Whole(raw) && Known(Opcode(raw[0])) {
      var f, n := FrameIn(raw), FrameSize(raw);
      var part := if CarriesData(f.opcode) then Yield(f.payload, json, inflate) else [];
      YieldMeans(f, json, inflate);
      MessagesAreParsed(raw[n..], json, inflate);
      MessagesAfter(raw, json, inflate);
      assert BeginsKnown(raw, f, n);
      assert out[..|part|] == part && out[|part|..] == Messages(KnownPrefix(ReadAll(raw[n..])), json, inflate);
    } else {
      NoMoreMessages(raw, json, inflate);
      forall f, n: nat ensures !BeginsKnown(raw, f, n) { BeginsIff(raw, f, n); }
    }
  }

  lemma YieldMeans(f: Frame, json: Bytes -> bool, inflate: Bytes -> Option<Bytes>)
    ensures Yields(f, json, inflate, if CarriesData(f.opcode) then Yield(f.payload, json, inflate) else [])
  {}

  /** The frame at an offset and where it ends; None where the parser stops. */
  method FrameAt(raw: Bytes, offset: nat) returns (r: Option<(Frame, nat)>)
    requires offset + 2 <= |raw|
    ensures var b := raw[offset..];
            r == if Whole(b) && Known(Opcode(b[0])) then Some((FrameIn(b), offset + FrameSize(b))) else None
  {
    hide Unpacked, Masked, HasFin, HasMask, Field, Opcode, Known;
    ghost var b := raw[offset..];
    var first, second := raw[offset], raw[offset + 1];
    var opcode := Opcode(first);
    if !Known(opcode) { return None; }
    var length, header := Field(second), 2;
    if length == 126 {
      if offset + 4 > |raw| { return None; }
      SliceOfTail(raw, offset, 2, 4);
      length, header := Unpacked(raw[offset + 2..offset + 4]), 4;
    } else if length == 127 {
      if offset + 10 > |raw| { return None; }
      SliceOfTail(raw, offset, 2, 10);
      length, header := Unpacked(raw[offset + 2..offset + 10]), 10;
    }
    assert length == SizeIn(b);
    var masked := HasMask(second);
    if masked { header := header + 4; }
    assert header == HeadSize(b[1]);
    hide SizeIn, HeadSize, Ext;
    var end := offset + header + length;
    if end > |raw| { return None; }
    var payload := PayloadAt(raw, offset + header, end, masked);
    SliceOfTail(raw, offset, header, header + length);
    if masked { SliceOfTail(raw, offset, header - 4, header); }
    r := Some((Frame(HasFin(first), opcode, payload), end));
  }

  /** The bytes of [start, end), unmasked with the key before them. */
  method PayloadAt(raw: Bytes, start: nat, end: nat, masked: bool) returns (r: Bytes)
    requires start <= end <= |raw| && (masked ==> start >= 4)
    ensures r == if masked then Masked(raw[start..end], raw[start - 4..start]) else raw[start..end]
  {
    var payload := new Byte[end - start](i requires 0 <= i < end - start => raw[start + i]);
    assert payload[..] == raw[start..end];
    if masked { Unmask(payload, raw[start - 4..start]); }
    r := payload[..];
  }

  lemma MessagesAfter(b: Bytes, json: Bytes -> bool, inflate: Bytes -> Option<Bytes>)
    requires Whole(b) && Known(Opcode(b[0]))
    ensures Messages(KnownPrefix(ReadAll(b)), json, inflate)
         == (if CarriesData(FrameIn(b).opcode) then Yield(FrameIn(b).payload, json, inflate) else [])
            + Messages(KnownPrefix(ReadAll(b[FrameSize(b)..])), json, inflate)
  {
    hide Yield, Masked, Known, CarriesData, Whole, FrameSize;
    var fs := ReadAll(b);
    assert fs[1..] == ReadAll(b[FrameSize(b)..]);
    assert KnownPrefix(fs)[1..] == KnownPrefix(fs[1..]);
  }

  lemma NoMoreMessages(b: Bytes, json: Bytes -> bool, inflate: Bytes -> Option<Bytes>)
    requires !Whole(b) || !Known(Opcode(b[0]))
    ensures Messages(KnownPrefix(ReadAll(b)), json, inflate) == []
  {}

  /** The fallback of _json_payloads: on every buffer it takes the frames the
      socket reader would, up to the first unknown opcode; so of frames that were
      sent, it yields exactly their messages. */
  method RawPayloads(raw: Bytes, json: Bytes -> bool, inflate: Bytes -> Option<Bytes>) returns (out: seq<Bytes>)
    ensures out == Messages(KnownPrefix(ReadAll(raw)), json, inflate) && Parsed(raw, json, inflate, out)
    ensures forall fs, tail :: Captured(raw, fs, tail) ==> out == Messages(DeliveredAll(fs), json, inflate)
  {
    forall fs, tail | Captured(raw, fs, tail) ensures KnownPrefix(ReadAll(raw)) == DeliveredAll(fs) {
      RawRoundTrip(fs, tail);
    }
    MessagesAreParsed(raw, json, inflate);
    hide Parsed;
    out := ParseRaw(raw, json, inflate);
  }

  method ParseRaw(raw: Bytes, json: Bytes -> bool, inflate: Bytes -> Option<Bytes>) returns (out: seq<Bytes>)
    ensures out == Messages(KnownPrefix(ReadAll(raw)), json, inflate)
  {
    hide Yield, Known, CarriesData, FrameIn, FrameSize, Messages, KnownPrefix, ReadAll, Opcode;
    out := [];
    var offset := 0;
    assert raw[0..] == raw;
    while offset + 2 <= |raw|
      invariant 0 <= offset <= |raw|
      invariant Messages(KnownPrefix(ReadAll(raw)), json, inflate)
             == out + Messages(KnownPrefix(ReadAll(raw[offset..])), json, inflate)
    {
      ghost var b := raw[offset..];
      var next := FrameAt(raw, offset);
      if next.None? { break; }
      var f, end := next.value.0, next.value.1;
      MessagesAfter(b, json, inflate);
      assert raw[end..] == b[FrameSize(b)..];
      if CarriesData(f.opcode) {
        out := out + Yield(f.payload, json, inflate);
      }
      offset := end;
    }
    NoMoreMessages(raw[offset..], json, inflate);
  }
}

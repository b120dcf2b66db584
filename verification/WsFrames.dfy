/**
 * WebSocket frames on the wire: `wsFrame` of red-team-live/run.ts prints them, `parseFrame` of
 * src/websocket.ts reads them.
 *
 * A bit test or a bit or of disjoint bits is written with `/`, `%` and `+`.
 */
module WsFrames {
  import opened Common

  type Bytes = seq<byte>

  const MAX_CONTROL: nat := 125
  const MAX_SAFE: nat := 0x1F_FFFF_FFFF_FFFF

  const CONTINUATION: nat := 0x0
  const TEXT: nat := 0x1
  const BINARY: nat := 0x2
  const CLOSE: nat := 0x8
  const PING: nat := 0x9
  const PONG: nat := 0xA

  // ----- masking (section 5.3 of RFC 6455) -----

  function Pow2(k: nat): nat { if k == 0 then 1 else 2 * Pow2(k - 1) }

  /** Bitwise exclusive or of the low `k` bits. */
  function XorBits(a: nat, b: nat, k: nat): (r: nat)
    ensures r < Pow2(k)
  {
    if k == 0 then 0 else 2 * XorBits(a / 2, b / 2, k - 1) + (a + b) % 2
  }

  function Xor(a: byte, b: byte): byte {
    assert Pow2(8) == 256;
    XorBits(a as nat, b as nat, 8) as byte
  }

  lemma LowBit(x: nat, a: nat, b: nat)
    ensures var r := 2 * x + (a + b) % 2; r / 2 == x && (r + b) % 2 == a % 2
  {
  }

  lemma {:induction false} XorBitsTwice(a: nat, b: nat, k: nat)
    requires a < Pow2(k)
    ensures XorBits(XorBits(a, b, k), b, k) == a
  {
    if k > 0 {
      XorBitsTwice(a / 2, b / 2, k - 1);
      LowBit(XorBits(a / 2, b / 2, k - 1), a, b);
    }
  }

  type Key = k: Bytes | |k| == 4 witness [0, 0, 0, 0]

  function Mask(key: Key, data: Bytes): (r: Bytes)
    ensures |r| == |data|
  {
    seq(|data|, i requires 0 <= i < |data| => Xor(data[i], key[i % 4]))
  }

  lemma XorTwice(a: byte, b: byte)
    ensures Xor(Xor(a, b), b) == a
  {
    assert Pow2(8) == 256;
    XorBitsTwice(a as nat, b as nat, 8);
  }

  /** Bit `i` of a number, counted from the lowest. */
  predicate Bit(x: nat, i: nat) { if i == 0 then x % 2 == 1 else Bit(x / 2, i - 1) }

  lemma {:induction false} XorBitsBit(a: nat, b: nat, k: nat, i: nat)
    requires i < k
    ensures Bit(XorBits(a, b, k), i) <==> Bit(a, i) != Bit(b, i)
    decreases k
  {
    var high := XorBits(a / 2, b / 2, k - 1);
    LowBit(high, a, b);
    assert XorBits(a, b, k) % 2 == (a + b) % 2;
    if i > 0 { XorBitsBit(a / 2, b / 2, k - 1, i - 1); }
  }

  /** `x` is a byte with exactly the bits in which `a` and `b` differ. */
  ghost predicate IsXor(x: nat, a: nat, b: nat) {
    x < 256 && forall bit: nat :: bit < 8 ==> (Bit(x, bit) <==> Bit(a, bit) != Bit(b, bit))
  }

  /** A masked byte is the byte exclusive-or its key byte (section 5.3). */
  lemma MaskIsExclusiveOr(key: Key, data: Bytes, i: nat)
    requires i < |data|
    ensures IsXor(Mask(key, data)[i] as nat, data[i] as nat, key[i % 4] as nat)
  {
    assert Pow2(8) == 256;
    var x, a, b := Mask(key, data)[i] as nat, data[i] as nat, key[i % 4] as nat;
    forall bit: nat | bit < 8 ensures Bit(x, bit) <==> Bit(a, bit) != Bit(b, bit) {
      XorBitsBit(a, b, 8, bit);
    }
  }

  /** Eight bits determine a byte, so nothing else is a masked byte. */
  lemma XorIsUnique(x: nat, y: nat, a: nat, b: nat)
    requires IsXor(x, a, b) && IsXor(y, a, b)
    ensures x == y
  {
    assert Pow2(8) == 256;
    SameBits(x, y, 8);
  }

  lemma {:induction false} SameBits(x: nat, y: nat, k: nat)
    requires x < Pow2(k) && y < Pow2(k) && forall i: nat :: i < k ==> (Bit(x, i) <==> Bit(y, i))
    ensures x == y
  {
    if k > 0 {
      forall i: nat | i < k - 1 ensures Bit(x / 2, i) <==> Bit(y / 2, i) {
        assert Bit(x, i + 1) <==> Bit(y, i + 1);
      }
      SameBits(x / 2, y / 2, k - 1);
      assert Bit(x, 0) <==> Bit(y, 0);
    }
  }

  /** Masking with the same key again gives the data back. */
  lemma MaskTwice(key: Key, data: Bytes)
    ensures Mask(key, Mask(key, data)) == data
  {
    forall i | 0 <= i < |data| ensures Mask(key, Mask(key, data))[i] == data[i] {
      XorTwice(data[i], key[i % 4]);
    }
  }

  // ----- the length field (section 5.2) -----

  function BigEndian(n: nat, k: nat): (s: Bytes)
    ensures |s| == k
  {
    if k == 0 then [] else BigEndian(n / 256, k - 1) + [(n % 256) as byte]
  }

  function Value(s: Bytes): nat {
    if s == [] then 0 else Value(s[..|s| - 1]) * 256 + s[|s| - 1] as nat
  }

  function Pow256(k: nat): (p: nat)
    ensures p >= 1
  {
    if k == 0 then 1 else 256 * Pow256(k - 1)
  }

  lemma {:induction false} ValueOfBigEndian(n: nat, k: nat)
    requires n < Pow256(k)
    ensures Value(BigEndian(n, k)) == n
  {
    if k > 0 {
      ValueOfBigEndian(n / 256, k - 1);
      assert BigEndian(n, k)[..k - 1] == BigEndian(n / 256, k - 1);
    }
  }

  lemma {:induction false} ValueBound(s: Bytes)
    ensures Value(s) < Pow256(|s|)
  {
    if s != [] { ValueBound(s[..|s| - 1]); }
  }

  /** Where the length field of a frame that announces `n` ends. */
  function LengthEnd(n: nat): nat {
    if n < 126 then 2 else if n <= 0xFFFF then 4 else 10
  }

  /** The field after the first byte; `bit` is the mask bit. */
  function LengthField(bit: nat, n: nat): (f: Bytes)
    requires bit == 0 || bit == 0x80
    ensures 1 + |f| == LengthEnd(n)
  {
    if n < 126 then [(bit + n) as byte]
    else if n <= 0xFFFF then [(bit + 126) as byte] + BigEndian(n, 2)
    else [(bit + 127) as byte] + BigEndian(n, 8)
  }

  /** Header and payload of a frame with a given first byte and a given announced length. */
  function FrameBytes(first: byte, key: Option<Key>, announced: nat, payload: Bytes): Bytes {
    [first] + LengthField(if key.Some? then 0x80 else 0, announced) +
    match key { case Some(k) => k + Mask(k, payload) case None => payload }
  }

  // ----- parseFrame as a function -----

  datatype Limits = Limits(requireMask: bool, maxPayload: Option<nat>)

  datatype Failure = Violation | TooLarge(limit: nat, actual: nat)

  datatype Frame = Frame(fin: bool, opcode: nat, payload: Bytes)

  datatype Outcome =
    | Incomplete
    | Failed(failure: Failure)
    | Complete(frame: Frame, consumed: nat)

  function Fin(b0: byte): bool { b0 >= 0x80 }

  function Opcode(b0: byte): nat { b0 as nat % 16 }

  predicate IsMasked(b1: byte) { b1 >= 0x80 }

  function Length7(b1: byte): nat { b1 as nat % 128 }

  predicate IsControl(opcode: nat) { opcode >= 8 }

  predicate KnownControl(opcode: nat) { opcode == CLOSE || opcode == PING || opcode == PONG }

  predicate KnownData(opcode: nat) { opcode == CONTINUATION || opcode == TEXT || opcode == BINARY }

  /** The checks on the first two bytes. */
  predicate HeaderOk(b0: byte, length: nat) {
    && b0 as nat / 16 % 8 == 0
    && if IsControl(Opcode(b0)) then Fin(b0) && length <= MAX_CONTROL && KnownControl(Opcode(b0))
       else KnownData(Opcode(b0))
  }

  datatype LengthRead = NeedMore | Unsafe | Length(n: nat, offset: nat)

  /** The number in four bytes from `i`. */
  function Word(s: Bytes, i: nat): nat
    requires i + 4 <= |s|
  {
    s[i] as nat * 0x100_0000 + s[i + 1] as nat * 0x1_0000 + s[i + 2] as nat * 0x100 + s[i + 3] as nat
  }

  function ReadLength(s: Bytes): (r: LengthRead)
    requires |s| >= 2
    ensures r.Length? ==> 2 <= r.offset <= |s|
  {
    var n := Length7(s[1]);
    if n == 126 then
      if |s| < 4 then NeedMore else Length(s[2] as nat * 256 + s[3] as nat, 4)
    else if n == 127 then
      if |s| < 10 then NeedMore
      else if Word(s, 2) > 0x1F_FFFF then Unsafe
      else Length(Word(s, 2) * 0x1_0000_0000 + Word(s, 6), 10)
    else Length(n, 2)
  }

  function Parse(s: Bytes, limits: Limits): (r: Outcome)
    ensures r.Complete? ==> 0 < r.consumed <= |s| && |r.frame.payload| <= r.consumed
  {
    if |s| < 2 then Incomplete
    else if !HeaderOk(s[0], Length7(s[1])) then Failed(Violation)
    else
      match ReadLength(s)
      case NeedMore => Incomplete
      case Unsafe => Failed(Violation)
      case Length(n, offset) => ParseBody(s, Fin(s[0]), Opcode(s[0]), IsMasked(s[1]), limits, n, offset)
  }

  /** The rest of `parseFrame`, with the length field read. */
  function ParseBody(s: Bytes, fin: bool, opcode: nat, masked: bool, limits: Limits, n: nat, offset: nat): (r: Outcome)
    requires 2 <= offset <= |s|
    ensures r.Complete? ==> 0 < r.consumed <= |s| && |r.frame.payload| <= r.consumed
  {
    var start := if masked then offset + 4 else offset;
    if !IsControl(opcode) && limits.maxPayload.Some? && n > limits.maxPayload.value then
      Failed(TooLarge(limits.maxPayload.value, n))
    else if limits.requireMask && !masked then Failed(Violation)
    else if |s| < start + n then Incomplete
    else
      var body := s[start..start + n];
      Complete(Frame(fin, opcode, if masked then Mask(s[offset..offset + 4], body) else body), start + n)
  }

  // ----- the parser by section 5.2, bit by bit -----

  /** The bits of a byte that the header uses. */
  lemma HeaderBits(b: byte)
    ensures b >= 0x80 <==> Bit(b as nat, 7)
    ensures b as nat / 16 % 8 == 0 <==> !Bit(b as nat, 6) && !Bit(b as nat, 5) && !Bit(b as nat, 4)
  {
    var x := b as nat;
    var high := x / 2 / 2 / 2 / 2;
    HalfFourTimes(x);
    LowestBits(high);
    assert Bit(x, 4) == Bit(x / 2, 3) == Bit(x / 2 / 2, 2) == Bit(x / 2 / 2 / 2, 1) == Bit(high, 0);
    assert Bit(x, 5) == Bit(x / 2, 4) == Bit(x / 2 / 2, 3) == Bit(x / 2 / 2 / 2, 2) == Bit(high, 1);
    assert Bit(x, 6) == Bit(x / 2, 5) == Bit(x / 2 / 2, 4) == Bit(x / 2 / 2 / 2, 3) == Bit(high, 2);
    assert Bit(x, 7) == Bit(x / 2, 6) == Bit(x / 2 / 2, 5) == Bit(x / 2 / 2 / 2, 4) == Bit(high, 3);
  }

  lemma HalfFourTimes(x: nat)
    ensures x / 2 / 2 / 2 / 2 == x / 16
  {
  }

  /** The bits of a number below 16. */
  lemma LowestBits(y: nat)
    requires y < 16
    ensures Bit(y, 3) <==> y >= 8
    ensures y % 8 == 0 <==> !Bit(y, 2) && !Bit(y, 1) && !Bit(y, 0)
  {
    var (b0, b1, b2, b3) := (y % 2, y / 2 % 2, y / 2 / 2 % 2, y / 2 / 2 / 2);
    FourBits(y);
    OctalBits(b0, b1, b2, b3);
    assert Bit(y, 3) == Bit(y / 2, 2) == Bit(y / 2 / 2, 1) == Bit(b3, 0);
    assert Bit(y, 2) == Bit(y / 2, 1) == Bit(y / 2 / 2, 0);
    assert Bit(y, 1) == Bit(y / 2, 0);
  }

  lemma FourBits(y: nat)
    requires y < 16
    ensures y == y / 2 / 2 / 2 * 8 + y / 2 / 2 % 2 * 4 + y / 2 % 2 * 2 + y % 2 && y / 2 / 2 / 2 < 2
  {
  }

  lemma OctalBits(b0: nat, b1: nat, b2: nat, b3: nat)
    requires b0 < 2 && b1 < 2 && b2 < 2 && b3 < 2
    ensures var y := b3 * 8 + b2 * 4 + b1 * 2 + b0;
      (y >= 8 <==> b3 == 1) && (y % 8 == 0 <==> b2 == 0 && b1 == 0 && b0 == 0)
  {
  }

  /** Where the length ends, and what it is, in the header that starts with these bytes. */
  function HeaderEnd(s: Bytes): nat
    requires |s| >= 2
  {
    var len7 := s[1] as nat % 128;
    if len7 < 126 then 2 else if len7 == 126 then 4 else 10
  }

  function Announced(s: Bytes): nat
    requires |s| >= 2 && HeaderEnd(s) <= |s|
  {
    if HeaderEnd(s) == 2 then s[1] as nat % 128 else Value(s[2..HeaderEnd(s)])
  }

  lemma ReadLengthMeans(s: Bytes)
    requires |s| >= 2 && HeaderEnd(s) <= |s|
    ensures ReadLength(s) == if Announced(s) > MAX_SAFE then Unsafe else Length(Announced(s), HeaderEnd(s))
  {
    if HeaderEnd(s) == 4 {
      ValueOfTwo(s[2..4]);
    } else if HeaderEnd(s) == 10 {
      var w := s[2..10];
      ValueOfEight(w);
      WordOfBigEndian(s, 2);
      assert s[2..6] == w[..4] && Word(s, 6) == Word(w, 4);
    }
  }

  /**
   * What a frame that is read says: FIN is the top bit of the first byte, the opcode its low four
   * bits, MASK the top bit of the second, the length follows in 7 bits, 2 or 8 bytes, then the key if
   * there is one, then the payload, each byte exclusive-or the key byte of its position modulo four.
   */
  lemma CompleteMeans(s: Bytes, limits: Limits)
    requires Parse(s, limits).Complete?
    ensures var Complete(f, consumed) := Parse(s, limits);
      && |s| >= 2 && HeaderEnd(s) <= |s|
      && var masked, n := Bit(s[1] as nat, 7), Announced(s);
         var start := HeaderEnd(s) + (if masked then 4 else 0);
      && consumed == start + n <= |s| && |f.payload| == n
      && (f.fin <==> Bit(s[0] as nat, 7)) && f.opcode == s[0] as nat % 16
      && (!masked ==> f.payload == s[start..start + n])
      && (masked ==> forall i :: 0 <= i < n ==>
            IsXor(f.payload[i] as nat, s[start + i] as nat, s[HeaderEnd(s) + i % 4] as nat))
  {
    HeaderBits(s[0]);
    HeaderBits(s[1]);
    ReadLengthMeans(s);
    hide Bit, Value, ReadLength, IsXor;
    var Length(n, offset) := ReadLength(s);
    if IsMasked(s[1]) {
      var key: Key, body := s[offset..offset + 4], s[offset + 4..offset + 4 + n];
      forall i | 0 <= i < n
        ensures IsXor(Parse(s, limits).frame.payload[i] as nat, s[offset + 4 + i] as nat, s[offset + i % 4] as nat)
      {
        MaskIsExclusiveOr(key, body, i);
      }
    }
  }

  /** The first two bytes are refused when a reserved bit is set, for unknown opcodes and for bad control frames. */
  predicate Refused(s: Bytes)
    requires |s| >= 2
  {
    var opcode := s[0] as nat % 16;
    || Bit(s[0] as nat, 6) || Bit(s[0] as nat, 5) || Bit(s[0] as nat, 4)
    || opcode !in {0x0, 0x1, 0x2, 0x8, 0x9, 0xA}
    || (opcode >= 0x8 && (!Bit(s[0] as nat, 7) || s[1] as nat % 128 > 125))
  }

  /** What is not read, and why, in the order of the checks. */
  lemma NotReadMeans(s: Bytes, limits: Limits)
    ensures |s| < 2 ==> Parse(s, limits) == Incomplete
    ensures |s| >= 2 && Refused(s) ==> Parse(s, limits) == Failed(Violation)
    ensures |s| >= 2 && !Refused(s) && |s| < HeaderEnd(s) ==> Parse(s, limits) == Incomplete
    ensures |s| >= 2 && !Refused(s) && HeaderEnd(s) <= |s| ==>
      var masked, n := Bit(s[1] as nat, 7), Announced(s);
      var tooLarge := s[0] as nat % 16 < 8 && limits.maxPayload.Some? && n > limits.maxPayload.value;
      && (n > 0x1F_FFFF_FFFF_FFFF ==> Parse(s, limits) == Failed(Violation))
      && (n <= 0x1F_FFFF_FFFF_FFFF && tooLarge ==> Parse(s, limits) == Failed(TooLarge(limits.maxPayload.value, n)))
      && (n <= 0x1F_FFFF_FFFF_FFFF && !tooLarge && limits.requireMask && !masked ==>
            Parse(s, limits) == Failed(Violation))
      && (n <= 0x1F_FFFF_FFFF_FFFF && !tooLarge && !(limits.requireMask && !masked) ==>
            if |s| < HeaderEnd(s) + (if masked then 4 else 0) + n then Parse(s, limits) == Incomplete
            else Parse(s, limits).Complete?)
  {
    if |s| >= 2 {
      HeaderBits(s[0]);
      HeaderBits(s[1]);
      if HeaderEnd(s) <= |s| { ReadLengthMeans(s); }
      hide Bit, Value;
    }
  }

  // ----- a decided result is not changed by more bytes -----

  /** What `parseFrame` decides on some bytes it decides on every longer stream. */
  lemma MoreBytesChangeNothing(s: Bytes, t: Bytes, limits: Limits)
    ensures Parse(s, limits) == Incomplete || Parse(s + t, limits) == Parse(s, limits)
  {
    hide ParseBody, HeaderOk, Opcode, Fin, IsMasked;
    if |s| >= 2 && HeaderOk(s[0], Length7(s[1])) && ReadLength(s).Length? {
      BodyKept(s, t, Fin(s[0]), Opcode(s[0]), IsMasked(s[1]), limits, ReadLength(s).n, ReadLength(s).offset);
    }
  }

  lemma BodyKept(s: Bytes, t: Bytes, fin: bool, opcode: nat, masked: bool, limits: Limits, n: nat, offset: nat)
    requires 2 <= offset <= |s|
    ensures var r := ParseBody(s, fin, opcode, masked, limits, n, offset);
      r == Incomplete || ParseBody(s + t, fin, opcode, masked, limits, n, offset) == r
  {
    var start := if masked then offset + 4 else offset;
    if |s| >= start + n {
      assert (s + t)[start..start + n] == s[start..start + n];
      assert masked ==> (s + t)[offset..offset + 4] == s[offset..offset + 4];
    }
  }

  /** A frame cut short is never mistaken for a frame or an error. */
  lemma CutFrameIsIncomplete(s: Bytes, k: nat, limits: Limits)
    requires Parse(s, limits).Complete? && k < Parse(s, limits).consumed
    ensures Parse(s[..k], limits) == Incomplete
  {
    assert s == s[..k] + s[k..];
    MoreBytesChangeNothing(s[..k], s[k..], limits);
  }

  // ----- the printers, read back -----

  /** What a reader must make of a frame with these parts, given the bytes after its header. */
  function Expected(first: byte, key: Option<Key>, announced: nat, body: Bytes, limits: Limits): Outcome {
    if !HeaderOk(first, announced) || announced > MAX_SAFE then Failed(Violation)
    else if !IsControl(Opcode(first)) && limits.maxPayload.Some? && announced > limits.maxPayload.value then
      Failed(TooLarge(limits.maxPayload.value, announced))
    else if limits.requireMask && key.None? then Failed(Violation)
    else if |body| < announced then Incomplete
    else
      Complete(Frame(Fin(first), Opcode(first),
                     match key { case Some(k) => Mask(k, body[..announced]) case None => body[..announced] }),
               LengthEnd(announced) + (if key.Some? then 4 else 0) + announced)
  }

  lemma WordOfBigEndian(s: Bytes, i: nat)
    requires i + 4 <= |s|
    ensures Word(s, i) == Value(s[i..i + 4])
  {
    var w := s[i..i + 4];
    assert w[..3][..2] == w[..2] && w[..2][..1] == w[..1] && w[..1][..0] == [];
    assert Value(w[..1]) == w[0] as nat;
    assert Value(w[..2]) == Value(w[..1]) * 256 + w[1] as nat;
    assert Value(w[..3]) == Value(w[..2]) * 256 + w[2] as nat;
  }

  lemma ValueOfTwo(w: Bytes)
    requires |w| == 2
    ensures Value(w) == w[0] as nat * 256 + w[1] as nat
  {
    assert w[..1][..0] == [];
    assert Value(w[..1]) == w[0] as nat;
  }

  /** Four bytes more shift the value by 2^32. */
  lemma ValueOfEight(w: Bytes)
    requires |w| == 8
    ensures Value(w) == Value(w[..4]) * 0x1_0000_0000 + Word(w, 4)
  {
    assert w[..7][..6] == w[..6] && w[..6][..5] == w[..5] && w[..5][..4] == w[..4];
    assert Value(w[..5]) == Value(w[..4]) * 256 + w[4] as nat;
    assert Value(w[..6]) == Value(w[..5]) * 256 + w[5] as nat;
    assert Value(w[..7]) == Value(w[..6]) * 256 + w[6] as nat;
  }

  lemma LongLengthReadBack(s: Bytes, n: nat)
    requires n < 0x1_0000_0000_0000_0000 && |s| >= 10 && s[2..10] == BigEndian(n, 8)
    ensures Word(s, 2) * 0x1_0000_0000 + Word(s, 6) == n && Word(s, 6) < 0x1_0000_0000
  {
    var w := s[2..10];
    assert Pow256(8) == 0x1_0000_0000_0000_0000;
    ValueOfBigEndian(n, 8);
    ValueOfEight(w);
    WordOfBigEndian(s, 2);
    assert s[2..6] == w[..4] && Word(s, 6) == Word(w, 4);
  }

  lemma ShortLengthReadBack(s: Bytes, n: nat)
    requires n < 0x1_0000 && |s| >= 4 && s[2..4] == BigEndian(n, 2)
    ensures s[2] as nat * 256 + s[3] as nat == n
  {
    assert Pow256(2) == 0x1_0000;
    ValueOfBigEndian(n, 2);
    ValueOfTwo(s[2..4]);
  }

  lemma FirstLengthByte(bit: nat, n: nat)
    requires bit == 0 || bit == 0x80
    ensures var b := LengthField(bit, n)[0];
      (IsMasked(b) <==> bit == 0x80) && Length7(b) == if n < 126 then n else if n <= 0xFFFF then 126 else 127
  {
  }

  /** The length field reads back as the announced length, or as unsafe when it is above 2^53 - 1. */
  lemma LengthReadBack(s: Bytes, bit: nat, n: nat)
    requires (bit == 0 || bit == 0x80) && n < 0x1_0000_0000_0000_0000
    requires var f := LengthField(bit, n); |s| >= 1 + |f| && s[1..1 + |f|] == f
    ensures IsMasked(s[1]) <==> bit == 0x80
    ensures Length7(s[1]) <= MAX_CONTROL <==> n <= MAX_CONTROL
    ensures ReadLength(s) == if n > MAX_SAFE then Unsafe else Length(n, LengthEnd(n))
  {
    var f := LengthField(bit, n);
    assert s[1] == f[0];
    FirstLengthByte(bit, n);
    if 126 <= n <= 0xFFFF {
      assert s[2..4] == f[1..];
      ShortLengthReadBack(s, n);
    } else if n > 0xFFFF {
      assert s[2..10] == f[1..];
      LongLengthReadBack(s, n);
    }
  }

  lemma Split<T>(x: T, f: seq<T>, tail: seq<T>, rest: seq<T>)
    ensures var s := [x] + f + tail + rest;
      s[0] == x && s[1..1 + |f|] == f && s[1 + |f|..] == tail + rest
  {
  }

  lemma FrameParts(first: byte, key: Option<Key>, announced: nat, payload: Bytes, rest: Bytes)
    ensures var s := FrameBytes(first, key, announced, payload) + rest;
      var f := LengthField(if key.Some? then 0x80 else 0, announced);
      && |s| >= 1 + |f| && s[0] == first && s[1..1 + |f|] == f
      && match key
         case Some(k) => s[1 + |f|..] == k + (Mask(k, payload) + rest)
         case None => s[1 + |f|..] == payload + rest
  {
    var f := LengthField(if key.Some? then 0x80 else 0, announced);
    match key
    case Some(k) =>
      Split(first, f, k + Mask(k, payload), rest);
      Regroup(k, Mask(k, payload), rest);
    case None => Split(first, f, payload, rest);
  }

  lemma HeaderReadBack(s: Bytes, first: byte, bit: nat, n: nat, limits: Limits)
    requires (bit == 0 || bit == 0x80) && n < 0x1_0000_0000_0000_0000
    requires var f := LengthField(bit, n); |s| >= 1 + |f| && s[0] == first && s[1..1 + |f|] == f
    ensures IsMasked(s[1]) <==> bit == 0x80
    ensures Parse(s, limits) ==
      if !HeaderOk(first, n) || n > MAX_SAFE then Failed(Violation)
      else ParseBody(s, Fin(s[0]), Opcode(s[0]), IsMasked(s[1]), limits, n, LengthEnd(n))
  {
    LengthReadBack(s, bit, n);
  }

  lemma BodyReadBack(s: Bytes, offset: nat, key: Key, body: Bytes, n: nat)
    requires offset <= |s| && s[offset..] == key + body
    ensures |s| == offset + 4 + |body| && s[offset..offset + 4] == key
    ensures n <= |body| ==> s[offset + 4..offset + 4 + n] == body[..n]
  {
    assert s[offset..offset + 4] == s[offset..][..4];
    assert s[offset + 4..] == s[offset..][4..] == body;
    assert n <= |body| ==> s[offset + 4..offset + 4 + n] == s[offset + 4..][..n];
  }

  lemma MaskedBodyReadBack(s: Bytes, b0: byte, offset: nat, key: Key, body: Bytes, n: nat, limits: Limits)
    requires 2 <= offset <= |s| && s[offset..] == key + body
    requires HeaderOk(b0, n) && n <= MAX_SAFE && offset == LengthEnd(n)
    ensures ParseBody(s, Fin(b0), Opcode(b0), true, limits, n, offset) == Expected(b0, Some(key), n, body, limits)
  {
    hide HeaderOk, Opcode, Fin, IsControl, Mask, LengthEnd;
    BodyReadBack(s, offset, key, body, n);
  }

  lemma PlainBodyReadBack(s: Bytes, b0: byte, offset: nat, body: Bytes, n: nat, limits: Limits)
    requires 2 <= offset <= |s| && s[offset..] == body
    requires HeaderOk(b0, n) && n <= MAX_SAFE && offset == LengthEnd(n)
    ensures ParseBody(s, Fin(b0), Opcode(b0), false, limits, n, offset) == Expected(b0, None, n, body, limits)
  {
    assert n <= |body| ==> s[offset..offset + n] == s[offset..][..n];
  }

  /**
   * Any frame the printer makes, masked or not, with a true or a forged length and anything
   * behind it, is read as exactly what it announces.
   */
  lemma FrameReadBack(first: byte, key: Option<Key>, announced: nat, payload: Bytes, rest: Bytes, limits: Limits)
    requires announced < 0x1_0000_0000_0000_0000
    ensures Parse(FrameBytes(first, key, announced, payload) + rest, limits)
         == Expected(first, key, announced,
             (match key { case Some(k) => Mask(k, payload) case None => payload }) + rest, limits)
  {
    var s := FrameBytes(first, key, announced, payload) + rest;
    var bit := if key.Some? then 0x80 else 0;
    var offset := LengthEnd(announced);
    FrameParts(first, key, announced, payload, rest);
    HeaderReadBack(s, first, bit, announced, limits);
    if HeaderOk(first, announced) && announced <= MAX_SAFE {
      match key
      case Some(k) => MaskedBodyReadBack(s, s[0], offset, k, Mask(k, payload) + rest, announced, limits);
      case None => PlainBodyReadBack(s, s[0], offset, payload + rest, announced, limits);
    }
  }

  // ----- round trips -----

  /** A frame with its true length. */
  datatype Sent = Sent(first: byte, key: Option<Key>, payload: Bytes)

  function Wire(m: Sent): Bytes { FrameBytes(m.first, m.key, |m.payload|, m.payload) }

  function FrameOf(m: Sent): Frame { Frame(Fin(m.first), Opcode(m.first), m.payload) }

  /** What RFC 6455 and the reader's limits ask of a frame. */
  predicate Acceptable(m: Sent, limits: Limits) {
    && HeaderOk(m.first, |m.payload|) && |m.payload| <= MAX_SAFE
    && (!IsControl(Opcode(m.first)) && limits.maxPayload.Some? ==> |m.payload| <= limits.maxPayload.value)
    && (limits.requireMask ==> m.key.Some?)
  }

  /** Reading undoes printing exactly for the acceptable frames; every other frame is an error. */
  lemma ReadUndoesPrint(m: Sent, rest: Bytes, limits: Limits)
    requires |m.payload| < 0x1_0000_0000_0000_0000
    ensures var r := Parse(Wire(m) + rest, limits);
      if Acceptable(m, limits) then r == Complete(FrameOf(m), |Wire(m)|) else r.Failed?
  {
    FrameReadBack(m.first, m.key, |m.payload|, m.payload, rest, limits);
    match m.key
    case Some(k) =>
      MaskTwice(k, m.payload);
      assert (Mask(k, m.payload) + rest)[..|m.payload|] == Mask(k, m.payload);
    case None =>
      assert (m.payload + rest)[..|m.payload|] == m.payload;
  }

  function Stream(list: seq<Sent>): Bytes {
    if list == [] then [] else Wire(list[0]) + Stream(list[1..])
  }

  function FramesOf(list: seq<Sent>): seq<Frame> {
    if list == [] then [] else [FrameOf(list[0])] + FramesOf(list[1..])
  }

  /** The frames read one after the other, and the bytes left over. */
  function ReadAll(s: Bytes, limits: Limits): (seq<Frame>, Bytes)
    decreases |s|
  {
    match Parse(s, limits)
    case Complete(f, n) =>
      var (fs, rest) := ReadAll(s[n..], limits);
      ([f] + fs, rest)
    case _ => ([], s)
  }

  lemma {:induction false} StreamReadBack(list: seq<Sent>, rest: Bytes, limits: Limits)
    requires forall m :: m in list ==> Acceptable(m, limits)
    ensures var (fs, left) := ReadAll(rest, limits);
      ReadAll(Stream(list) + rest, limits) == (FramesOf(list) + fs, left)
    decreases |list|
  {
    if list == [] {
      assert Stream(list) + rest == rest;
      assert FramesOf(list) + ReadAll(rest, limits).0 == ReadAll(rest, limits).0;
    } else {
      var m := list[0];
      assert Acceptable(m, limits);
      StreamReadBack(list[1..], rest, limits);
      ReadAllStep(m, Stream(list[1..]) + rest, limits);
      Regroup(Wire(m), Stream(list[1..]), rest);
      Regroup([FrameOf(m)], FramesOf(list[1..]), ReadAll(rest, limits).0);
    }
  }

  lemma ReadAllStep(m: Sent, tail: Bytes, limits: Limits)
    requires Acceptable(m, limits)
    ensures ReadAll(Wire(m) + tail, limits) == ([FrameOf(m)] + ReadAll(tail, limits).0, ReadAll(tail, limits).1)
  {
    ReadUndoesPrint(m, tail, limits);
    assert (Wire(m) + tail)[|Wire(m)|..] == tail;
  }

  /** No header that announces `n` is shorter than the one the printers write. */
  lemma LengthFieldIsMinimal(s: Bytes, n: nat, offset: nat)
    requires |s| >= 2 && ReadLength(s) == Length(n, offset)
    ensures LengthEnd(n) <= offset
  {
  }

  // ----- the printers -----

  const WS_KEY: Key := [0x11, 0x22, 0x33, 0x44]

  /** The loop `masked[i] ^= key[i % 4]`. */
  method MaskInPlace(masked: array<byte>, key: Key)
    modifies masked
    ensures masked[..] == Mask(key, old(masked[..]))
  {
    var i := 0;
    while i < masked.Length
      invariant 0 <= i <= masked.Length
      invariant forall k :: 0 <= k < i ==> masked[k] == Xor(old(masked[k]), key[k % 4])
      invariant forall k :: i <= k < masked.Length ==> masked[k] == old(masked[k])
    {
      masked[i] := Xor(masked[i], key[i % 4]);
      i := i + 1;
    }
  }

  /** `wsFrame`; None is the RangeError of `writeBigUInt64BE`. */
  method WsFrame(first: byte, payload: Bytes, mask: bool, declaredLen: Option<nat>) returns (frame: Option<Bytes>)
    ensures var n := if declaredLen.Some? then declaredLen.value else |payload|;
      frame == if n >= 0x1_0000_0000_0000_0000 then None
               else Some(FrameBytes(first, if mask then Some(WS_KEY) else None, n, payload))
  {
    hide Mask, BigEndian;
    var n := if declaredLen.Some? then declaredLen.value else |payload|;
    var bit := if mask then 0x80 else 0x00;
    var parts := [[first]];
    ConcatSnoc([], [first]);
    if n < 126 {
      ConcatSnoc(parts, [(bit + n) as byte]);
      parts := parts + [[(bit + n) as byte]];
    } else if n <= 0xFFFF {
      var b := [(bit + 126) as byte] + BigEndian(n, 2);
      ConcatSnoc(parts, b);
      parts := parts + [b];
    } else {
      if n >= 0x1_0000_0000_0000_0000 { return None; }
      var b := [(bit + 127) as byte] + BigEndian(n, 8);
      ConcatSnoc(parts, b);
      parts := parts + [b];
    }
    assert Concat(parts) == [first] + LengthField(bit, n);
    if mask {
      ConcatSnoc(parts, WS_KEY);
      parts := parts + [WS_KEY];
      var masked := new byte[|payload|](i requires 0 <= i < |payload| => payload[i]);
      assert masked[..] == payload;
      MaskInPlace(masked, WS_KEY);
      ConcatSnoc(parts, masked[..]);
      parts := parts + [masked[..]];
      Regroup([first] + LengthField(bit, n), WS_KEY, Mask(WS_KEY, payload));
    } else {
      ConcatSnoc(parts, payload);
      parts := parts + [payload];
    }
    return Some(Concat(parts));
  }
}

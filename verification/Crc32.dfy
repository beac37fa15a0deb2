// The CRC-32 of section 8 of RFC 1952 as the repository's files carry it: every
// record ends in a line holding the checksum of the bytes before that line.
module Crc32 {
  import opened Bytes
  import opened Iteration

  const POLYNOMIAL: bv32 := 0xedb88320

  // ----- The register -----

  /** One bit step of the register. */
  function Step(crc: bv32): bv32 {
    (crc >> 1) ^ (if crc & 1 == 1 then POLYNOMIAL else 0)
  }

  function Xor(a: bv32, b: bv32): bv32 {
    a ^ b
  }

  function Widen(b: Byte): bv32 {
    b as bv32
  }

  const CRC: Register<bv32, Byte> := Register(Step, Xor, Widen, 8)

  function Checksum(data: seq<Byte>): bv32 {
    Complement(Fold(CRC.Absorb, 0xffff_ffff, data))
  }

  function Complement(crc: bv32): bv32 {
    !crc
  }

  // ----- Linearity and injectivity of one step -----

  lemma ShiftXor(a: bv32, b: bv32)
    ensures (a ^ b) >> 1 == (a >> 1) ^ (b >> 1)
  {}

  lemma LowXor(a: bv32, b: bv32)
    ensures (a ^ b) & 1 == (a & 1) ^ (b & 1)
    ensures a & 1 == 0 || a & 1 == 1
  {}

  lemma Regroup(a: bv32, b: bv32, p: bv32, q: bv32)
    ensures (a ^ b) ^ (p ^ q) == (a ^ p) ^ (b ^ q)
  {}

  lemma StepXor(a: bv32, b: bv32)
    ensures Step(a ^ b) == Step(a) ^ Step(b)
  {
    ShiftXor(a, b);
    LowXor(a, b);
    LowXor(b, a);
    var p := if a & 1 == 1 then POLYNOMIAL else 0;
    var q := if b & 1 == 1 then POLYNOMIAL else 0;
    Regroup(a >> 1, b >> 1, p, q);
  }

  lemma StepSeparates(a: bv32, b: bv32)
    requires Step(a) == Step(b)
    ensures a == b
  {}

  lemma XorCancels(a: bv32, b: bv32, e: bv32)
    requires a ^ e == b ^ e || e ^ a == e ^ b
    ensures a == b
  {}

  lemma StepLinear()
    ensures Linear(Step, Xor)
  {
    forall x, y ensures Step(Xor(x, y)) == Xor(Step(x), Step(y)) {
      StepXor(x, y);
    }
  }

  lemma StepInjective()
    ensures Injective(Step)
  {
    forall a, b | Step(a) == Step(b) ensures a == b {
      StepSeparates(a, b);
    }
  }

  lemma XorCancelsAll()
    ensures Cancels(Xor)
  {
    forall a, b, e | Xor(a, e) == Xor(b, e) || Xor(e, a) == Xor(e, b) ensures a == b {
      XorCancels(a, b, e);
    }
  }

  // ----- Bits -----

  /** The bits of a byte as the register takes them, from the low end. */
  function Bits(b: Byte, n: nat): (bits: seq<bool>)
    ensures |bits| == n
    decreases n
  {
    if n == 0 then [] else [IsOdd(b)] + Bits(Half(b), n - 1)
  }

  predicate IsOdd(b: Byte) {
    b & 1 == 1
  }

  function Half(b: Byte): Byte {
    b >> 1
  }

  /** The bits of a text: the unit in which bursts of errors come. */
  function Stream(data: seq<Byte>): (bits: seq<bool>)
    ensures |bits| == 8 * |data|
    decreases |data|
  {
    if data == [] then [] else Bits(data[0], 8) + Stream(data[1..])
  }

  function Bit(b: bool): bv32 {
    if b then 1 else 0
  }

  function Up(x: bv32): bv32 {
    x << 1
  }

  function Places(n: nat): bv6
    requires n <= 32
  {
    n as bv6
  }

  /** x is a number of n bits. */
  predicate Narrow(x: bv32, n: nat) {
    n <= 32 && Gone(x, Places(n))
  }

  predicate Gone(x: bv32, k: bv6) {
    k <= 32 && x >> k == 0
  }

  /** The same register, taking one bit at a time. */
  const BITWISE: Register<bv32, bool> := Register(Step, Xor, Bit, 1)

  const PACKING: Packing<bv32> := Packing(0, Up, Narrow)

  lemma XorAssociates(a: bv32, b: bv32, c: bv32)
    ensures Xor(Xor(a, b), c) == Xor(a, Xor(b, c))
  {}

  lemma XorZero(a: bv32)
    ensures Xor(a, 0) == a
  {}

  lemma NextPlace(n: nat)
    requires n < 32
    ensures Places(n) < 32 && Places(n + 1) == Places(n) + 1
  {}

  lemma OnePlaceUp(x: bv32, low: bv32, k: bv6, up: bv32, joined: bv32)
    requires k < 32 && Gone(x, k) && low <= 1 && up == x << 1 && joined == low ^ up
    ensures Gone(joined, k + 1) && up >> 1 == x && up & 1 == 0
  {}

  lemma BitIsLow(b: bool)
    ensures Bit(b) <= 1
  {}

  lemma StepDown(x: bv32)
    requires Up(x) >> 1 == x && Up(x) & 1 == 0
    ensures Step(Up(x)) == x
  {}

  lemma BitAndRest(b: bool, x: bv32, b': bool, x': bv32)
    requires Up(x) >> 1 == x && Up(x') >> 1 == x'
    requires Xor(Bit(b), Up(x)) == Xor(Bit(b'), Up(x'))
    ensures b == b' && x == x'
  {}

  lemma GoneNext(x: bv32, b: bool, k: bv6)
    requires k < 32 && Gone(x, k)
    ensures Gone(Xor(Bit(b), Up(x)), k + 1) && Up(x) >> 1 == x && Up(x) & 1 == 0
  {
    hide Gone, Bit;
    BitIsLow(b);
    OnePlaceUp(x, Bit(b), k, Up(x), Xor(Bit(b), Up(x)));
  }

  lemma RoomForOne(x: bv32, b: bool, n: nat)
    requires n < 32 && Narrow(x, n)
    ensures Narrow(Xor(Bit(b), Up(x)), n + 1) && Step(Up(x)) == x && Up(x) >> 1 == x
  {
    hide Places, Gone, Step, Up, Xor, Bit;
    NextPlace(n);
    GoneNext(x, b, Places(n));
    StepDown(x);
  }

  lemma NothingPacked()
    ensures Narrow(0, 0)
  {}

  lemma XorIsGroup()
    ensures Associates(Xor, 0)
  {
    hide Xor;
    forall a, b, c ensures Xor(Xor(a, b), c) == Xor(a, Xor(b, c)) {
      XorAssociates(a, b, c);
    }
    forall a ensures Xor(a, 0) == a {
      XorZero(a);
    }
  }

  lemma BitsApart(x: bv32, b: bool, x': bv32, b': bool, n: nat)
    requires n < 32 && Narrow(x, n) && Narrow(x', n) && Xor(Bit(b), Up(x)) == Xor(Bit(b'), Up(x'))
    ensures x == x' && b == b'
  {
    hide Narrow, Step, Up, Xor, Bit;
    RoomForOne(x, b, n);
    RoomForOne(x', b', n);
    BitAndRest(b, x, b', x');
  }

  /** 32 bits fit in the register. */
  lemma RegisterPacksBits()
    ensures Packs(BITWISE, PACKING, 32)
  {
    hide Narrow, Step, Up, Xor, Bit, Associates;
    NothingPacked();
    XorIsGroup();
    forall x, n: nat | n < 32 && Narrow(x, n) ensures Step(Up(x)) == x {
      RoomForOne(x, false, n);
    }
    forall x, b, n: nat | n < 32 && Narrow(x, n) ensures Narrow(Xor(Bit(b), Up(x)), n + 1) {
      RoomForOne(x, b, n);
    }
    forall x, b, x', b', n: nat | n < 32 && Narrow(x, n) && Narrow(x', n)
      ensures Xor(Bit(b), Up(x)) == Xor(Bit(b'), Up(x')) ==> x == x' && b == b'
    {
      if Xor(Bit(b), Up(x)) == Xor(Bit(b'), Up(x')) {
        BitsApart(x, b, x', b', n);
      }
    }
  }

  // ----- A byte is eight bits -----

  lemma EightHalves(b: Byte)
    ensures Iterate(Half, b, 8) == 0
  {}

  lemma LowAndHalf(b: Byte)
    ensures Xor(Bit(IsOdd(b)), Up(Widen(Half(b)))) == Widen(b)
  {}

  lemma {:induction false} PackOfBits(b: Byte, n: nat)
    requires Iterate(Half, b, n) == 0
    ensures Pack(BITWISE, PACKING, Bits(b, n)) == Widen(b)
    decreases n
  {
    hide Xor, Bit, Half, IsOdd, Up;
    if n > 0 {
      PackOfBits(Half(b), n - 1);
      LowAndHalf(b);
    }
  }

  /** Eight steps of one bit each are the step of one byte. */
  lemma ByteIsEightBits(s: bv32, b: Byte)
    ensures Fold(BITWISE.Absorb, s, Bits(b, 8)) == CRC.Absorb(s, b)
  {
    hide Fold, Bits, Pack, Step, Iterate, Half;
    EightHalves(b);
    PackOfBits(b, 8);
    StepLinear();
    RegisterPacksBits();
    AbsorbAtOnce(BITWISE, PACKING, 32, s, Bits(b, 8));
  }

  lemma {:induction false} StreamAbsorbed(s: bv32, data: seq<Byte>)
    ensures Fold(BITWISE.Absorb, s, Stream(data)) == Fold(CRC.Absorb, s, data)
    decreases |data|
  {
    hide Bits;
    if data != [] {
      FoldAppend(BITWISE.Absorb, s, Bits(data[0], 8), Stream(data[1..]));
      ByteIsEightBits(s, data[0]);
      StreamAbsorbed(CRC.Absorb(s, data[0]), data[1..]);
    }
  }

  lemma WidenInjective(a: Byte, b: Byte)
    requires Widen(a) == Widen(b)
    ensures a == b
  {}

  lemma SameBits(a: Byte, b: Byte)
    requires Bits(a, 8) == Bits(b, 8)
    ensures a == b
  {
    hide Bits, Pack, Iterate;
    EightHalves(a);
    EightHalves(b);
    PackOfBits(a, 8);
    PackOfBits(b, 8);
    WidenInjective(a, b);
  }

  /** The i-th bit of a text is in its byte i / 8. */
  lemma {:induction false} StreamAt(data: seq<Byte>, i: nat, j: nat)
    requires i < |data| && j < 8
    ensures Stream(data)[8 * i + j] == Bits(data[i], 8)[j]
    decreases i
  {
    hide Bits;
    if i > 0 {
      StreamAt(data[1..], i - 1, j);
    }
  }

  lemma {:induction false} StreamAppend(x: seq<Byte>, y: seq<Byte>)
    ensures Stream(x + y) == Stream(x) + Stream(y)
    decreases |x|
  {
    hide Bits;
    if x == [] {
      assert x + y == y;
    } else {
      assert (x + y)[1..] == x[1..] + y;
      StreamAppend(x[1..], y);
    }
  }

  /** Texts whose bits differ only within a burst differ only in the bytes it touches. */
  lemma BurstInBytes(x: seq<Byte>, y: seq<Byte>, k: nat)
    requires DifferOnlyIn(Stream(x), Stream(y), k, 32)
    ensures DifferOnlyIn(x, y, k / 8, 5)
  {
    hide Bits, Stream;
    forall i | 0 <= i < |x| && !(k / 8 <= i < k / 8 + 5) ensures x[i] == y[i] {
      forall j: nat | j < 8 ensures Bits(x[i], 8)[j] == Bits(y[i], 8)[j] {
        StreamAt(x, i, j);
        StreamAt(y, i, j);
      }
      assert Bits(x[i], 8) == Bits(y[i], 8);
      SameBits(x[i], y[i]);
    }
  }

  /** Four consecutive bytes are a burst of 32 bits. */
  lemma FourBytesAreABurst(x: seq<Byte>, y: seq<Byte>, k: nat)
    requires DifferOnlyIn(x, y, k, 4)
    ensures DifferOnlyIn(Stream(x), Stream(y), 8 * k, 32)
  {
    hide Bits, Stream;
    forall i | 0 <= i < 8 * |x| && !(8 * k <= i < 8 * k + 32) ensures Stream(x)[i] == Stream(y)[i] {
      StreamAt(x, i / 8, i % 8);
      StreamAt(y, i / 8, i % 8);
    }
  }

  // ----- Bursts -----

  lemma BitKeepsApart()
    ensures KeepsApart(BITWISE.Absorb)
  {
    StepInjective();
    XorCancelsAll();
    AbsorbKeepsApart(BITWISE);
  }

  lemma RegistersDiffer(s: bv32, x: seq<bool>, y: seq<bool>, k: nat, pad: seq<bool>)
    requires DifferOnlyIn(x, y, k, 32) && |pad| == 32
    requires Fold(BITWISE.Absorb, s, x) == Fold(BITWISE.Absorb, s, y)
    ensures x == y
  {
    hide Step, Xor, Bit;
    BitKeepsApart();
    StepLinear();
    StepInjective();
    XorCancelsAll();
    RegisterPacksBits();
    PackedWindowsSeparate(BITWISE, PACKING, 32);
    BurstDetected(BITWISE.Absorb, s, x, y, k, pad);
  }

  lemma ComplementInjective(a: bv32, b: bv32)
    requires Complement(a) == Complement(b)
    ensures a == b
  {}

  lemma {:induction false} StreamInjective(x: seq<Byte>, y: seq<Byte>)
    requires Stream(x) == Stream(y)
    ensures x == y
    decreases |x|
  {
    hide Bits;
    if x != [] {
      assert Bits(x[0], 8) == Stream(x)[..8] && Bits(y[0], 8) == Stream(y)[..8];
      assert Stream(x[1..]) == Stream(x)[8..] && Stream(y[1..]) == Stream(y)[8..];
      SameBits(x[0], y[0]);
      StreamInjective(x[1..], y[1..]);
    }
  }

  /** Every change confined to 32 consecutive bits, wherever in a byte they begin, changes the checksum. */
  lemma BurstChangesChecksum(x: seq<Byte>, y: seq<Byte>, k: nat)
    requires DifferOnlyIn(Stream(x), Stream(y), k, 32) && x != y
    ensures Checksum(x) != Checksum(y)
  {
    hide Stream, Fold, Step, Complement;
    if Checksum(x) == Checksum(y) {
      ComplementInjective(Fold(CRC.Absorb, 0xffff_ffff, x), Fold(CRC.Absorb, 0xffff_ffff, y));
      StreamAbsorbed(0xffff_ffff, x);
      StreamAbsorbed(0xffff_ffff, y);
      RegistersDiffer(0xffff_ffff, Stream(x), Stream(y), k, seq(32, _ => false));
      StreamInjective(x, y);
    }
  }

  // ----- 33 bits are too many -----

  /** Two texts that differ by the polynomial itself, which has 33 bits. */
  const PLAIN: seq<Byte> := [0, 0, 0, 0, 0]
  const SHADOW: seq<Byte> := [0x41, 0x06, 0x71, 0xdb, 0x01]

  lemma PlainRegisters()
    ensures CRC.Absorb(0xffff_ffff, 0) == 0x2dfd_1072 && CRC.Absorb(0x2dfd_1072, 0) == 0xbe26_ed00
    ensures CRC.Absorb(0xbe26_ed00, 0) == 0x00be_26ed && CRC.Absorb(0x00be_26ed, 0) == 0xdebb_20e3
    ensures CRC.Absorb(0xdebb_20e3, 0) == 0x39dd_08e2
  {}

  lemma ShadowRegisters()
    ensures CRC.Absorb(0xffff_ffff, 0x41) == 0x2c26_6174 && CRC.Absorb(0x2c26_6174, 0x06) == 0xbe27_3671
    ensures CRC.Absorb(0xbe27_3671, 0x71) == 0x00be_2736 && CRC.Absorb(0x00be_2736, 0xdb) == 0xdebb_20e2
    ensures CRC.Absorb(0xdebb_20e2, 0x01) == 0x39dd_08e2
  {}

  lemma LastByteDiffersInOneBit(j: nat)
    requires 1 <= j < 8
    ensures Bits(0, 8)[j] == Bits(1, 8)[j]
  {
    assert Half(1) == Half(0);
  }

  /** The bound on bursts is sharp: a burst of 33 bits can go unnoticed. */
  lemma BurstOf33MayHide()
    ensures DifferOnlyIn(Stream(PLAIN), Stream(SHADOW), 0, 33) && PLAIN != SHADOW && Checksum(PLAIN) == Checksum(SHADOW)
  {
    hide Bits, Stream, Fold, CRC.Absorb;
    PlainRegisters();
    ShadowRegisters();
    FoldAlong(CRC.Absorb, [0xffff_ffff, 0x2dfd_1072, 0xbe26_ed00, 0x00be_26ed, 0xdebb_20e3, 0x39dd_08e2], PLAIN);
    FoldAlong(CRC.Absorb, [0xffff_ffff, 0x2c26_6174, 0xbe27_3671, 0x00be_2736, 0xdebb_20e2, 0x39dd_08e2], SHADOW);
    forall i | 33 <= i < 40 ensures Stream(PLAIN)[i] == Stream(SHADOW)[i] {
      StreamAt(PLAIN, 4, i - 32);
      StreamAt(SHADOW, 4, i - 32);
      LastByteDiffersInOneBit(i - 32);
    }
  }

  // ----- The standard values -----

  /** A word as four bytes, the lowest first. */
  function LittleEndian(c: bv32): seq<Byte> {
    [ByteOf(c), ByteOf(ByteDown(c)), ByteOf(ByteDown(ByteDown(c))), ByteOf(ByteDown(ByteDown(ByteDown(c))))]
  }

  function ByteDown(c: bv32): bv32 {
    c >> 8
  }

  function ByteOf(c: bv32): Byte {
    (c & 0xff) as bv8
  }

  function ByteUp(x: bv32): bv32 {
    x << 8
  }

  lemma EightUps(x: bv32)
    ensures Iterate(Up, x, 8) == ByteUp(x)
  {}

  lemma UpLinear()
    ensures Linear(Up, Xor)
  {
    forall x, y ensures Up(Xor(x, y)) == Xor(Up(x), Up(y)) {
      UpXor(x, y);
    }
  }

  lemma UpXor(x: bv32, y: bv32)
    ensures Up(Xor(x, y)) == Xor(Up(x), Up(y))
  {}

  lemma ZeroXor(x: bv32)
    ensures Xor(0, x) == x
  {}

  lemma PackByteThen(b: Byte, rest: seq<bool>)
    ensures Pack(BITWISE, PACKING, Bits(b, 8) + rest) == Xor(Widen(b), ByteUp(Pack(BITWISE, PACKING, rest)))
  {
    hide Bits, Pack, Iterate, Up, Xor, Half, ByteUp, Associates;
    XorIsGroup();
    UpLinear();
    forall x ensures Xor(0, x) == x {
      ZeroXor(x);
    }
    PackAppend(BITWISE, PACKING, Bits(b, 8), rest);
    EightUps(Pack(BITWISE, PACKING, rest));
    EightHalves(b);
    PackOfBits(b, 8);
  }

  lemma {:induction false} PackOfStream(data: seq<Byte>)
    ensures Pack(BITWISE, PACKING, Stream(data)) == Packed(data)
    decreases |data|
  {
    hide Xor, ByteUp, Bits;
    if data != [] {
      PackOfStream(data[1..]);
      PackByteThen(data[0], Stream(data[1..]));
    }
  }

  /** Bytes as one number, the first one lowest. */
  function Packed(data: seq<Byte>): bv32 {
    if data == [] then 0 else Xor(Widen(data[0]), ByteUp(Packed(data[1..])))
  }

  lemma LowAndRest(c: bv32)
    ensures Xor(((c & 0xff) as bv8) as bv32, (c >> 8) << 8) == c
  {}

  lemma JoinParts(c: bv32)
    ensures Xor(Widen((c & 0xff) as bv8), ByteUp(c >> 8)) == c
  {
    hide Xor;
    LowAndRest(c);
  }

  /** A word is its low byte below the rest of it. */
  lemma JoinByte(c: bv32)
    ensures Xor(Widen(ByteOf(c)), ByteUp(ByteDown(c))) == c
  {
    hide Xor, Widen, ByteUp;
    JoinParts(c);
  }

  lemma FourDown(c: bv32)
    ensures ByteDown(ByteDown(ByteDown(ByteDown(c)))) == 0
  {}

  lemma PackedWord(c: bv32)
    ensures Packed(LittleEndian(c)) == c
  {
    hide Xor, ByteUp, ByteDown, Widen, ByteOf, Packed;
    var d := ByteDown(c);
    JoinByte(c);
    JoinByte(d);
    JoinByte(ByteDown(d));
    JoinByte(ByteDown(ByteDown(d)));
    FourDown(c);
    PackedFour(ByteOf(c), ByteOf(d), ByteOf(ByteDown(d)), ByteOf(ByteDown(ByteDown(d))));
  }

  lemma PackedFour(a: Byte, b: Byte, c: Byte, d: Byte)
    ensures Packed([a, b, c, d])
            == Xor(Widen(a), ByteUp(Xor(Widen(b), ByteUp(Xor(Widen(c), ByteUp(Xor(Widen(d), ByteUp(0))))))))
  {
    hide Xor, ByteUp, Widen;
    assert Packed([d]) == Xor(Widen(d), ByteUp(0)) by {
      assert [d][1..] == [];
    }
    assert [c, d][1..] == [d] && Packed([c, d]) == Xor(Widen(c), ByteUp(Packed([d])));
    assert [b, c, d][1..] == [c, d] && Packed([b, c, d]) == Xor(Widen(b), ByteUp(Packed([c, d])));
    assert [a, b, c, d][1..] == [b, c, d];
  }

  /** Absorbing a word's four bytes is adding the word and taking 32 steps. */
  lemma WordAbsorbed(s: bv32, c: bv32)
    ensures Fold(CRC.Absorb, s, LittleEndian(c)) == Iterate(Step, Xor(s, c), 32)
  {
    hide Fold, Step, Xor, Iterate, Stream, Pack, Packed, LittleEndian, Packs, Linear;
    FourBytesLong(c);
    StreamAbsorbed(s, LittleEndian(c));
    StepLinear();
    RegisterPacksBits();
    AbsorbAtOnce(BITWISE, PACKING, 32, s, Stream(LittleEndian(c)));
    PackOfStream(LittleEndian(c));
    PackedWord(c);
  }

  lemma FourBytesLong(c: bv32)
    ensures |LittleEndian(c)| == 4
  {}

  lemma ComplementsMeet(s: bv32)
    ensures Xor(s, Complement(s)) == Xor(0xffff_ffff, 0)
  {}

  lemma ZeroBytes()
    ensures LittleEndian(0) == [0, 0, 0, 0]
  {}

  const RESIDUE: bv32 := 0xdebb_20e3

  lemma ResidueOfZeros()
    ensures Fold(CRC.Absorb, 0xffff_ffff, [0, 0, 0, 0]) == RESIDUE
  {
    hide CRC.Absorb;
    PlainRegisters();
    FoldAlong(CRC.Absorb, [0xffff_ffff, 0x2dfd_1072, 0xbe26_ed00, 0x00be_26ed, 0xdebb_20e3], [0, 0, 0, 0]);
  }

  /** Any text followed by its checksum, lowest byte first, leaves the same residue in the register. */
  lemma ResidueIsConstant(data: seq<Byte>)
    ensures Fold(CRC.Absorb, 0xffff_ffff, data + LittleEndian(Checksum(data))) == RESIDUE
  {
    hide Fold, Step, Xor, Iterate, Complement, LittleEndian;
    var s := Fold(CRC.Absorb, 0xffff_ffff, data);
    FoldAppend(CRC.Absorb, 0xffff_ffff, data, LittleEndian(Checksum(data)));
    WordAbsorbed(s, Checksum(data));
    ComplementsMeet(s);
    WordAbsorbed(0xffff_ffff, 0);
    ZeroBytes();
    ResidueOfZeros();
  }

  /** 123456789 */
  const DIGITS: seq<Byte> := [0x31, 0x32, 0x33, 0x34, 0x35, 0x36, 0x37, 0x38, 0x39]

  lemma DigitRegisters()
    ensures CRC.Absorb(0xffff_ffff, 0x31) == 0x7c23_1048 && CRC.Absorb(0x7c23_1048, 0x32) == 0xb0ac_bb32
    ensures CRC.Absorb(0xb0ac_bb32, 0x33) == 0x77b7_9c2d && CRC.Absorb(0x77b7_9c2d, 0x34) == 0x641c_1f5c
    ensures CRC.Absorb(0x641c_1f5c, 0x35) == 0x340a_c5e3 && CRC.Absorb(0x340a_c5e3, 0x36) == 0xf68d_2c9e
    ensures CRC.Absorb(0xf68d_2c9e, 0x37) == 0xaffc_9660 && CRC.Absorb(0xaffc_9660, 0x38) == 0x651f_2550
    ensures CRC.Absorb(0x651f_2550, 0x39) == 0x340b_c6d9
  {}

  lemma LastRegister()
    ensures Complement(0x340b_c6d9) == 0xcbf4_3926
  {}

  /** The check value of CRC-32, and the checksum of nothing. */
  lemma CheckValue()
    ensures Checksum(DIGITS) == 0xcbf4_3926 && Checksum([]) == 0
  {
    hide CRC.Absorb, Complement;
    DigitRegisters();
    FoldAlong(CRC.Absorb, [0xffff_ffff, 0x7c23_1048, 0xb0ac_bb32, 0x77b7_9c2d, 0x641c_1f5c, 0x340a_c5e3, 0xf68d_2c9e,
                           0xaffc_9660, 0x651f_2550, 0x340b_c6d9], DIGITS);
    LastRegister();
    NothingAbsorbed();
  }

  lemma NothingAbsorbed()
    ensures Complement(0xffff_ffff) == 0
  {}
}

// The last line of a settings file: "crc32=", eight lower-case hex digits and a
// newline, holding the checksum of everything before it.
module ChecksumLine {
  import opened Bytes
  import opened Hex
  import opened Wrappers
  import opened Iteration
  import opened Positional
  import opened Crc32

  const PREFIX: seq<Byte> := [0x63, 0x72, 0x63, 0x33, 0x32, 0x3d]
  const NEWLINE: Byte := 0x0a
  const LINE_LENGTH: nat := 15

  // ----- Hex digits -----

  function High(v: bv32): bv32 {
    v >> 4
  }

  function Low(v: bv32): bv8 {
    (v & 15) as bv8
  }

  function Digit(v: bv32): Byte {
    DigitOf(Low(v))
  }

  function Attach(v: bv32, low: bv8): bv32 {
    (v << 4) | (low as bv32)
  }

  function Join(v: bv32, c: Byte): bv32 {
    Attach(v, ValueOf(c))
  }

  const HEX: Numerals<bv32, Byte> := Numerals(0, High, Digit, IsDigit, Join)

  lemma HexJoins()
    ensures Joins(HEX)
  {
    hide IsDigit, Digit, High, Join;
    forall v ensures IsDigit(Digit(v)) && Join(High(v), Digit(v)) == v {
      JoinOfParts(v);
    }
  }

  lemma LowIsSmall(v: bv32)
    ensures Low(v) < 16
  {}

  lemma Parts(v: bv32)
    ensures Attach(v >> 4, (v & 15) as bv8) == v
  {}

  lemma AttachParts(v: bv32)
    ensures Attach(High(v), Low(v)) == v
  {
    hide Attach;
    Parts(v);
  }

  lemma JoinOfParts(v: bv32)
    ensures IsDigit(Digit(v)) && Join(High(v), Digit(v)) == v
  {
    hide DigitOf, IsDigit, ValueOf, Attach, High, Low;
    LowIsSmall(v);
    DigitRoundTrip(Low(v));
    AttachParts(v);
  }

  lemma PartsOfAttached(v: bv32, low: bv8)
    requires v <= 0x0fff_ffff && low < 16
    ensures High((v << 4) | (low as bv32)) == v && Low((v << 4) | (low as bv32)) == low
  {}

  lemma PartsOfAttach(v: bv32, low: bv8)
    requires v <= 0x0fff_ffff && low < 16
    ensures High(Attach(v, low)) == v && Low(Attach(v, low)) == low
  {
    hide High, Low;
    PartsOfAttached(v, low);
  }

  lemma PartsOfJoin(v: bv32, c: Byte)
    requires v <= 0x0fff_ffff && IsDigit(c)
    ensures High(Join(v, c)) == v && Digit(Join(v, c)) == c
  {
    hide DigitOf, IsDigit, ValueOf, Attach, High, Low;
    ValueRoundTrip(c);
    PartsOfAttach(v, ValueOf(c));
  }

  const BOUNDS: seq<bv32> := [0, 0xf, 0xff, 0xfff, 0xffff, 0xf_ffff, 0xff_ffff, 0xfff_ffff]

  lemma {:induction false} FitsBounded(v: bv32, n: nat)
    requires n < 8 && Fits(HEX, v, n)
    ensures v <= BOUNDS[n]
    decreases n
  {
    if n > 0 {
      FitsBounded(High(v), n - 1);
      BoundShift(v, n);
    }
  }

  lemma BoundShift(v: bv32, n: nat)
    requires 0 < n < 8 && v >> 4 <= BOUNDS[n - 1]
    ensures v <= BOUNDS[n]
  {}

  lemma HexSplits()
    ensures Splits(HEX, 8)
  {
    forall v, d, n: nat | n < 8 && Fits(HEX, v, n) && IsDigit(d)
      ensures High(Join(v, d)) == v && Digit(Join(v, d)) == d
    {
      FitsBounded(v, n);
      PartsOfJoin(v, d);
    }
  }

  lemma EightShifts(v: bv32)
    ensures High(High(High(High(High(High(High(High(v)))))))) == 0
  {}

  /** Every 32-bit checksum has eight digits. */
  lemma AllFit(v: bv32)
    ensures Fits(HEX, v, 8)
  {
    EightShifts(v);
  }

  function HexText(crc: bv32): (text: seq<Byte>)
    ensures |text| == 8
  {
    Write(HEX, crc, 8)
  }

  /** Eight digits and 32-bit checksums correspond one to one. */
  lemma HexBijection(crc: bv32, text: seq<Byte>)
    requires |text| == 8
    ensures Read(HEX, text) == Some(crc) <==> text == HexText(crc)
  {
    HexJoins();
    AllFit(crc);
    ReadOfWrite(HEX, crc, 8);
    if Read(HEX, text) == Some(crc) {
      HexSplits();
      WriteOfRead(HEX, 8, text);
    }
  }

  // ----- Sealed records -----

  function Line(crc: bv32): (line: seq<Byte>)
    ensures |line| == LINE_LENGTH
  {
    PREFIX + HexText(crc) + [NEWLINE]
  }

  lemma LineInjective(a: bv32, b: bv32)
    requires Line(a) == Line(b)
    ensures a == b
  {
    assert HexText(a) == Line(a)[6..14] && HexText(b) == Line(b)[6..14];
    HexBijection(a, HexText(a));
    HexBijection(b, HexText(a));
  }

  /** A body with its checksum line. */
  function Seal(body: seq<Byte>): (file: seq<Byte>)
    ensures |file| == |body| + LINE_LENGTH
  {
    body + Line(Checksum(body))
  }

  ghost predicate Sealed(data: seq<Byte>) {
    |data| >= LINE_LENGTH && data == Seal(data[..|data| - LINE_LENGTH])
  }

  lemma SealIsSealed(body: seq<Byte>)
    ensures Sealed(Seal(body))
  {
    assert Seal(body)[..|body|] == body;
  }

  /** All checksum lines begin alike. */
  lemma SameFirst(a: bv32, b: bv32, n: nat)
    requires n <= 6
    ensures Line(a)[..n] == Line(b)[..n]
  {}

  /** A burst that begins in the body reaches at most the key of the line, so the checksum in it is intact. */
  lemma ChecksumIntact(body: seq<Byte>, body': seq<Byte>, k: nat)
    requires |body| == |body'| && k < |body| && DifferOnlyIn(Seal(body), Seal(body'), k, 5)
    ensures Checksum(body) == Checksum(body')
  {
    hide Checksum, Line;
    var n, line, line' := |body|, Line(Checksum(body)), Line(Checksum(body'));
    SameFirst(Checksum(body), Checksum(body'), 4);
    forall i | 4 <= i < LINE_LENGTH ensures line[i] == line'[i] {
      assert line[i] == Seal(body)[n + i] && line'[i] == Seal(body')[n + i];
    }
    assert line == line[..4] + line[4..] && line' == line'[..4] + line'[4..];
    LineInjective(Checksum(body), Checksum(body'));
  }

  lemma BurstInBody(body: seq<Byte>, body': seq<Byte>, k: nat)
    requires |body| == |body'| && DifferOnlyIn(Stream(Seal(body)), Stream(Seal(body')), k, 32)
    ensures DifferOnlyIn(Stream(body), Stream(body'), k, 32)
  {
    hide Stream, Checksum, Line;
    StreamAppend(body, Line(Checksum(body)));
    StreamAppend(body', Line(Checksum(body')));
    assert Stream(body) == Stream(Seal(body))[..8 * |body|] && Stream(body') == Stream(Seal(body'))[..8 * |body|];
  }

  lemma SealsApart(body: seq<Byte>, body': seq<Byte>, k: nat)
    requires DifferOnlyIn(Stream(Seal(body)), Stream(Seal(body')), k, 32)
    ensures body == body'
  {
    hide Stream, Checksum, Line;
    BurstInBytes(Seal(body), Seal(body'), k);
    if k / 8 < |body| {
      ChecksumIntact(body, body', k / 8);
      BurstInBody(body, body', k);
      if body != body' {
        BurstChangesChecksum(body, body', k);
      }
    } else {
      assert body == Seal(body)[..|body|] && body' == Seal(body')[..|body|];
    }
  }

  /** A sealed record that changed within 32 consecutive bits, wherever they are, is no longer sealed. */
  lemma DamageBreaksSeal(body: seq<Byte>, data: seq<Byte>, k: nat)
    requires DifferOnlyIn(Stream(Seal(body)), Stream(data), k, 32)
    ensures Sealed(data) <==> data == Seal(body)
  {
    hide Stream, Checksum, Line;
    SealIsSealed(body);
    if Sealed(data) {
      SealsApart(body, data[..|data| - LINE_LENGTH], k);
    }
  }

  // ----- The loops -----

  /** The mask is all ones for a low bit of one, and zero otherwise. */
  lemma MaskOfLow(low: bv32, mask: bv32)
    requires low <= 1 && mask == POLYNOMIAL & (0 - low)
    ensures mask == if low == 1 then POLYNOMIAL else 0
  {}

  lemma LowIsBit(crc: bv32)
    ensures crc & 1 <= 1
  {}

  lemma MaskedStep(crc: bv32, mask: bv32)
    requires mask == POLYNOMIAL & (0 - (crc & 1))
    ensures (crc >> 1) ^ mask == Step(crc)
  {
    LowIsBit(crc);
    MaskOfLow(crc & 1, mask);
  }

  method BitStep(crc: bv32) returns (next: bv32)
    ensures next == CRC.step(crc)
  {
    var mask: bv32 := POLYNOMIAL & (0 - (crc & 1));
    MaskedStep(crc, mask);
    next := (crc >> 1) ^ mask;
  }

  /** The inner loop: one byte. */
  method AbsorbByte(start: bv32, b: Byte) returns (crc: bv32)
    ensures crc == CRC.Absorb(start, b)
  {
    crc := start ^ (b as bv32);
    var bit := 0;
    while bit < 8
      invariant 0 <= bit <= 8
      invariant Iterate(CRC.step, crc, CRC.bits - bit) == CRC.Absorb(start, b)
    {
      crc := BitStep(crc);
      bit := bit + 1;
    }
  }

  method ComputeCrc32(data: seq<Byte>) returns (crc: bv32)
    ensures crc == Checksum(data)
  {
    crc := 0xffff_ffff;
    var i := 0;
    while i < |data|
      invariant 0 <= i <= |data|
      invariant Fold(CRC.Absorb, crc, data[i..]) == Fold(CRC.Absorb, 0xffff_ffff, data)
    {
      assert data[i..][0] == data[i] && data[i..][1..] == data[i + 1..];
      crc := AbsorbByte(crc, data[i]);
      i := i + 1;
    }
    assert data[i..] == [];
    crc := Complement(crc);
  }

  /** The shifts the writer goes through, for the digits from left to right. */
  const SHIFTS: seq<bv8> := [28, 24, 20, 16, 12, 8, 4, 0]

  function Shifted(crc: bv32, i: nat): bv32
    requires i < 8
  {
    crc >> SHIFTS[i]
  }

  lemma NextShift(crc: bv32, i: nat)
    requires 0 < i < 8
    ensures High(Shifted(crc, i)) == Shifted(crc, i - 1)
  {
    if i == 1 {
    } else if i == 2 {
    } else if i == 3 {
    } else if i == 4 {
    } else if i == 5 {
    } else if i == 6 {
    } else {
      assert i == 7;
    }
  }

  lemma NoShift(crc: bv32)
    ensures Shifted(crc, 7) == crc
  {}

  lemma {:induction false} ShiftIsHigh(crc: bv32, from: nat, n: nat)
    requires n <= from < 8
    ensures Iterate(High, Shifted(crc, from), n) == Shifted(crc, from - n)
    decreases n
  {
    if n > 0 {
      NextShift(crc, from);
      ShiftIsHigh(crc, from - 1, n - 1);
    }
  }

  lemma DigitOfLine(crc: bv32, i: nat)
    requires i < 8
    ensures HexText(crc)[i] == Digit(Shifted(crc, i))
  {
    DigitAt(HEX, crc, 8, i);
    ShiftIsHigh(crc, 7, 7 - i);
    NoShift(crc);
  }

  /** Formats the line; `shift` runs from the top digit down to the bottom one. */
  method FormatLine(crc: bv32) returns (line: array<Byte>)
    ensures fresh(line) && line[..] == Line(crc)
  {
    hide HexText, Digit, Shifted;
    line := new Byte[15];
    line[0], line[1], line[2], line[3], line[4], line[5] := 0x63, 0x72, 0x63, 0x33, 0x32, 0x3d;
    line[14] := NEWLINE;
    var i := 0;
    while i < 8
      invariant 0 <= i <= 8
      invariant line[..6] == PREFIX && line[14] == NEWLINE
      invariant line[6..6 + i] == HexText(crc)[..i]
    {
      DigitOfLine(crc, i);
      line[6 + i] := HexDigitAt(crc, i);
      i := i + 1;
    }
    assert line[6..14] == HexText(crc);
    assert line[..] == line[..6] + line[6..14] + [line[14]];
  }

  method HexDigitAt(crc: bv32, i: nat) returns (c: Byte)
    requires i < 8
    ensures c == Digit(Shifted(crc, i))
  {
    c := Digit(crc >> SHIFTS[i]);
  }

  /** Writes the body and its line into the buffer, or refuses if they do not fit. */
  method FixtureFromBody(body: seq<Byte>, file: array<Byte>) returns (result: int, length: nat)
    modifies file
    ensures result == if |body| + LINE_LENGTH > file.Length then -1 else 0
    ensures result == -1 ==> file[..] == old(file[..])
    ensures result == 0 ==> length == |body| + LINE_LENGTH
    ensures result == 0 ==> file[..length] == Seal(body) && file[length..] == old(file[length..])
  {
    var crc := ComputeCrc32(body);
    if |body| + LINE_LENGTH > file.Length {
      return -1, 0;
    }
    var line := FormatLine(crc);
    forall k | 0 <= k < |body| {
      file[k] := body[k];
    }
    forall k | 0 <= k < LINE_LENGTH {
      file[|body| + k] := line[k];
    }
    result, length := 0, |body| + LINE_LENGTH;
    assert file[..|body|] == body && file[|body|..length] == line[..];
    assert file[..length] == file[..|body|] + file[|body|..length];
  }

  /** Accepts exactly the records that FixtureFromBody writes. */
  method VerifyCrcLine(data: seq<Byte>) returns (accepted: bool)
    ensures accepted <==> Sealed(data)
  {
    var length := |data|;
    if length < 15 || data[length - 1] != NEWLINE {
      return false;
    }
    var line := data[length - 15..];
    if line[..6] != PREFIX {
      return false;
    }
    ghost var body := data[..length - 15];
    ghost var text := line[6..14];
    assert line == PREFIX + text + [NEWLINE] && data == body + line;
    assert Sealed(data) <==> text == HexText(Checksum(body)) by {
      assert Line(Checksum(body))[6..14] == HexText(Checksum(body));
      assert Seal(body)[length - 15..] == Line(Checksum(body));
    }
    HexBijection(Checksum(body), text);
    var parsed: bv32 := 0;
    var i := 0;
    while i < 8
      invariant 0 <= i <= 8
      invariant Read(HEX, text[..i]) == Some(parsed)
    {
      ReadNext(HEX, text, i);
      if !IsDigit(line[6 + i]) {
        ReadFails(HEX, text, i + 1);
        return false;
      }
      parsed := Join(parsed, line[6 + i]);
      i := i + 1;
    }
    assert text[..8] == text;
    var expected := ComputeCrc32(data[..length - 15]);
    accepted := parsed == expected;
  }
}

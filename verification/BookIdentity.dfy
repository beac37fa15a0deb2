// The identity of a book: a fixed prefix and the 64-bit FNV-1a hash of its path in hex.
module BookIdentity {
  import opened Bytes
  import opened Wrappers
  import opened Hex
  import opened Iteration
  import opened Positional
  import Fnv

  const PATH_MAX: nat := 4096
  const TOKEN_LENGTH: nat := 24

  /** path-v1- */
  const TOKEN_PREFIX: Text := [0x70, 0x61, 0x74, 0x68, 0x2d, 0x76, 0x31, 0x2d]

  // ----- The digits of a 64-bit word -----

  function High(v: bv64): bv64 {
    v >> 4
  }

  function Low(v: bv64): bv8 {
    (v & 15) as bv8
  }

  function Digit(v: bv64): Byte {
    DigitOf(Low(v))
  }

  function Attach(v: bv64, low: bv8): bv64 {
    (v << 4) | (low as bv64)
  }

  function Join(v: bv64, c: Byte): bv64 {
    Attach(v, ValueOf(c))
  }

  const HEX64: Numerals<bv64, Byte> := Numerals(0, High, Digit, IsDigit, Join)

  lemma LowIsSmall(v: bv64)
    ensures Low(v) < 16
  {}

  lemma Halves(v: bv64)
    ensures Attach(v >> 4, (v & 15) as bv8) == v
  {}

  lemma AttachHalves(v: bv64)
    ensures Attach(High(v), Low(v)) == v
  {
    hide Attach;
    Halves(v);
  }

  lemma JoinOfHalves(v: bv64)
    ensures IsDigit(Digit(v)) && Join(High(v), Digit(v)) == v
  {
    hide DigitOf, IsDigit, ValueOf, Attach, High, Low;
    LowIsSmall(v);
    DigitRoundTrip(Low(v));
    AttachHalves(v);
  }

  lemma HexJoins()
    ensures Joins(HEX64)
  {
    hide IsDigit, Digit, High, Join;
    forall v ensures IsDigit(Digit(v)) && Join(High(v), Digit(v)) == v {
      JoinOfHalves(v);
    }
  }

  function Count(n: nat): bv8
    requires n < 16
  {
    n as bv8
  }

  /** The shift for the digit with n digits right of it. */
  function Shift(n: nat): bv8
    requires n < 16
  {
    Count(n) * 4
  }

  function Down(v: bv64, k: bv8): bv64
    requires k <= 60
  {
    v >> k
  }

  lemma NextCount(n: nat)
    requires n < 15
    ensures Count(n) < 15 && Count(n + 1) == Count(n) + 1
  {}

  lemma NextShift(n: nat)
    requires n < 15
    ensures Shift(n) <= 56 && Shift(n + 1) == Shift(n) + 4
  {
    hide Count;
    NextCount(n);
  }

  lemma FourMore(v: bv64, k: bv8)
    requires k <= 56
    ensures (v >> k) >> 4 == v >> (k + 4)
  {}

  lemma HighIsShift(v: bv64)
    ensures High(v) == v >> 4
  {}

  lemma OneDigitDown(v: bv64, k: bv8)
    requires k <= 56
    ensures High(Down(v, k)) == Down(v, k + 4)
  {
    hide High;
    FourMore(v, k);
    HighIsShift(v >> k);
  }

  lemma HighOfDown(v: bv64, n: nat)
    requires n < 15
    ensures Shift(n) <= 60 && Shift(n + 1) <= 60
    ensures High(Down(v, Shift(n))) == Down(v, Shift(n + 1))
  {
    hide Shift, High, Down;
    NextShift(n);
    OneDigitDown(v, Shift(n));
  }

  lemma LastDigit(v: bv64, down: bv64)
    requires down == v >> 60
    ensures down >> 4 == 0
  {}

  lemma NothingAbove(v: bv64)
    ensures Shift(15) <= 60 && High(Down(v, Shift(15))) == 0
  {
    LastDigit(v, Down(v, Shift(15)));
  }

  /** Every 64-bit word has sixteen digits. */
  lemma {:induction false} AllFit(v: bv64, n: nat)
    requires n < 16 && Shift(n) <= 60
    ensures Fits(HEX64, Down(v, Shift(n)), 16 - n)
    decreases 16 - n
  {
    hide Shift, Down, High;
    if n < 15 {
      HighOfDown(v, n);
      AllFit(v, n + 1);
    } else {
      NothingAbove(v);
    }
  }

  lemma NoShift(v: bv64)
    ensures Shift(0) <= 60 && Down(v, Shift(0)) == v
  {}

  lemma {:induction false} DownByDigits(v: bv64, from: nat, n: nat)
    requires from + n < 16 && Shift(from) <= 60
    ensures Shift(from + n) <= 60 && Iterate(High, Down(v, Shift(from)), n) == Down(v, Shift(from + n))
    decreases n
  {
    hide Shift, Down, High;
    if n > 0 {
      HighOfDown(v, from);
      DownByDigits(v, from + 1, n - 1);
    }
  }

  function HexText(v: bv64): (text: Text)
    ensures |text| == 16
  {
    Write(HEX64, v, 16)
  }

  lemma HexTextInjective(v: bv64, v': bv64)
    requires HexText(v) == HexText(v')
    ensures v == v'
  {
    hide Write, Fits, Joins, Shift, Down;
    HexJoins();
    NoShift(v);
    NoShift(v');
    AllFit(v, 0);
    AllFit(v', 0);
    WriteInjective(HEX64, v, v', 16);
  }

  // ----- Identities -----

  function Token(path: Text): (token: Text)
    ensures |token| == TOKEN_LENGTH
  {
    TOKEN_PREFIX + HexText(Fnv.Checksum(Fnv.PATH, path))
  }

  /** The identity of a path, None for an empty or overlong one. */
  function FromPath(path: Text): Option<Text> {
    if 1 <= |path| <= PATH_MAX then Some(Token(path)) else None
  }

  lemma PrefixCancels(prefix: Text, a: Text, b: Text)
    requires prefix + a == prefix + b
    ensures a == b
  {
    assert a == (prefix + a)[|prefix|..] && b == (prefix + b)[|prefix|..];
  }

  /** Two paths of equal length that differ in exactly one byte name different books. */
  lemma OneByteChangesIdentity(x: Text, y: Text, k: nat)
    requires 1 <= |x| <= PATH_MAX && k < |x| && DifferOnlyIn(x, y, k, 1) && x[k] != y[k]
    ensures FromPath(x) != FromPath(y) && FromPath(x).Some? && FromPath(y).Some?
  {
    hide HexText, Fnv.Checksum;
    Fnv.PathIsValid();
    Fnv.OneByteChangesChecksum(Fnv.PATH, x, y, k);
    if FromPath(x) == FromPath(y) {
      PrefixCancels(TOKEN_PREFIX, HexText(Fnv.Checksum(Fnv.PATH, x)), HexText(Fnv.Checksum(Fnv.PATH, y)));
      HexTextInjective(Fnv.Checksum(Fnv.PATH, x), Fnv.Checksum(Fnv.PATH, y));
    }
  }

  // ----- The loops -----

  lemma DigitFromLeft(v: bv64, i: nat)
    requires i < 16
    ensures Shift(15 - i) <= 60 && HexText(v)[i] == Digit(Down(v, Shift(15 - i)))
  {
    hide Shift, Down, High, Digit, Write, Iterate;
    NoShift(v);
    DigitAt(HEX64, v, 16, i);
    DownByDigits(v, 0, 15 - i);
  }

  /** Hashes the path and writes the digits of the hash from the left. */
  method Identify(path: Text) returns (token: Option<Text>)
    ensures token == FromPath(path)
  {
    hide Fnv.Xor64, Fnv.Scale64, HexText, Shift, Down, Digit;
    if |path| == 0 || |path| > PATH_MAX {
      return None;
    }
    var hash: bv64 := 14695981039346656037;
    var i := 0;
    assert path[0..] == path;
    while i < |path|
      invariant 0 <= i <= |path|
      invariant Fold(Fnv.PATH.Absorb, hash, path[i..]) == Fnv.Checksum(Fnv.PATH, path)
    {
      assert path[i..][0] == path[i] && path[i..][1..] == path[i + 1..];
      hash := Fnv.Xor64(hash, path[i]);
      hash := Fnv.Scale64(hash);
      i := i + 1;
    }
    assert path[i..] == [];
    var text := TOKEN_PREFIX;
    i := 0;
    while i < 16
      invariant 0 <= i <= 16 && text == TOKEN_PREFIX + HexText(hash)[..i]
    {
      DigitFromLeft(hash, i);
      text := text + [Digit(Down(hash, Shift(15 - i)))];
      i := i + 1;
    }
    assert HexText(hash)[..16] == HexText(hash);
    token := Some(text);
  }
}

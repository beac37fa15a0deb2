// Lower-case hex digits.
module Hex {
  import opened Bytes

  function DigitOf(n: bv8): Byte {
    if n < 10 then 0x30 + n else 0x61 + (n - 10)
  }

  predicate IsDigit(c: Byte) {
    0x30 <= c <= 0x39 || 0x61 <= c <= 0x66
  }

  function ValueOf(c: Byte): bv8 {
    if c <= 0x39 then c - 0x30 else c - 0x61 + 10
  }

  lemma DigitRoundTrip(n: bv8)
    requires n < 16
    ensures IsDigit(DigitOf(n)) && ValueOf(DigitOf(n)) == n
  {}

  lemma ValueRoundTrip(c: Byte)
    requires IsDigit(c)
    ensures ValueOf(c) < 16 && DigitOf(ValueOf(c)) == c
  {}

  /** The two digits of a byte. */
  function PairOf(b: Byte): (text: seq<Byte>)
    ensures |text| == 2
  {
    [DigitOf(b >> 4), DigitOf(b & 0x0f)]
  }

  lemma PairIsDigits(b: Byte)
    ensures IsDigit(PairOf(b)[0]) && IsDigit(PairOf(b)[1])
    ensures b == (ValueOf(PairOf(b)[0]) << 4) | ValueOf(PairOf(b)[1])
  {}

  /** Bytes in hex. */
  function TextOf(data: seq<Byte>): (text: seq<Byte>)
    ensures |text| == 2 * |data|
    decreases |data|
  {
    if data == [] then [] else TextOf(data[..|data| - 1]) + PairOf(data[|data| - 1])
  }

  lemma {:induction false} TextIsDigits(data: seq<Byte>)
    ensures forall c | c in TextOf(data) :: IsDigit(c)
    decreases |data|
  {
    if data != [] {
      TextIsDigits(data[..|data| - 1]);
      PairIsDigits(data[|data| - 1]);
    }
  }

  /** Different bytes have different texts. */
  lemma {:induction false} TextOfInjective(x: seq<Byte>, y: seq<Byte>)
    requires TextOf(x) == TextOf(y)
    ensures x == y
    decreases |x|
  {
    hide PairOf;
    if x != [] {
      var n := |x| - 1;
      assert TextOf(x)[2 * n..] == PairOf(x[n]) && TextOf(y)[2 * n..] == PairOf(y[n]);
      assert TextOf(x[..n]) == TextOf(x)[..2 * n] && TextOf(y[..n]) == TextOf(y)[..2 * n];
      TextOfInjective(x[..n], y[..n]);
      PairIsDigits(x[n]);
      PairIsDigits(y[n]);
      assert x == x[..n] + [x[n]] && y == y[..n] + [y[n]];
    }
  }

  /** The digits are 0 to 9 and then a to f, in order. */
  lemma Alphabet(n: bv8)
    requires n < 16
    ensures DigitOf(0) == 0x30 && DigitOf(9) == 0x39 && DigitOf(10) == 0x61 && DigitOf(15) == 0x66
    ensures n < 15 && n != 9 ==> DigitOf(n + 1) == DigitOf(n) + 1
  {}
}

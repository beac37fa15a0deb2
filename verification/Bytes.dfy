module Bytes {
  type Byte = bv8
  type Text = seq<Byte>

  /** Every number below 256 is a byte; the proof looks at 32 of them at a time. */
  lemma ByteRoundTrip(n: nat)
    requires n < 256
    ensures (n as bv8) as nat == n
  {
    if n < 64 {
      if n < 32 {
      }
    } else if n < 128 {
      if n < 96 {
      }
    } else if n < 192 {
      if n < 160 {
      }
    } else if n < 224 {
    }
  }
}

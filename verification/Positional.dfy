// Fixed-width positional numerals over an arbitrary value type: writing a value
// as digits and reading it back.
module Positional {
  import opened Wrappers
  import opened Iteration

  /** `high` drops the last digit, `low` is the last digit, `join` puts a digit back. */
  datatype Numerals<!T, !D> = Numerals(zero: T, high: T -> T, low: T -> D, isDigit: D -> bool, join: (T, D) -> T)

  /** The low n digits of v, most significant first. */
  function Write<T, D>(p: Numerals<T, D>, v: T, n: nat): (digits: seq<D>)
    ensures |digits| == n
    decreases n
  {
    if n == 0 then [] else Write(p, p.high(v), n - 1) + [p.low(v)]
  }

  /** The value of the digits, or None if one of them is not a digit. */
  function Read<T, D>(p: Numerals<T, D>, digits: seq<D>): Option<T>
    decreases |digits|
  {
    if digits == [] then Some(p.zero) else
      var front, last := digits[..|digits| - 1], digits[|digits| - 1];
      var value := Read(p, front);
      if value.None? || !p.isDigit(last) then None else Some(p.join(value.value, last))
  }

  /** v needs no more than n digits. */
  ghost predicate Fits<T, D>(p: Numerals<T, D>, v: T, n: nat)
    decreases n
  {
    if n == 0 then v == p.zero else Fits(p, p.high(v), n - 1)
  }

  ghost predicate Joins<T(!new), D(!new)>(p: Numerals<T, D>) {
    forall v :: p.isDigit(p.low(v)) && p.join(p.high(v), p.low(v)) == v
  }

  /** A digit joined to a value of fewer than `width` digits can be taken off again. */
  ghost predicate Splits<T(!new), D(!new)>(p: Numerals<T, D>, width: nat) {
    forall v, d, n: nat | n < width && Fits(p, v, n) && p.isDigit(d) ::
      p.high(p.join(v, d)) == v && p.low(p.join(v, d)) == d
  }

  /** Reading back the n digits of a value that fits in them gives the value. */
  lemma {:induction false} ReadOfWrite<T(!new), D(!new)>(p: Numerals<T, D>, v: T, n: nat)
    requires Joins(p) && Fits(p, v, n)
    ensures Read(p, Write(p, v, n)) == Some(v)
    decreases n
  {
    if n > 0 {
      var digits := Write(p, v, n);
      assert digits[..n - 1] == Write(p, p.high(v), n - 1);
      ReadOfWrite(p, p.high(v), n - 1);
    }
  }

  /** Values that fit in n digits are told apart by them. */
  lemma WriteInjective<T(!new), D(!new)>(p: Numerals<T, D>, v: T, w: T, n: nat)
    requires Joins(p) && Fits(p, v, n) && Fits(p, w, n) && Write(p, v, n) == Write(p, w, n)
    ensures v == w
  {
    ReadOfWrite(p, v, n);
    ReadOfWrite(p, w, n);
  }

  /** Only the digits that would have been written read as a value. */
  lemma {:induction false} WriteOfRead<T(!new), D(!new)>(p: Numerals<T, D>, width: nat, digits: seq<D>)
    requires Splits(p, width) && |digits| <= width && Read(p, digits).Some?
    ensures Fits(p, Read(p, digits).value, |digits|)
    ensures Write(p, Read(p, digits).value, |digits|) == digits
    decreases |digits|
  {
    if digits != [] {
      WriteOfRead(p, width, digits[..|digits| - 1]);
    }
  }

  /** The i-th digit from the left is the last one after dropping those right of it. */
  lemma {:induction false} DigitAt<T, D>(p: Numerals<T, D>, v: T, n: nat, i: nat)
    requires i < n
    ensures Write(p, v, n)[i] == p.low(Iterate(p.high, v, n - 1 - i))
    decreases n
  {
    if i < n - 1 {
      DigitAt(p, p.high(v), n - 1, i);
    }
  }

  /** Digits are read from the left one at a time. */
  lemma ReadNext<T, D>(p: Numerals<T, D>, digits: seq<D>, i: nat)
    requires i < |digits|
    ensures Read(p, digits[..i]).None? || !p.isDigit(digits[i]) <==> Read(p, digits[..i + 1]).None?
    ensures Read(p, digits[..i + 1]).Some? ==>
              Read(p, digits[..i + 1]).value == p.join(Read(p, digits[..i]).value, digits[i])
  {
    assert digits[..i + 1][..i] == digits[..i];
  }

  lemma {:induction false} ReadFails<T, D>(p: Numerals<T, D>, digits: seq<D>, i: nat)
    requires i <= |digits| && Read(p, digits[..i]).None?
    ensures Read(p, digits).None?
    decreases |digits| - i
  {
    if i < |digits| {
      ReadNext(p, digits, i);
      ReadFails(p, digits, i + 1);
    } else {
      assert digits[..i] == digits;
    }
  }
}

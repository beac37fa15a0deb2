// FNV-1a over words of any width: the checksum of a page buffer, in its two 32-bit
// implementations, and the 64-bit identity of a book path.
module Fnv {
  import opened Bytes
  import opened Iteration

  /** Exclusive-or with a byte, and multiplication by a prime, which `unscale` undoes. */
  datatype Hash<!T> = Hash(xor: (T, Byte) -> T, scale: T -> T, unscale: T -> T, basis: T) {
    function Absorb(h: T, b: Byte): T {
      scale(xor(h, b))
    }
  }

  function Checksum<T>(f: Hash<T>, data: seq<Byte>): T {
    Fold(f.Absorb, f.basis, data)
  }

  ghost predicate Valid<T(!new)>(f: Hash<T>) {
    && (forall x :: f.unscale(f.scale(x)) == x)
    && (forall h, b, h', b' :: f.xor(h, b) == f.xor(h', b') ==> (h == h' <==> b == b'))
  }

  // ----- Detection -----

  lemma AbsorbSeparates<T(!new)>(f: Hash<T>)
    requires Valid(f)
    ensures KeepsApart(f.Absorb) && WindowsSeparate(f.Absorb, 1)
  {
    forall h, b, h', b' | f.Absorb(h, b) == f.Absorb(h', b') ensures h == h' <==> b == b' {
      assert f.unscale(f.Absorb(h, b)) == f.xor(h, b) && f.unscale(f.Absorb(h', b')) == f.xor(h', b');
    }
    forall s, u, v | |u| == |v| == 1 && Fold(f.Absorb, s, u) == Fold(f.Absorb, s, v) ensures u == v {
      FoldOfOne(f.Absorb, s, u);
      FoldOfOne(f.Absorb, s, v);
    }
  }

  lemma FoldOfOne<S, E>(f: (S, E) -> S, s: S, data: seq<E>)
    requires |data| == 1
    ensures Fold(f, s, data) == f(s, data[0])
  {}

  /** Two texts of equal length that differ in exactly one byte have different checksums. */
  lemma OneByteChangesChecksum<T(!new)>(f: Hash<T>, x: seq<Byte>, y: seq<Byte>, k: nat)
    requires Valid(f) && k < |x| && DifferOnlyIn(x, y, k, 1) && x[k] != y[k]
    ensures Checksum(f, x) != Checksum(f, y)
  {
    if Checksum(f, x) == Checksum(f, y) {
      AbsorbSeparates(f);
      WindowDetected(f.Absorb, f.basis, x, y, k, 1);
    }
  }

  // ----- The 32-bit hash of pages -----

  function Xor32(h: bv32, b: Byte): bv32 {
    h ^ (b as bv32)
  }

  function Scale32(x: bv32): bv32 {
    x * 16777619
  }

  function Unscale32(x: bv32): bv32 {
    x * 899433627
  }

  const PAGE: Hash<bv32> := Hash(Xor32, Scale32, Unscale32, 2166136261)

  lemma ProductsCancel32(x: bv32)
    ensures Unscale32(x * 16777619) == x
  {}

  lemma ScaleInvertible32(x: bv32)
    ensures Unscale32(Scale32(x)) == x
  {
    hide Unscale32;
    ProductsCancel32(x);
  }

  lemma XorCancels32(h: bv32, b: Byte, h': bv32, b': Byte, x: bv32)
    requires x == h ^ (b as bv32) && x == h' ^ (b' as bv32)
    ensures h == h' ==> b == b'
    ensures b == b' ==> h == h'
  {}

  lemma PageIsValid()
    ensures Valid(PAGE)
  {
    hide Scale32, Unscale32;
    forall x ensures Unscale32(Scale32(x)) == x {
      ScaleInvertible32(x);
    }
    forall h, b, h', b' | Xor32(h, b) == Xor32(h', b') ensures h == h' <==> b == b' {
      XorCancels32(h, b, h', b', Xor32(h, b));
    }
  }

  /** Two pages of equal length that differ in exactly one byte have different checksums. */
  lemma OneByteChangesPage(x: seq<Byte>, y: seq<Byte>, k: nat)
    requires k < |x| && DifferOnlyIn(x, y, k, 1) && x[k] != y[k]
    ensures Checksum(PAGE, x) != Checksum(PAGE, y)
  {
    PageIsValid();
    OneByteChangesChecksum(PAGE, x, y, k);
  }

  // ----- The 64-bit hash of paths -----

  function Xor64(h: bv64, b: Byte): bv64 {
    h ^ (b as bv64)
  }

  function Scale64(x: bv64): bv64 {
    x * 1099511628211
  }

  function Unscale64(x: bv64): bv64 {
    x * 0xce96_5057_aff6_957b
  }

  const PATH: Hash<bv64> := Hash(Xor64, Scale64, Unscale64, 14695981039346656037)

  lemma ProductsCancel64(x: bv64)
    ensures Unscale64(x * 1099511628211) == x
  {}

  lemma ScaleInvertible64(x: bv64)
    ensures Unscale64(Scale64(x)) == x
  {
    hide Unscale64;
    ProductsCancel64(x);
  }

  lemma XorCancels64(h: bv64, b: Byte, h': bv64, b': Byte, x: bv64)
    requires x == h ^ (b as bv64) && x == h' ^ (b' as bv64)
    ensures h == h' ==> b == b'
    ensures b == b' ==> h == h'
  {}

  lemma PathIsValid()
    ensures Valid(PATH)
  {
    hide Scale64, Unscale64;
    forall x ensures Unscale64(Scale64(x)) == x {
      ScaleInvertible64(x);
    }
    forall h, b, h', b' | Xor64(h, b) == Xor64(h', b') ensures h == h' <==> b == b' {
      XorCancels64(h, b, h', b', Xor64(h, b));
    }
  }

  /** The published check values of both widths: nothing, and the letter a. */
  lemma CheckValues()
    ensures Checksum(PAGE, []) == 0x811c_9dc5 && Checksum(PAGE, [0x61]) == 0xe40c_292c
    ensures Checksum(PATH, []) == 0xcbf2_9ce4_8422_2325 && Checksum(PATH, [0x61]) == 0xaf63_dc4c_8601_ec8c
  {
    FoldOfOne(PAGE.Absorb, PAGE.basis, [0x61]);
    FoldOfOne(PATH.Absorb, PATH.basis, [0x61]);
  }

  // ----- The two loops -----

  /** Over a 32-bit unsigned word, whose products wrap around. */
  method ChecksumBytes(p: array<Byte>, n: nat) returns (h: bv32)
    requires n <= p.Length
    ensures h == Checksum(PAGE, p[..n])
  {
    hide Xor32, Scale32;
    h := 2166136261;
    var i := 0;
    assert p[..n][0..] == p[..n];
    while i < n
      invariant 0 <= i <= n
      invariant Fold(PAGE.Absorb, h, p[..n][i..]) == Checksum(PAGE, p[..n])
    {
      assert p[..n][i..][0] == p[i] && p[..n][i..][1..] == p[..n][i + 1..];
      h := Xor32(h, p[i]);
      h := Scale32(h);
      i := i + 1;
    }
  }

  /** The product in a wider word, cut back to 32 bits. */
  function MaskedProduct(x: bv64): bv64 {
    (x * 16777619) & 0xffff_ffff
  }

  /** Cutting the wide product back gives what the narrow one wraps around to. */
  lemma MaskedIsWrapped(x: bv32)
    ensures MaskedProduct(x as bv64) == Scale32(x) as bv64
  {}

  lemma XorIsSame(x: bv32, b: Byte)
    ensures Xor64(x as bv64, b) == Xor32(x, b) as bv64
  {}

  /** 64 bits hold every product of the loop: twice as many would not change it. */
  lemma ProductFits(x: bv64)
    requires x <= 0xffff_ffff
    ensures (x as bv128) * 16777619 == (x * 16777619) as bv128
  {}

  /** Over an unbounded integer, of which each step keeps the low 32 bits. */
  method Fnv1a(data: seq<Byte>) returns (h: bv64)
    ensures h == Checksum(PAGE, data) as bv64
  {
    hide Xor32, Scale32, Xor64, MaskedProduct;
    h := 2166136261;
    ghost var g: bv32 := 2166136261;
    var i := 0;
    assert data[0..] == data;
    while i < |data|
      invariant 0 <= i <= |data| && h == g as bv64
      invariant Fold(PAGE.Absorb, g, data[i..]) == Checksum(PAGE, data)
    {
      assert data[i..][0] == data[i] && data[i..][1..] == data[i + 1..];
      XorIsSame(g, data[i]);
      MaskedIsWrapped(Xor32(g, data[i]));
      h := Xor64(h, data[i]);
      h := MaskedProduct(h);
      g := PAGE.Absorb(g, data[i]);
      i := i + 1;
    }
  }
}

// UTF-8 as RFC 3629 defines it, and the strict decoder of the text renderer.
module Utf8 {
  import opened Bytes
  import opened Wrappers

  type CodePoint = bv32

  // ----- Section 3: the encoding -----

  predicate Scalar(cp: CodePoint) {
    cp < 0xd800 || 0xe000 <= cp <= 0x10ffff
  }

  function Tail(cp: CodePoint): Byte {
    0x80 | ((cp & 0x3f) as bv8)
  }

  function Lead2(v: CodePoint): Byte {
    0xc0 | ((v & 0x1f) as bv8)
  }

  function Lead3(v: CodePoint): Byte {
    0xe0 | ((v & 0x0f) as bv8)
  }

  function Lead4(v: CodePoint): Byte {
    0xf0 | ((v & 0x07) as bv8)
  }

  function Encode(cp: CodePoint): (s: seq<Byte>)
    ensures 1 <= |s| <= 4
  {
    if cp < 0x80 then [cp as bv8]
    else if cp < 0x800 then [Lead2(cp >> 6), Tail(cp)]
    else if cp < 0x1_0000 then [Lead3(cp >> 12), Tail(cp >> 6), Tail(cp)]
    else [Lead4(cp >> 18), Tail(cp >> 12), Tail(cp >> 6), Tail(cp)]
  }

  // ----- Section 4: the well-formed byte sequences -----

  predicate IsTail(b: Byte) {
    0x80 <= b <= 0xbf
  }

  predicate Second3(a: Byte, b: Byte) {
    if a == 0xe0 then 0xa0 <= b <= 0xbf
    else if a == 0xed then 0x80 <= b <= 0x9f
    else 0xe1 <= a <= 0xef && IsTail(b)
  }

  predicate Second4(a: Byte, b: Byte) {
    if a == 0xf0 then 0x90 <= b <= 0xbf
    else if a == 0xf4 then 0x80 <= b <= 0x8f
    else 0xf1 <= a <= 0xf3 && IsTail(b)
  }

  predicate WellFormed(s: seq<Byte>) {
    match |s|
    case 1 => s[0] <= 0x7f
    case 2 => 0xc2 <= s[0] <= 0xdf && IsTail(s[1])
    case 3 => Second3(s[0], s[1]) && IsTail(s[2])
    case 4 => Second4(s[0], s[1]) && IsTail(s[2]) && IsTail(s[3])
    case _ => false
  }

  /** The length of the well-formed sequence that s starts with, 0 if it starts with none. */
  function Leading(s: seq<Byte>): (n: nat)
    ensures n <= |s| && n <= 4
    ensures n > 0 ==> WellFormed(s[..n])
  {
    if |s| >= 1 && WellFormed(s[..1]) then 1
    else if |s| >= 2 && WellFormed(s[..2]) then 2
    else if |s| >= 3 && WellFormed(s[..3]) then 3
    else if |s| >= 4 && WellFormed(s[..4]) then 4
    else 0
  }

  /** The payload bits of a sequence. */
  function Payload(s: seq<Byte>): CodePoint {
    match |s|
    case 1 => s[0] as bv32
    case 2 => Join(Head(s[0], 0x1f), s[1])
    case 3 => Join(Join(Head(s[0], 0x0f), s[1]), s[2])
    case 4 => Join(Join(Join(Head(s[0], 0x07), s[1]), s[2]), s[3])
    case _ => 0
  }

  function Head(b: Byte, mask: Byte): CodePoint {
    (b & mask) as bv32
  }

  function Join(v: CodePoint, b: Byte): CodePoint {
    (v << 6) | ((b & 0x3f) as bv32)
  }

  // ----- One continuation byte at a time -----

  lemma JoinTail(cp: CodePoint)
    ensures IsTail(Tail(cp)) && Join(cp >> 6, Tail(cp)) == cp
  {}

  lemma SplitJoin(v: CodePoint, b: Byte)
    requires v <= 0x3ff_ffff && IsTail(b)
    ensures Join(v, b) >> 6 == v && Tail(Join(v, b)) == b
  {}

  lemma ShiftTwice(cp: CodePoint)
    ensures (cp >> 6) >> 6 == cp >> 12 && (cp >> 12) >> 6 == cp >> 18
  {}

  /** The first two pieces of a three-byte sequence, as one number. */
  predicate Top3(u: CodePoint) {
    0x20 <= u <= 0x3ff && !(0x360 <= u <= 0x37f)
  }

  predicate Top4(u: CodePoint) {
    0x10 <= u <= 0x10f
  }

  lemma Bounds(cp: CodePoint)
    ensures 0x80 <= cp < 0x800 <==> 2 <= cp >> 6 <= 0x1f
    ensures 0x800 <= cp < 0x1_0000 && Scalar(cp) <==> Top3(cp >> 6)
    ensures 0x1_0000 <= cp && Scalar(cp) <==> Top4(cp >> 12)
  {}

  lemma EncodeTop2(v: CodePoint)
    requires 2 <= v <= 0x1f
    ensures 0xc2 <= Lead2(v) <= 0xdf && Head(Lead2(v), 0x1f) == v
  {}

  lemma EncodeTop3(u: CodePoint)
    requires Top3(u)
    ensures Second3(Lead3(u >> 6), Tail(u)) && Head(Lead3(u >> 6), 0x0f) == u >> 6
  {}

  lemma EncodeTop4(u: CodePoint)
    requires Top4(u)
    ensures Second4(Lead4(u >> 6), Tail(u)) && Head(Lead4(u >> 6), 0x07) == u >> 6
  {}

  lemma DecodeTop2(a: Byte)
    requires 0xc2 <= a <= 0xdf
    ensures 2 <= Head(a, 0x1f) <= 0x1f && Lead2(Head(a, 0x1f)) == a
  {}

  lemma DecodeTop3(a: Byte, b: Byte)
    requires Second3(a, b)
    ensures Top3(Join(Head(a, 0x0f), b)) && Head(a, 0x0f) <= 0x0f && Lead3(Head(a, 0x0f)) == a
  {}

  lemma DecodeTop4(a: Byte, b: Byte)
    requires Second4(a, b)
    ensures Top4(Join(Head(a, 0x07), b)) && Head(a, 0x07) <= 0x07 && Lead4(Head(a, 0x07)) == a
  {}

  lemma Ascii(cp: CodePoint)
    requires cp < 0x80
    ensures (cp as bv8) <= 0x7f && (cp as bv8) as bv32 == cp
  {}

  // ----- Sections 3 and 4 describe the same sequences -----

  lemma EncodeWellFormed(cp: CodePoint)
    requires Scalar(cp)
    ensures WellFormed(Encode(cp)) && Payload(Encode(cp)) == cp
  {
    Bounds(cp);
    ShiftTwice(cp);
    JoinTail(cp);
    JoinTail(cp >> 6);
    JoinTail(cp >> 12);
    if cp < 0x80 {
      Ascii(cp);
    } else if cp < 0x800 {
      EncodeTop2(cp >> 6);
    } else if cp < 0x1_0000 {
      EncodeTop3(cp >> 6);
    } else {
      EncodeTop4(cp >> 12);
    }
  }

  lemma Pieces3(cp: CodePoint, a: Byte, b: Byte, c: Byte)
    requires Top3(cp >> 6) && Lead3(cp >> 12) == a && Tail(cp >> 6) == b && Tail(cp) == c
    ensures Scalar(cp) && Encode(cp) == [a, b, c]
  {
    Bounds(cp);
  }

  lemma Pieces4(cp: CodePoint, a: Byte, b: Byte, c: Byte, d: Byte)
    requires Top4(cp >> 12) && Lead4(cp >> 18) == a && Tail(cp >> 12) == b && Tail(cp >> 6) == c && Tail(cp) == d
    ensures Scalar(cp) && Encode(cp) == [a, b, c, d]
  {
    Bounds(cp);
  }

  lemma Small3(u: CodePoint)
    ensures Top3(u) || Top4(u) ==> u <= 0x3ff_ffff
  {}

  lemma Decode3(a: Byte, b: Byte, c: Byte)
    requires WellFormed([a, b, c])
    ensures Scalar(Payload([a, b, c])) && Encode(Payload([a, b, c])) == [a, b, c]
  {
    var u := Join(Head(a, 0x0f), b);
    DecodeTop3(a, b);
    SplitJoin(Head(a, 0x0f), b);
    Small3(u);
    SplitJoin(u, c);
    ShiftTwice(Join(u, c));
    Pieces3(Join(u, c), a, b, c);
  }

  lemma SplitTwice(t: CodePoint, c: Byte, d: Byte)
    requires Top4(t) && IsTail(c) && IsTail(d)
    ensures Join(Join(t, c), d) >> 12 == t && Tail(Join(Join(t, c), d) >> 6) == c
    ensures Tail(Join(Join(t, c), d)) == d
  {}

  lemma Decode4(a: Byte, b: Byte, c: Byte, d: Byte)
    requires WellFormed([a, b, c, d])
    ensures Scalar(Payload([a, b, c, d])) && Encode(Payload([a, b, c, d])) == [a, b, c, d]
  {
    var t := Join(Head(a, 0x07), b);
    DecodeTop4(a, b);
    SplitJoin(Head(a, 0x07), b);
    SplitTwice(t, c, d);
    ShiftTwice(Join(Join(t, c), d));
    Pieces4(Join(Join(t, c), d), a, b, c, d);
  }

  lemma Decode2(a: Byte, b: Byte)
    requires WellFormed([a, b])
    ensures Scalar(Payload([a, b])) && Encode(Payload([a, b])) == [a, b]
  {
    DecodeTop2(a);
    SplitJoin(Head(a, 0x1f), b);
    Bounds(Join(Head(a, 0x1f), b));
  }

  lemma Decode1(a: Byte)
    requires a <= 0x7f
    ensures Scalar(Payload([a])) && Encode(Payload([a])) == [a]
  {}

  lemma WellFormedEncodes(s: seq<Byte>)
    requires WellFormed(s)
    ensures Scalar(Payload(s)) && Encode(Payload(s)) == s
  {
    if |s| == 1 {
      assert s == [s[0]];
      Decode1(s[0]);
    } else if |s| == 2 {
      assert s == [s[0], s[1]];
      Decode2(s[0], s[1]);
    } else if |s| == 3 {
      assert s == [s[0], s[1], s[2]];
      Decode3(s[0], s[1], s[2]);
    } else {
      assert s == [s[0], s[1], s[2], s[3]];
      Decode4(s[0], s[1], s[2], s[3]);
    }
  }

  /** A byte sequence is well formed exactly when it encodes a scalar value, and then only that one. */
  lemma EncodingIsBijective(s: seq<Byte>, cp: CodePoint)
    ensures WellFormed(s) && Payload(s) == cp <==> Scalar(cp) && Encode(cp) == s
  {
    if WellFormed(s) && Payload(s) == cp {
      WellFormedEncodes(s);
    }
    if Scalar(cp) && Encode(cp) == s {
      EncodeWellFormed(cp);
    }
  }

  /** What follows a well-formed sequence does not change where it ends. */
  lemma LeadingOfAppend(s: seq<Byte>, t: seq<Byte>)
    requires WellFormed(s)
    ensures Leading(s + t) == |s| && (s + t)[..|s|] == s
  {
    var w := s + t;
    assert w[..|s|] == s;
    assert |w| >= 1 ==> w[..1][0] == s[0];
    assert |w| >= 2 ==> w[..2][0] == s[0];
    assert |w| >= 3 ==> w[..3][0] == s[0];
    assert |w| >= 4 ==> w[..4][0] == s[0];
  }

  // ----- Whole strings -----

  function EncodeAll(cps: seq<CodePoint>): seq<Byte>
    decreases |cps|
  {
    if cps == [] then [] else Encode(cps[0]) + EncodeAll(cps[1..])
  }

  datatype Decoded = Decoded(cps: seq<CodePoint>, bad: nat)

  /** The code points of a string in order, and how many of its bytes belong to none. */
  function Decode(s: seq<Byte>): Decoded
    decreases |s|
  {
    if s == [] then Decoded([], 0) else
      var n := Leading(s);
      if n == 0 then
        var rest := Decode(s[1..]);
        rest.(bad := rest.bad + 1)
      else
        var rest := Decode(s[n..]);
        rest.(cps := [Payload(s[..n])] + rest.cps)
  }

  ghost predicate AllScalar(cps: seq<CodePoint>) {
    forall i :: 0 <= i < |cps| ==> Scalar(cps[i])
  }

  /** Every byte is either part of one decoded code point or counted as bad. */
  lemma {:induction false} BytesConserved(s: seq<Byte>)
    ensures AllScalar(Decode(s).cps)
    ensures |EncodeAll(Decode(s).cps)| + Decode(s).bad == |s|
    decreases |s|
  {
    if s != [] {
      var n := Leading(s);
      if n == 0 {
        BytesConserved(s[1..]);
      } else {
        BytesConserved(s[n..]);
        WellFormedEncodes(s[..n]);
        assert Decode(s).cps[1..] == Decode(s[n..]).cps;
      }
    }
  }

  lemma DecodeStep(first: seq<Byte>, rest: seq<Byte>)
    requires WellFormed(first)
    ensures Decode(first + rest) == Decoded([Payload(first)] + Decode(rest).cps, Decode(rest).bad)
  {
    LeadingOfAppend(first, rest);
    assert (first + rest)[|first|..] == rest;
  }

  lemma DecodeEncodedStep(cp: CodePoint, rest: seq<Byte>)
    requires Scalar(cp)
    ensures Decode(Encode(cp) + rest) == Decoded([cp] + Decode(rest).cps, Decode(rest).bad)
  {
    EncodeWellFormed(cp);
    DecodeStep(Encode(cp), rest);
  }

  lemma AppendAssociates<T>(a: seq<T>, b: seq<T>, c: seq<T>)
    ensures (a + b) + c == a + (b + c)
  {}

  /** An encoded prefix decodes to its code points, whatever bytes follow it. */
  lemma {:induction false} DecodeAfterEncoded(cps: seq<CodePoint>, t: seq<Byte>)
    requires AllScalar(cps)
    ensures Decode(EncodeAll(cps) + t) == Decoded(cps + Decode(t).cps, Decode(t).bad)
    decreases |cps|
  {
    if cps == [] {
      assert EncodeAll(cps) + t == t;
      assert cps + Decode(t).cps == Decode(t).cps;
    } else {
      DecodeEncodedStep(cps[0], EncodeAll(cps[1..]) + t);
      DecodeAfterEncoded(cps[1..], t);
      AppendAssociates(Encode(cps[0]), EncodeAll(cps[1..]), t);
      AppendAssociates([cps[0]], cps[1..], Decode(t).cps);
      assert [cps[0]] + cps[1..] == cps;
    }
  }

  // ----- Resynchronisation -----

  lemma TailsFollow(s: seq<Byte>, k: nat)
    requires WellFormed(s) && 1 <= k < |s|
    ensures IsTail(s[k])
  {}

  lemma LeadIsNoTail(cp: CodePoint)
    requires Scalar(cp)
    ensures !IsTail(Encode(cp)[0])
  {
    EncodeWellFormed(cp);
  }

  lemma LeadingOfWellFormed(s: seq<Byte>, m: nat)
    requires m <= |s| && WellFormed(s[..m])
    ensures Leading(s) == m
  {
    LeadingOfAppend(s[..m], s[m..]);
    assert s == s[..m] + s[m..];
  }

  /** Bytes that begin no sequence still begin none when a sequence of its own follows them. */
  lemma StillNoSequence(s: seq<Byte>, t: seq<Byte>)
    requires s != [] && Leading(s) == 0 && (t == [] || !IsTail(t[0]))
    ensures Leading(s + t) == 0
  {
    hide Leading, WellFormed;
    var m := Leading(s + t);
    if m > |s| {
      TailsFollow((s + t)[..m], |s|);
    } else if m > 0 {
      assert (s + t)[..m] == s[..m];
      LeadingOfWellFormed(s, m);
    }
  }

  /** Whatever garbage is before it, encoded text is decoded in full: the decoder finds back at the next sequence. */
  lemma {:induction false} DecodeResynchronises(x: seq<Byte>, cps: seq<CodePoint>)
    requires AllScalar(cps)
    ensures Decode(x + EncodeAll(cps)) == Decoded(Decode(x).cps + cps, Decode(x).bad)
    decreases |x|
  {
    hide Leading, WellFormed, Encode, Payload, Scalar;
    var text := EncodeAll(cps);
    if x == [] {
      DecodeAfterEncoded(cps, []);
      assert x + text == text + [] && cps + [] == cps && [] + cps == cps;
    } else {
      var n := Leading(x);
      if n == 0 {
        if cps != [] {
          LeadIsNoTail(cps[0]);
          EncodeAllCons(cps[0], cps[1..]);
          assert [cps[0]] + cps[1..] == cps;
        }
        StillNoSequence(x, text);
        DecodeResynchronises(x[1..], cps);
        assert (x + text)[1..] == x[1..] + text;
      } else {
        LeadingOfAppend(x[..n], x[n..] + text);
        assert x + text == x[..n] + (x[n..] + text);
        assert (x + text)[n..] == x[n..] + text;
        DecodeResynchronises(x[n..], cps);
        AppendAssociates([Payload(x[..n])], Decode(x[n..]).cps, cps);
      }
    }
  }

  /** A string decodes without bad bytes exactly when it is the encoding of what it decodes to. */
  lemma {:induction false} CleanIffEncoded(s: seq<Byte>)
    ensures Decode(s).bad == 0 <==> EncodeAll(Decode(s).cps) == s
    decreases |s|
  {
    hide Leading, Payload, Encode, WellFormed, Scalar, AllScalar;
    BytesConserved(s);
    if s != [] && Decode(s).bad == 0 {
      var n := Leading(s);
      CleanIffEncoded(s[n..]);
      WellFormedEncodes(s[..n]);
      assert s == s[..n] + s[n..];
      EncodeAllCons(Payload(s[..n]), Decode(s[n..]).cps);
    }
  }

  lemma EncodeAllCons(cp: CodePoint, rest: seq<CodePoint>)
    ensures EncodeAll([cp] + rest) == Encode(cp) + EncodeAll(rest)
  {
    assert ([cp] + rest)[1..] == rest;
  }
}

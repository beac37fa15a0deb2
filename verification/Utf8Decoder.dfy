// The renderer's decoder: loops over a NUL-terminated string.
module Utf8Decoder {
  import opened Bytes
  import opened Utf8

  /** The number of bytes a first byte announces, 0 if it announces none. */
  function Announced(c: Byte): nat {
    if c < 0x80 then 1
    else if c & 0xe0 == 0xc0 then 2
    else if c & 0xf0 == 0xe0 then 3
    else if c & 0xf8 == 0xf0 then 4
    else 0
  }

  lemma AnnouncedRanges(c: Byte)
    ensures Announced(c) == 2 <==> 0xc0 <= c <= 0xdf
    ensures Announced(c) == 3 <==> 0xe0 <= c <= 0xef
    ensures Announced(c) == 4 <==> 0xf0 <= c <= 0xf7
  {}

  lemma TailBits(b: Byte)
    ensures b & 0xc0 == 0x80 <==> IsTail(b)
  {}

  /** Only a sequence of the announced length can be well formed. */
  lemma LeadingIsAnnounced(s: seq<Byte>)
    requires s != []
    ensures Leading(s) == 0 || Leading(s) == Announced(s[0])
    ensures var n := Announced(s[0]);
            Leading(s) != 0 <==> n > 0 && n <= |s| && WellFormed(s[..n])
  {
    AnnouncedRanges(s[0]);
    var n := Leading(s);
    if n > 0 {
      assert s[..n][0] == s[0];
    }
    var m := Announced(s[0]);
    if 0 < m <= |s| && WellFormed(s[..m]) {
      assert s[..1][0] == s[0];
      if m >= 2 { assert s[..2][0] == s[0]; }
      if m >= 3 { assert s[..3][0] == s[0]; }
    }
  }

  lemma TailsNeeded(s: seq<Byte>, k: nat)
    requires s != [] && 1 <= k < Announced(s[0]) <= |s| && !IsTail(s[k])
    ensures !WellFormed(s[..Announced(s[0])])
  {
    AnnouncedRanges(s[0]);
  }

  // ----- The range checks on the assembled value -----

  predicate Accepted(v: CodePoint, n: nat) {
    v >= (if n == 2 then 0x80 else if n == 3 then 0x800 else 0x1_0000) && v <= 0x10ffff && !(0xd800 <= v <= 0xdfff)
  }

  lemma Accept2(a: Byte, b: Byte)
    requires Announced(a) == 2 && IsTail(b)
    ensures Accepted(Join(Head(a, 0x1f), b), 2) <==> WellFormed([a, b])
  {}

  lemma TopIff3(a: Byte, b: Byte)
    requires Announced(a) == 3 && IsTail(b)
    ensures Top3(Join(Head(a, 0x0f), b)) <==> Second3(a, b)
    ensures Join(Head(a, 0x0f), b) <= 0x3ff
  {}

  lemma TopIff4(a: Byte, b: Byte)
    requires Announced(a) == 4 && IsTail(b)
    ensures Top4(Join(Head(a, 0x07), b)) <==> Second4(a, b)
    ensures Join(Head(a, 0x07), b) <= 0x1ff
  {}

  lemma Below16Bits(v: CodePoint)
    requires v >> 6 <= 0x3ff
    ensures v < 0x1_0000
  {}

  lemma Accept3(a: Byte, b: Byte, c: Byte)
    requires Announced(a) == 3 && IsTail(b) && IsTail(c)
    ensures Accepted(Join(Join(Head(a, 0x0f), b), c), 3) <==> WellFormed([a, b, c])
  {
    var u := Join(Head(a, 0x0f), b);
    TopIff3(a, b);
    SplitJoin(u, c);
    Below16Bits(Join(u, c));
    Bounds(Join(u, c));
  }

  lemma SplitWide(t: CodePoint, c: Byte, d: Byte)
    requires t <= 0x1ff && IsTail(c) && IsTail(d)
    ensures Join(Join(t, c), d) >> 12 == t
  {}

  lemma Accept4(a: Byte, b: Byte, c: Byte, d: Byte)
    requires Announced(a) == 4 && IsTail(b) && IsTail(c) && IsTail(d)
    ensures Accepted(Join(Join(Join(Head(a, 0x07), b), c), d), 4) <==> WellFormed([a, b, c, d])
  {
    var t := Join(Head(a, 0x07), b);
    TopIff4(a, b);
    SplitWide(t, c, d);
    Bounds(Join(Join(t, c), d));
  }

  /** The value after the first i bytes of an n-byte sequence. */
  function Assembled(s: seq<Byte>, n: nat, i: nat): CodePoint
    requires 1 <= i <= |s|
    decreases i
  {
    if i == 1 then Head(s[0], if n == 2 then 0x1f else if n == 3 then 0x0f else 0x07)
    else Join(Assembled(s, n, i - 1), s[i - 1])
  }

  lemma AssembledIsPayload(s: seq<Byte>, n: nat)
    requires 2 <= n <= 4 && n <= |s| && Announced(s[0]) == n
    requires forall k :: 1 <= k < n ==> IsTail(s[k])
    ensures Payload(s[..n]) == Assembled(s, n, n)
    ensures Accepted(Assembled(s, n, n), n) <==> WellFormed(s[..n])
  {
    if n == 2 {
      assert s[..n] == [s[0], s[1]];
      Accept2(s[0], s[1]);
    } else if n == 3 {
      assert s[..n] == [s[0], s[1], s[2]];
      Accept3(s[0], s[1], s[2]);
    } else {
      assert s[..n] == [s[0], s[1], s[2], s[3]];
      Accept4(s[0], s[1], s[2], s[3]);
    }
  }

  /** Why a sequence whose k-th byte is no continuation byte is refused. */
  lemma BrokenTail(t: seq<Byte>, k: nat)
    requires t != [] && 1 <= k < Announced(t[0]) && k < |t| && !IsTail(t[k])
    ensures Leading(t) == 0
  {
    LeadingIsAnnounced(t);
    if Announced(t[0]) <= |t| {
      TailsNeeded(t, k);
    }
  }

  /** The loop over continuation bytes; it stops at the first byte that is none, so never after a NUL. */
  method Continuations(s: seq<Byte>, p: nat, n: nat, lead: CodePoint) returns (ok: bool, v: CodePoint)
    requires p < |s| - 1 && s[|s| - 1] == 0 && Announced(s[p]) == n && 2 <= n
    requires lead == Assembled(s[p..], n, 1)
    ensures !ok ==> Leading(s[p..]) == 0
    ensures ok ==> p + n <= |s| && v == Assembled(s[p..], n, n)
    ensures ok ==> forall k :: 1 <= k < n ==> IsTail(s[p..][k])
  {
    v := lead;
    ghost var t := s[p..];
    var i := 1;
    while i < n
      invariant 1 <= i <= n && p + i <= |s|
      invariant i < n ==> p + i < |s|
      invariant forall k :: 1 <= k < i ==> IsTail(t[k])
      invariant v == Assembled(t, n, i)
    {
      TailBits(s[p + i]);
      if s[p + i] & 0xc0 != 0x80 {
        BrokenTail(t, i);
        return false, 0;
      }
      v := Extend(v, s[p + i]);
      i := i + 1;
    }
    ok := true;
  }

  method Extend(v: CodePoint, b: Byte) returns (w: CodePoint)
    ensures w == Join(v, b)
  {
    w := (v << 6) | ((b & 0x3f) as bv32);
  }

  /** Decodes the sequence at p, or returns -1 if none starts there. The terminator is never passed. */
  method Utf8Next(s: seq<Byte>, p: nat) returns (r: int, cp: CodePoint)
    requires p < |s| && s[|s| - 1] == 0
    ensures r == if Leading(s[p..]) == 0 then -1 else Leading(s[p..])
    ensures r != -1 ==> cp == Payload(s[p..p + r])
  {
    hide Leading;
    var c := s[p];
    ghost var t := s[p..];
    AnnouncedRanges(c);
    LeadingIsAnnounced(t);
    if c < 0x80 {
      assert t[..1] == s[p..p + 1];
      return 1, c as bv32;
    }
    var lead, n;
    if c & 0xe0 == 0xc0 {
      lead, n := Head(c, 0x1f), 2;
    } else if c & 0xf0 == 0xe0 {
      lead, n := Head(c, 0x0f), 3;
    } else if c & 0xf8 == 0xf0 {
      lead, n := Head(c, 0x07), 4;
    } else {
      return -1, 0;
    }
    var ok, v := Continuations(s, p, n, lead);
    if !ok {
      return -1, 0;
    }
    AssembledIsPayload(t, n);
    assert t[..n] == s[p..p + n];
    if v < (if n == 2 then 0x80 else if n == 3 then 0x800 else 0x1_0000) {
      return -1, 0;
    }
    if v > 0x10ffff {
      return -1, 0;
    }
    if v >= 0xd800 && v <= 0xdfff {
      return -1, 0;
    }
    return n, v;
  }

  // ----- The string loop -----

  /** A terminator behind the string does not change what its front decodes to. */
  lemma LeadingBeforeNul(s: seq<Byte>, tail: seq<Byte>)
    requires s != [] && tail != [] && tail[0] == 0
    ensures Leading(s + tail) == Leading(s)
    ensures Leading(s) > 0 ==> (s + tail)[..Leading(s)] == s[..Leading(s)]
  {
    LeadingIsAnnounced(s);
    LeadingIsAnnounced(s + tail);
  }

  /** A C string: a NUL at the end and nowhere else. */
  ghost predicate Terminated(text: seq<Byte>) {
    text != [] && text[|text| - 1] == 0 && 0 !in text[..|text| - 1]
  }

  /** The first p bytes have been decoded to `done` with `bad` bytes skipped. */
  ghost predicate DecodedUpTo(s: seq<Byte>, p: nat, done: seq<CodePoint>, bad: nat)
    requires p <= |s|
  {
    Decode(s) == Decoded(done + Decode(s[p..]).cps, bad + Decode(s[p..]).bad)
  }

  lemma SkipByte(s: seq<Byte>, p: nat, done: seq<CodePoint>, bad: nat)
    requires p < |s| && DecodedUpTo(s, p, done, bad) && Leading(s[p..]) == 0
    ensures DecodedUpTo(s, p + 1, done, bad + 1)
  {
    assert s[p..][1..] == s[p + 1..];
  }

  lemma TakeCodePoint(s: seq<Byte>, p: nat, done: seq<CodePoint>, bad: nat, r: nat)
    requires p < |s| && DecodedUpTo(s, p, done, bad) && r == Leading(s[p..]) > 0
    ensures DecodedUpTo(s, p + r, done + [Payload(s[p..][..r])], bad)
  {
    assert s[p..][r..] == s[p + r..];
    AppendAssociates(done, [Payload(s[p..][..r])], Decode(s[p + r..]).cps);
  }

  lemma DecodedAtStart(s: seq<Byte>)
    ensures DecodedUpTo(s, 0, [], 0)
  {
    assert s[0..] == s && [] + Decode(s).cps == Decode(s).cps;
  }

  lemma DecodedAtEnd(s: seq<Byte>, p: nat, done: seq<CodePoint>, bad: nat)
    requires p == |s| && DecodedUpTo(s, p, done, bad)
    ensures Decode(s) == Decoded(done, bad)
  {
    assert s[p..] == [] && done + [] == done;
  }

  /** One round of the string loop: what Utf8Next sees at p is what the string holds there. */
  method NextOf(text: seq<Byte>, p: nat) returns (r: int, cp: CodePoint)
    requires Terminated(text) && p < |text| - 1
    ensures var s := text[..|text| - 1][p..];
            && r == (if Leading(s) == 0 then -1 else Leading(s))
            && (r != -1 ==> p + r < |text| && cp == Payload(s[..r]))
  {
    r, cp := Utf8Next(text, p);
    ghost var s := text[..|text| - 1][p..];
    assert text[p..] == s + [0];
    LeadingBeforeNul(s, [0]);
    assert r > 0 ==> text[p..][..r] == text[p..p + r];
  }

  method StoreBelow(out: array<CodePoint>, outMax: nat, n: nat, cp: CodePoint)
    requires outMax <= out.Length
    modifies out
    ensures forall i :: 0 <= i < out.Length ==> out[i] == if i == n < outMax then cp else old(out[i])
  {
    if n < outMax {
      out[n] := cp;
    }
  }

  /** Decodes the whole string; code points beyond outMax are counted but not stored. */
  method DecodeUtf8(text: seq<Byte>, out: array<CodePoint>, outMax: nat) returns (n: nat, bad: nat)
    requires Terminated(text) && outMax <= out.Length
    modifies out
    ensures Decode(text[..|text| - 1]).bad == bad && |Decode(text[..|text| - 1]).cps| == n
    ensures forall i :: 0 <= i < n && i < outMax ==> out[i] == Decode(text[..|text| - 1]).cps[i]
    ensures forall i :: 0 <= i < out.Length && (n <= i || outMax <= i) ==> out[i] == old(out[i])
  {
    ghost var s := text[..|text| - 1];
    ghost var done: seq<CodePoint> := [];
    var p := 0;
    n, bad := 0, 0;
    DecodedAtStart(s);
    hide DecodedUpTo, Decode, Leading, Payload;
    while text[p] != 0
      invariant 0 <= p < |text| && n == |done|
      invariant DecodedUpTo(s, p, done, bad)
      invariant forall i :: 0 <= i < n && i < outMax ==> out[i] == done[i]
      invariant forall i :: 0 <= i < out.Length && (n <= i || outMax <= i) ==> out[i] == old(out[i])
      decreases |text| - p
    {
      var r, cp := NextOf(text, p);
      if r < 0 {
        SkipByte(s, p, done, bad);
        bad := bad + 1;
        p := p + 1;
      } else {
        TakeCodePoint(s, p, done, bad, r);
        StoreBelow(out, outMax, n, cp);
        done := done + [cp];
        n := n + 1;
        p := p + r;
      }
    }
    DecodedAtEnd(s, p, done, bad);
  }
}

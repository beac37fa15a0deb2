// Repeated steps, left folds and the checksums built from them, over an
// arbitrary register type: no proof here looks inside 32-bit arithmetic.
module Iteration {
  function Iterate<T>(f: T -> T, x: T, n: nat): T
    decreases n
  {
    if n == 0 then x else Iterate(f, f(x), n - 1)
  }

  function Fold<S, E>(f: (S, E) -> S, s: S, data: seq<E>): S
    decreases |data|
  {
    if data == [] then s else Fold(f, f(s, data[0]), data[1..])
  }

  /** A shift-register checksum: add the element, then take `bits` steps. */
  datatype Register<!T, !E> = Register(step: T -> T, add: (T, T) -> T, embed: E -> T, bits: nat) {
    function Absorb(s: T, e: E): T {
      Iterate(step, add(s, embed(e)), bits)
    }
  }

  ghost predicate Linear<T(!new)>(f: T -> T, add: (T, T) -> T) {
    forall x, y :: f(add(x, y)) == add(f(x), f(y))
  }

  ghost predicate Injective<S(!new), T>(f: S -> T) {
    forall a, b :: f(a) == f(b) ==> a == b
  }

  ghost predicate Cancels<T(!new)>(add: (T, T) -> T) {
    forall a, b, e :: add(a, e) == add(b, e) || add(e, a) == add(e, b) ==> a == b
  }

  /** Each element of the data moves different states to different states. */
  ghost predicate KeepsApart<S(!new), E(!new)>(f: (S, E) -> S) {
    forall a, b, e :: f(a, e) == f(b, e) ==> a == b
  }

  /** Different windows of `width` elements move any state to different states. */
  ghost predicate WindowsSeparate<S(!new), E(!new)>(f: (S, E) -> S, width: nat) {
    forall s, u, v | |u| == |v| == width :: Fold(f, s, u) == Fold(f, s, v) ==> u == v
  }

  // ----- Iteration -----

  lemma {:induction false} IterateInjective<T(!new)>(f: T -> T, a: T, b: T, n: nat)
    requires Injective(f)
    requires Iterate(f, a, n) == Iterate(f, b, n)
    ensures a == b
    decreases n
  {
    if n > 0 {
      IterateInjective(f, f(a), f(b), n - 1);
    }
  }

  // ----- Folds -----

  lemma {:induction false} FoldAppend<S, E>(f: (S, E) -> S, s: S, x: seq<E>, y: seq<E>)
    ensures Fold(f, s, x + y) == Fold(f, Fold(f, s, x), y)
    decreases |x|
  {
    if x == [] {
      assert x + y == y;
    } else {
      assert (x + y)[1..] == x[1..] + y;
      FoldAppend(f, f(s, x[0]), x[1..], y);
    }
  }

  /** A fold that passes through known states. */
  lemma {:induction false} FoldAlong<S, E>(f: (S, E) -> S, states: seq<S>, data: seq<E>)
    requires |states| == |data| + 1 && forall i | 0 <= i < |data| :: f(states[i], data[i]) == states[i + 1]
    ensures Fold(f, states[0], data) == states[|data|]
    decreases |data|
  {
    if data != [] {
      FoldAlong(f, states[1..], data[1..]);
    }
  }

  /** A wrong state is never repaired by equal data after it. */
  lemma {:induction false} FoldInjective<S(!new), E(!new)>(f: (S, E) -> S, a: S, b: S, data: seq<E>)
    requires KeepsApart(f)
    requires Fold(f, a, data) == Fold(f, b, data)
    ensures a == b
    decreases |data|
  {
    if data != [] {
      FoldInjective(f, f(a, data[0]), f(b, data[0]), data[1..]);
    }
  }

  /** x and y have the same length and differ at most in the `width` elements from k on. */
  ghost predicate DifferOnlyIn<E>(x: seq<E>, y: seq<E>, k: nat, width: nat) {
    |x| == |y| && forall i :: 0 <= i < |x| && !(k <= i < k + width) ==> x[i] == y[i]
  }

  lemma WindowDetected<S(!new), E(!new)>(f: (S, E) -> S, s: S, x: seq<E>, y: seq<E>, k: nat, width: nat)
    requires KeepsApart(f) && WindowsSeparate(f, width)
    requires DifferOnlyIn(x, y, k, width) && k + width <= |x|
    requires Fold(f, s, x) == Fold(f, s, y)
    ensures x == y
  {
    var u, v, tail := x[k..k + width], y[k..k + width], x[k + width..];
    assert x == (x[..k] + u) + tail;
    assert y == (x[..k] + v) + tail;
    FoldAppend(f, s, x[..k] + u, tail);
    FoldAppend(f, s, x[..k] + v, tail);
    FoldAppend(f, s, x[..k], u);
    FoldAppend(f, s, x[..k], v);
    var t := Fold(f, s, x[..k]);
    FoldInjective(f, Fold(f, t, u), Fold(f, t, v), tail);
  }

  /** Padding with equal elements makes room for a window that would stick out at the end. */
  lemma BurstDetected<S(!new), E(!new)>(f: (S, E) -> S, s: S, x: seq<E>, y: seq<E>, k: nat, pad: seq<E>)
    requires KeepsApart(f) && WindowsSeparate(f, |pad|)
    requires DifferOnlyIn(x, y, k, |pad|)
    requires Fold(f, s, x) == Fold(f, s, y)
    ensures x == y
  {
    FoldAppend(f, s, x, pad);
    FoldAppend(f, s, y, pad);
    var j := if k <= |x| then k else |x|;
    assert DifferOnlyIn(x + pad, y + pad, j, |pad|);
    WindowDetected(f, s, x + pad, y + pad, j, |pad|);
    assert x == (x + pad)[..|x|] && y == (y + pad)[..|x|];
  }

  // ----- Shift registers -----

  lemma AbsorbKeepsApart<T(!new), E(!new)>(r: Register<T, E>)
    requires Injective(r.step) && Cancels(r.add)
    ensures KeepsApart(r.Absorb)
  {
    forall a, b, e | r.Absorb(a, e) == r.Absorb(b, e) ensures a == b {
      IterateInjective(r.step, r.add(a, r.embed(e)), r.add(b, r.embed(e)), r.bits);
    }
  }

  // ----- Many elements at once -----

  /** How elements are packed into one word: `up` makes room for one more below, `narrow(x, n)` says x holds n of them. */
  datatype Packing<!T> = Packing(zero: T, up: T -> T, narrow: (T, nat) -> bool)

  ghost predicate Associates<T(!new)>(add: (T, T) -> T, zero: T) {
    (forall a, b, c :: add(add(a, b), c) == add(a, add(b, c))) && (forall a :: add(a, zero) == a)
  }

  /** Up to `width` elements can be packed, one step brings all but the lowest down one place, and none is lost. */
  ghost predicate Packs<T(!new), E(!new)>(r: Register<T, E>, p: Packing<T>, width: nat) {
    && r.bits == 1 && Associates(r.add, p.zero) && p.narrow(p.zero, 0)
    && (forall x, n: nat | n < width && p.narrow(x, n) :: r.step(p.up(x)) == x)
    && (forall x, e, n: nat | n < width && p.narrow(x, n) :: p.narrow(r.add(r.embed(e), p.up(x)), n + 1))
    && (forall x, e, x', e', n: nat | n < width && p.narrow(x, n) && p.narrow(x', n) ::
          r.add(r.embed(e), p.up(x)) == r.add(r.embed(e'), p.up(x')) ==> x == x' && e == e')
  }

  /** The elements as one word, the first one lowest. */
  function Pack<T, E>(r: Register<T, E>, p: Packing<T>, data: seq<E>): T
    decreases |data|
  {
    if data == [] then p.zero else r.add(r.embed(data[0]), p.up(Pack(r, p, data[1..])))
  }

  lemma {:induction false} PackIsNarrow<T(!new), E(!new)>(r: Register<T, E>, p: Packing<T>, width: nat, data: seq<E>)
    requires Packs(r, p, width) && |data| <= width
    ensures p.narrow(Pack(r, p, data), |data|)
    decreases |data|
  {
    if data != [] {
      PackIsNarrow(r, p, width, data[1..]);
    }
  }

  lemma {:induction false} PackInjective<T(!new), E(!new)>(r: Register<T, E>, p: Packing<T>, width: nat, u: seq<E>,
                                                           v: seq<E>)
    requires Packs(r, p, width) && |u| == |v| <= width && Pack(r, p, u) == Pack(r, p, v)
    ensures u == v
    decreases |u|
  {
    if u != [] {
      PackIsNarrow(r, p, width, u[1..]);
      PackIsNarrow(r, p, width, v[1..]);
      PackInjective(r, p, width, u[1..], v[1..]);
    }
  }

  /** Elements behind others are packed above them. */
  lemma {:induction false} PackAppend<T(!new), E(!new)>(r: Register<T, E>, p: Packing<T>, u: seq<E>, v: seq<E>)
    requires Associates(r.add, p.zero) && Linear(p.up, r.add) && forall x :: r.add(p.zero, x) == x
    ensures Pack(r, p, u + v) == r.add(Pack(r, p, u), Iterate(p.up, Pack(r, p, v), |u|))
    decreases |u|
  {
    if u == [] {
      assert u + v == v;
    } else {
      assert (u + v)[1..] == u[1..] + v;
      PackAppend(r, p, u[1..], v);
      IterateLast(p.up, Pack(r, p, v), |u| - 1);
    }
  }

  lemma {:induction false} IterateLast<T>(f: T -> T, x: T, n: nat)
    ensures f(Iterate(f, x, n)) == Iterate(f, x, n + 1)
    decreases n
  {
    if n > 0 {
      IterateLast(f, f(x), n - 1);
    }
  }

  /** An element that arrives after a step may arrive before it, one place up. */
  lemma AbsorbEarly<T(!new), E(!new)>(r: Register<T, E>, p: Packing<T>, width: nat, s: T, e: E, x: T, n: nat)
    requires Linear(r.step, r.add) && Packs(r, p, width) && n < width && p.narrow(x, n)
    ensures r.add(r.Absorb(s, e), x) == r.step(r.add(s, r.add(r.embed(e), p.up(x))))
  {
    assert r.Absorb(s, e) == r.step(r.add(s, r.embed(e)));
    assert r.add(r.step(r.add(s, r.embed(e))), r.step(p.up(x))) == r.step(r.add(r.add(s, r.embed(e)), p.up(x)));
  }

  /** Absorbing elements one by one is adding all of them at once, and then a step for each. */
  lemma {:induction false} AbsorbAtOnce<T(!new), E(!new)>(r: Register<T, E>, p: Packing<T>, width: nat, s: T, data: seq<E>)
    requires Linear(r.step, r.add) && Packs(r, p, width) && |data| <= width
    ensures Fold(r.Absorb, s, data) == Iterate(r.step, r.add(s, Pack(r, p, data)), |data|)
    decreases |data|
  {
    if data != [] {
      var rest := data[1..];
      PackIsNarrow(r, p, width, rest);
      AbsorbEarly(r, p, width, s, data[0], Pack(r, p, rest), |rest|);
      AbsorbAtOnce(r, p, width, r.Absorb(s, data[0]), rest);
    }
  }

  lemma PackedWindowsSeparate<T(!new), E(!new)>(r: Register<T, E>, p: Packing<T>, width: nat)
    requires Linear(r.step, r.add) && Injective(r.step) && Cancels(r.add) && Packs(r, p, width)
    ensures WindowsSeparate(r.Absorb, width)
  {
    forall s, u, v | |u| == |v| == width && Fold(r.Absorb, s, u) == Fold(r.Absorb, s, v) ensures u == v {
      AbsorbAtOnce(r, p, width, s, u);
      AbsorbAtOnce(r, p, width, s, v);
      IterateInjective(r.step, r.add(s, Pack(r, p, u)), r.add(s, Pack(r, p, v)), width);
      PackInjective(r, p, width, u, v);
    }
  }
}

/** Byte strings and little-endian numbers. */
module Bytes {
  import opened Basics
  type byte = x: int | 0 <= x < 256
  type bytes = seq<byte>


  /** Conversion of an integer to an unsigned 32-bit number. */
  function U32(x: int): nat { x % TWO32 }

  lemma {:induction false} U32Small(x: int)
    requires 0 <= x < TWO32
    ensures U32(x) == x
  {
  }

  function U64(x: int): nat { x % TWO64 }

  /** The signed reading of a 64-bit pattern. */
  function S64(x: nat): int { if x < TWO63 then x else x - TWO64 }

  lemma {:induction false} SignedUnsigned(x: int)
    requires -TWO63 <= x < TWO63
    ensures S64(U64(x)) == x
  {
    if x < 0 { assert U64(x) == x + TWO64; } else { assert U64(x) == x; }
  }

  ghost function Pow256(k: nat): (p: nat)
    ensures p >= 1
  {
    if k == 0 then 1 else 256 * Pow256(k - 1)
  }

  lemma {:induction false} Powers()
    ensures Pow256(2) == 0x1_0000 && Pow256(4) == TWO32 && Pow256(8) == TWO64
  {
    assert Pow256(2) == 256 * (256 * Pow256(0));
    assert Pow256(4) == 256 * (256 * Pow256(2));
    assert Pow256(8) == 256 * (256 * (256 * (256 * Pow256(4))));
  }

  /** The `k` low bytes of a number, lowest first. */
  function LE(x: nat, k: nat): (s: bytes)
    ensures |s| == k
  {
    if k == 0 then [] else [x % 256] + LE(x / 256, k - 1)
  }

  function FromLE(s: bytes): nat { if s == [] then 0 else s[0] + 256 * FromLE(s[1..]) }

  lemma {:induction false} Pow256Sum(a: nat, b: nat)
    ensures Pow256(a + b) == Pow256(a) * Pow256(b)
  {
    if a > 0 { Pow256Sum(a - 1, b); }
  }

  /** Byte `i` is the digit of weight 256 to the `i`. */
  lemma {:induction false} LEByte(x: nat, k: nat, i: nat)
    requires i < k
    ensures LE(x, k)[i] == x / Pow256(i) % 256
  {
    if i > 0 {
      LEByte(x / 256, k - 1, i - 1);
      DivTwice(x, 256, Pow256(i - 1));
    }
  }

  lemma {:induction false} DivTwice(x: nat, p: nat, q: nat)
    requires p > 0 && q > 0
    ensures x / p / q == x / (p * q)
  {
    var y := x / p;
    var d, r := y / q, y % q;
    assert y == d * q + r && x == y * p + x % p;
    assert x == d * (p * q) + (r * p + x % p) by { assert y * p == d * (p * q) + r * p; }
    MulLess(r, q, p);
    DivIs(x, p * q, d);
  }

  lemma {:induction false} FromLEOfLE(x: nat, k: nat)
    requires x < Pow256(k)
    ensures FromLE(LE(x, k)) == x
  {
    if k > 0 {
      FromLEOfLE(x / 256, k - 1);
      assert LE(x, k)[1..] == LE(x / 256, k - 1);
    }
  }

  lemma {:induction false} LEOfFromLE(s: bytes)
    ensures FromLE(s) < Pow256(|s|) && LE(FromLE(s), |s|) == s
  {
    if s != [] {
      LEOfFromLE(s[1..]);
      assert FromLE(s) % 256 == s[0] && FromLE(s) / 256 == FromLE(s[1..]);
    }
  }

  /** A number at the front of a string, and what follows it; a string that is too short
      reads as zero. */
  function TakeLE(s: bytes, k: nat): (r: (nat, bytes)) {
    if |s| < k then (0, []) else (FromLE(s[..k]), s[k..])
  }

  lemma {:induction false} TakeLEOfLE(x: nat, k: nat, rest: bytes)
    requires x < Pow256(k)
    ensures TakeLE(LE(x, k) + rest, k) == (x, rest)
  {
    FromLEOfLE(x, k);
    assert (LE(x, k) + rest)[..k] == LE(x, k) && (LE(x, k) + rest)[k..] == rest;
  }

  /** Numbers of given widths, one after the other. */
  function Pack(vs: seq<nat>, ws: seq<nat>): bytes
    requires |vs| == |ws|
  {
    if vs == [] then [] else LE(vs[0], ws[0]) + Pack(vs[1..], ws[1..])
  }

  function Unpack(s: bytes, ws: seq<nat>): (vs: seq<nat>)
    ensures |vs| == |ws|
    decreases |ws|
  {
    if ws == [] then [] else
      var (v, rest) := TakeLE(s, ws[0]);
      [v] + Unpack(rest, ws[1..])
  }

  function Sum(ws: seq<nat>): nat { if ws == [] then 0 else ws[0] + Sum(ws[1..]) }

  lemma {:induction false} PackLength(vs: seq<nat>, ws: seq<nat>)
    requires |vs| == |ws|
    ensures |Pack(vs, ws)| == Sum(ws)
  {
    if vs != [] { PackLength(vs[1..], ws[1..]); }
  }

  lemma {:induction false} UnpackOfPack(vs: seq<nat>, ws: seq<nat>)
    requires |vs| == |ws| && forall i :: 0 <= i < |vs| ==> vs[i] < Pow256(ws[i])
    ensures Unpack(Pack(vs, ws), ws) == vs
  {
    if vs != [] {
      TakeLEOfLE(vs[0], ws[0], Pack(vs[1..], ws[1..]));
      UnpackOfPack(vs[1..], ws[1..]);
    }
  }

  lemma {:induction false} SliceOfFront<T>(a: seq<T>, b: seq<T>, i: nat, n: nat)
    requires i + n <= |a|
    ensures (a + b)[i..][..n] == a[i..][..n]
  {
  }

  /** What `f` makes of each element, one after the other. */
  function FlatMap<A, B>(f: A -> seq<B>, xs: seq<A>): seq<B> {
    if xs == [] then [] else FlatMap(f, xs[..|xs| - 1]) + f(xs[|xs| - 1])
  }

  lemma {:induction false} FlatMapSnoc<A, B>(f: A -> seq<B>, xs: seq<A>, x: A)
    ensures FlatMap(f, xs + [x]) == FlatMap(f, xs) + f(x)
  {
    assert (xs + [x])[..|xs|] == xs;
  }

  lemma {:induction false} FlatMapAppend<A, B>(f: A -> seq<B>, xs: seq<A>, ys: seq<A>)
    ensures FlatMap(f, xs + ys) == FlatMap(f, xs) + FlatMap(f, ys)
  {
    if ys == [] {
      assert xs + ys == xs;
    } else {
      var k := |ys| - 1;
      FlatMapAppend(f, xs, ys[..k]);
      assert xs + ys == (xs + ys[..k]) + [ys[k]];
      FlatMapSnoc(f, xs + ys[..k], ys[k]);
      ConcatAssoc(FlatMap(f, xs), FlatMap(f, ys[..k]), f(ys[k]));
    }
  }

  /** The part made of element `i` sits right after the parts of the elements before it. */
  lemma {:induction false} FlatMapAt<A, B>(f: A -> seq<B>, xs: seq<A>, i: nat)
    requires i < |xs|
    ensures FlatMap(f, xs[..i + 1]) == FlatMap(f, xs[..i]) + f(xs[i])
    ensures |FlatMap(f, xs[..i])| + |f(xs[i])| <= |FlatMap(f, xs)|
    ensures FlatMap(f, xs)[|FlatMap(f, xs[..i])|..][..|f(xs[i])|] == f(xs[i])
    decreases |xs|
  {
    var k := |xs| - 1;
    assert xs[..i + 1] == xs[..i] + [xs[i]];
    FlatMapSnoc(f, xs[..i], xs[i]);
    if i < k {
      var front := xs[..k];
      FlatMapAt(f, front, i);
      assert front[..i] == xs[..i];
      SliceOfFront(FlatMap(f, front), f(xs[k]), |FlatMap(f, xs[..i])|, |f(xs[i])|);
    } else {
      assert FlatMap(f, xs)[|FlatMap(f, xs[..i])|..] == f(xs[i]);
    }
  }
}

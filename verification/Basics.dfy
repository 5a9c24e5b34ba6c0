/** Small definitions that several modules share. */
module Basics {

  datatype Option<+T> = None | Some(value: T)

  const TWO31: int := 0x8000_0000
  const TWO32: int := 0x1_0000_0000
  const TWO63: int := 0x8000_0000_0000_0000
  const TWO64: int := 0x1_0000_0000_0000_0000
  const TWO128: int := 0x1_0000_0000_0000_0000_0000_0000_0000_0000

  function Least(a: nat, b: nat): nat { if a < b then a else b }

  function Bit(b: bool): nat { if b then 1 else 0 }

  lemma {:induction false} ConcatAssoc<T>(a: seq<T>, b: seq<T>, c: seq<T>)
    ensures a + b + c == a + (b + c)
  {
  }

  lemma {:induction false} SmallMod(x: nat, m: nat)
    requires x < m
    ensures x % m == x
  {
  }

  lemma {:induction false} MulLess(a: int, b: int, m: nat)
    requires a < b
    ensures a * m + m <= b * m
  {
    assert (b - a - 1) * m >= 0;
  }

  /** The quotient is the one number that fits. */
  lemma {:induction false} DivIs(x: int, m: nat, d: int)
    requires d * m <= x < d * m + m
    ensures x / m == d && x % m == x - d * m
  {
    var e := x / m;
    assert x == e * m + x % m;
    if e < d { MulLess(e, d, m); }
    if d < e { MulLess(d, e, m); }
  }

  // ----- powers of two

  function Pow2(k: nat): (p: nat)
    ensures p >= 1
  {
    if k == 0 then 1 else 2 * Pow2(k - 1)
  }

  lemma {:induction false} Pow2Sum(a: nat, b: nat)
    ensures Pow2(a + b) == Pow2(a) * Pow2(b)
  {
    if a > 0 { Pow2Sum(a - 1, b); }
  }

  lemma {:induction false} Pow2Double(k: nat, p: nat)
    requires Pow2(k) == p
    ensures Pow2(k + k) == p * p
  {
    Pow2Sum(k, k);
  }

  lemma {:induction false} Pow2s()
    ensures Pow2(32) == TWO32 && Pow2(64) == TWO64 && Pow2(128) == TWO128
  {
    assert Pow2(2) == 2 * Pow2(1) == 4;
    Pow2Double(2, 4);
    Pow2Double(4, 16);
    Pow2Double(8, 256);
    Pow2Double(16, 0x1_0000);
    Pow2Double(32, TWO32);
    Pow2Double(64, TWO64);
  }

  lemma {:induction false} Pow2Monotone(a: nat, b: nat)
    requires a <= b
    ensures Pow2(a) <= Pow2(b)
  {
    if a < b { Pow2Monotone(a, b - 1); }
  }
}

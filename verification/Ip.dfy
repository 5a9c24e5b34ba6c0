/** Address arithmetic of internal/ipam/ipv4.go and ipv6.go.  An address is its number in
    network order; IPv6 operations work on two 64-bit halves with carry and borrow. */
module Ip {
  import opened Basics

  datatype Family = V4 | V6

  function Width(f: Family): nat { if f.V4? then 32 else 128 }

  function Space(f: Family): nat { if f.V4? then TWO32 else TWO128 }

  // ----- words

  /** Bitwise and. */
  function And(a: nat, b: nat): nat {
    if a == 0 || b == 0 then 0 else (if a % 2 == 1 && b % 2 == 1 then 1 else 0) + 2 * And(a / 2, b / 2)
  }

  /** A word of `w` bits shifted left; bits shifted out are lost. */
  function Shl(x: nat, k: nat, w: nat): nat { if k >= w then 0 else x * Pow2(k) % Pow2(w) }

  /** The largest multiple of `k` not above `a`. */
  function Floor(a: nat, k: nat): (r: nat)
    requires k > 0
    ensures r <= a < r + k
  {
    a - a % k
  }

  lemma {:induction false} FloorIs(a: nat, k: nat, q: nat)
    requires k > 0 && q * k <= a < q * k + k
    ensures Floor(a, k) == q * k
  {
    assert a == q * k + (a - q * k);
    DivUnique(a, k, q);
  }

  lemma {:induction false} DivUnique(a: nat, k: nat, q: nat)
    requires k > 0 && q * k <= a < q * k + k
    ensures a / k == q && a % k == a - q * k
  {
    var d := a / k;
    assert a == d * k + a % k;
    MulMonotone(d + 1, q, k);
    MulMonotone(q + 1, d, k);
  }

  lemma {:induction false} MulMonotone(a: nat, b: nat, k: nat)
    ensures a <= b ==> a * k <= b * k
  {
    if a <= b { assert (b - a) * k >= 0; }
  }

  // ----- masks

  lemma {:induction false} AndOnes(a: nat, w: nat)
    requires a < Pow2(w)
    ensures And(a, Pow2(w) - 1) == a
  {
    if a > 0 {
      AndOnes(a / 2, w - 1);
      assert (Pow2(w) - 1) / 2 == Pow2(w - 1) - 1;
    }
  }

  /** Masking all but the `k` low bits rounds down. */
  lemma {:induction false} AndMask(a: nat, w: nat, k: nat)
    requires a < Pow2(w) && k <= w
    ensures Pow2(k) <= Pow2(w) && And(a, Pow2(w) - Pow2(k)) == Floor(a, Pow2(k))
    decreases k
  {
    Pow2Monotone(k, w);
    if k == 0 {
      AndOnes(a, w);
    } else {
      var p, q := Pow2(w - 1), Pow2(k - 1);
      assert Pow2(w) == 2 * p && Pow2(k) == 2 * q && a / 2 < p;
      AndMask(a / 2, w - 1, k - 1);
      HalfMask(a, p, q);
    }
  }

  lemma {:induction false} HalfMask(a: nat, p: nat, q: nat)
    requires 0 < q <= p && And(a / 2, p - q) == Floor(a / 2, q)
    ensures And(a, 2 * p - 2 * q) == Floor(a, 2 * q)
  {
    var m := 2 * p - 2 * q;
    assert m % 2 == 0 && m / 2 == p - q;
    assert And(a, m) == 2 * And(a / 2, p - q);
    FloorHalf(a, q);
  }

  lemma {:induction false} FloorHalf(a: nat, q: nat)
    requires q > 0
    ensures Floor(a, 2 * q) == 2 * Floor(a / 2, q)
  {
    var h := a / 2;
    var d := h / q;
    assert h == d * q + h % q;
    assert d * (2 * q) == 2 * (d * q);
    FloorIs(a, 2 * q, d);
    FloorIs(h, q, d);
  }

  lemma {:induction false} ShlOnes(w: nat, k: nat)
    requires k <= w
    ensures Pow2(k) <= Pow2(w) && Shl(Pow2(w) - 1, k, w) == Pow2(w) - Pow2(k)
  {
    Pow2Monotone(k, w);
    if k < w {
      var p, q := Pow2(w), Pow2(k);
      Pow2Monotone(k, w - 1);
      OnesTimes(p, q);
    }
  }

  lemma {:induction false} OnesTimes(p: nat, q: nat)
    requires 0 < q < p
    ensures (p - 1) * q % p == p - q
  {
    var x := (p - 1) * q;
    assert x == p * q - q;
    assert (q - 1) * p == p * q - p;
    DivUnique(x, p, q - 1);
  }

  // ----- addresses

  function Hi(a: nat): nat { a / TWO64 }

  function Lo(a: nat): nat { a % TWO64 }

  function Join(hi: nat, lo: nat): nat { hi * TWO64 + lo }

  lemma {:induction false} Halves(hi: nat, lo: nat)
    requires lo < TWO64
    ensures Hi(Join(hi, lo)) == hi && Lo(Join(hi, lo)) == lo
  {
    DivUnique(Join(hi, lo), TWO64, hi);
  }

  /** A count of bits as an unsigned word. */
  function Unsigned(x: int): nat { x % TWO64 }

  function Mask4(n: int): nat { Shl(TWO32 - 1, Unsigned(32 - n), 32) }

  function Mask6(n: int): nat {
    if n < 64 then Join(Shl(TWO64 - 1, Unsigned(64 - n), 64), 0)
    else Join(TWO64 - 1, Shl(TWO64 - 1, Unsigned(64 - (n - 64)), 64))
  }

  function Mask(f: Family, n: int): nat { if f.V4? then Mask4(n) else Mask6(n) }

  function Prefix(f: Family, a: nat, mask: nat): nat {
    if f.V4? then And(a, mask) else Join(And(Hi(a), Hi(mask)), And(Lo(a), Lo(mask)))
  }

  /** The address `n` places further. */
  function Add(f: Family, a: nat, n: nat): nat {
    if f.V4? then (a + n % TWO32) % TWO32
    else
      var sum := Lo(a) + n % TWO64;
      Join((Hi(a) + sum / TWO64) % TWO64, sum % TWO64)
  }

  /** The distance between two addresses; for IPv6, the borrow of the high halves goes into
      the difference of the low halves. */
  function Sub(f: Family, a: nat, b: nat): nat {
    if f.V4? then (a - b) % TWO32
    else
      var borrow := if Hi(a) < Hi(b) then 1 else 0;
      (Lo(a) - Lo(b) - borrow) % TWO64
  }

  /** Size of the networks with a given prefix length. */
  function NetSize(f: Family, n: nat): (r: nat)
    requires n <= Width(f)
    ensures r > 0
  {
    Pow2(Width(f) - n)
  }

  lemma {:induction false} UnsignedSmall(x: nat)
    requires x < TWO64
    ensures Unsigned(x) == x
  {
  }

  lemma {:induction false} MaskWord(w: nat, k: nat, space: nat)
    requires k <= w && space == Pow2(w)
    ensures Pow2(k) <= space && Shl(space - 1, k, w) == space - Pow2(k)
  {
    ShlOnes(w, k);
  }

  lemma {:induction false} Pow2At32() ensures Pow2(32) == TWO32 { Pow2s(); }

  lemma {:induction false} Pow2At64() ensures Pow2(64) == TWO64 { Pow2s(); }

  lemma {:induction false} Mask4Is(n: nat)
    requires n <= 32
    ensures Pow2(32 - n) <= TWO32 == Pow2(32) && Mask4(n) == TWO32 - Pow2(32 - n)
  {
    Pow2At32();
    UnsignedSmall(32 - n);
    MaskWord(32, 32 - n, TWO32);
  }

  lemma {:induction false} Mask6Short(n: nat)
    requires n < 64
    ensures Pow2(64) == TWO64 && Pow2(64 - n) <= TWO64 && Hi(Mask6(n)) == TWO64 - Pow2(64 - n) && Lo(Mask6(n)) == 0
  {
    Pow2At64();
    UnsignedSmall(64 - n);
    MaskWord(64, 64 - n, TWO64);
    Halves(TWO64 - Pow2(64 - n), 0);
  }

  lemma {:induction false} Mask6Long(n: nat)
    requires 64 <= n <= 128
    ensures Pow2(64) == TWO64 && Pow2(128 - n) <= TWO64 && Hi(Mask6(n)) == TWO64 - 1 && Lo(Mask6(n)) == TWO64 - Pow2(128 - n)
  {
    Pow2At64();
    UnsignedSmall(64 - (n - 64));
    MaskWord(64, 128 - n, TWO64);
    Halves(TWO64 - 1, TWO64 - Pow2(128 - n));
  }

  lemma {:induction false} Prefix4Is(a: nat, n: nat)
    requires a < TWO32 && n <= 32
    ensures And(a, Mask4(n)) == Floor(a, Pow2(32 - n))
  {
    Mask4Is(n);
    AndMask(a, 32, 32 - n);
  }

  lemma {:induction false} AndZero(a: nat)
    ensures And(a, 0) == 0
  {
  }

  /** The low half of an address does not matter to a short prefix. */
  lemma {:induction false} FloorHigh(hi: nat, lo: nat, k: nat)
    requires k > 0 && lo < TWO64
    ensures Floor(Join(hi, lo), k * TWO64) == Join(Floor(hi, k), 0)
  {
    var d := hi / k;
    assert hi == d * k + hi % k;
    FloorIs(hi, k, d);
    assert (hi % k) * TWO64 + lo < k * TWO64 by { MulMonotone(hi % k + 1, k, TWO64); }
    assert Join(hi, lo) == d * (k * TWO64) + ((hi % k) * TWO64 + lo);
    FloorIs(Join(hi, lo), k * TWO64, d);
    assert d * (k * TWO64) == (d * k) * TWO64;
  }

  /** The high half of an address does not change under a long prefix. */
  lemma {:induction false} FloorLow(hi: nat, lo: nat, k: nat, m: nat)
    requires k > 0 && k * m == TWO64 && lo < TWO64
    ensures Floor(Join(hi, lo), k) == Join(hi, Floor(lo, k))
  {
    var d := lo / k;
    assert lo == d * k + lo % k;
    FloorIs(lo, k, d);
    assert hi * TWO64 == (hi * m) * k;
    assert (hi * m + d) * k == hi * TWO64 + d * k;
    FloorIs(Join(hi, lo), k, hi * m + d);
  }

  lemma {:induction false} InHalves(a: nat)
    requires a < TWO128
    ensures Hi(a) < TWO64 && Lo(a) < TWO64 && a == Join(Hi(a), Lo(a))
  {
  }

  lemma {:induction false} Prefix6Short(a: nat, n: nat)
    requires a < TWO128 && n < 64
    ensures Prefix(V6, a, Mask6(n)) == Floor(a, Pow2(128 - n))
  {
    var k := 64 - n;
    InHalves(a);
    Mask6Short(n);
    AndMask(Hi(a), 64, k);
    AndZero(Lo(a));
    FloorHigh(Hi(a), Lo(a), Pow2(k));
    Pow2Sum(k, 64);
  }

  lemma {:induction false} Prefix6Long(a: nat, n: nat)
    requires a < TWO128 && 64 <= n <= 128
    ensures Prefix(V6, a, Mask6(n)) == Floor(a, Pow2(128 - n))
  {
    var k := 128 - n;
    InHalves(a);
    Mask6Long(n);
    AndOnes(Hi(a), 64);
    AndMask(Lo(a), 64, k);
    Pow2Sum(k, 64 - k);
    FloorLow(Hi(a), Lo(a), Pow2(k), Pow2(64 - k));
  }

  /** The prefix of an address is the first address of its network. */
  lemma {:induction false} PrefixIs(f: Family, a: nat, n: nat)
    requires a < Space(f) && n <= Width(f)
    ensures Prefix(f, a, Mask(f, n)) == Floor(a, NetSize(f, n))
  {
    if f.V4? { Prefix4Is(a, n); } else if n < 64 { Prefix6Short(a, n); } else { Prefix6Long(a, n); }
  }

  // ----- steps from one address to another

  lemma {:induction false} CarryOnce(lo: nat, i: nat)
    requires lo < TWO64 && i < TWO64
    ensures (lo + i) / TWO64 == if lo + i < TWO64 then 0 else 1
    ensures (lo + i) % TWO64 == if lo + i < TWO64 then lo + i else lo + i - TWO64
  {
  }

  lemma {:induction false} Add6Is(a: nat, i: nat)
    requires a < TWO128 && i < TWO64 && a + i < TWO128
    ensures Add(V6, a, i) == a + i
  {
    var carry := Bit(Lo(a) + i >= TWO64);
    InHalves(a);
    CarryOnce(Lo(a), i);
    HighFits(Hi(a), Lo(a), i);
    SmallMod(i, TWO64);
    SmallMod(Hi(a) + carry, TWO64);
  }

  lemma {:induction false} HighFits(hi: nat, lo: nat, i: nat)
    requires lo < TWO64 && i < TWO64 && Join(hi, lo) + i < TWO128
    ensures hi + Bit(lo + i >= TWO64) < TWO64
  {
  }

  lemma {:induction false} AddIs(f: Family, a: nat, i: nat)
    requires a + i < Space(f) && i < TWO64
    ensures Add(f, a, i) == a + i
  {
    if f.V6? { Add6Is(a, i); }
  }

  lemma {:induction false} Sub6Is(a: nat, i: nat)
    requires a + i < TWO128 && i < TWO64
    ensures Sub(V6, a + i, a) == i
  {
    InHalves(a);
    InHalves(a + i);
    CarryOnce(Lo(a), i);
    if Lo(a) + i < TWO64 {
      Halves(Hi(a), Lo(a) + i);
    } else {
      Halves(Hi(a) + 1, Lo(a) + i - TWO64);
      assert (i - TWO64) % TWO64 == i;
    }
  }

  lemma {:induction false} SubIs(f: Family, a: nat, i: nat)
    requires a + i < Space(f) && i < TWO64
    ensures Sub(f, a + i, a) == i
  {
    if f.V6? { Sub6Is(a, i); }
  }

  /** Subtraction undoes addition, across the low half too, exactly when the addition stays
      within the address space: past its end the borrow is charged to the low half. */
  lemma {:induction false} SubUndoesAdd6(a: nat, i: nat)
    requires a < TWO128 && i < TWO64
    ensures Sub(V6, Add(V6, a, i), a) == i <==> a + i < TWO128
  {
    InHalves(a);
    CarryOnce(Lo(a), i);
    if a + i < TWO128 {
      Add6Is(a, i);
      Sub6Is(a, i);
    } else {
      assert Hi(a) == TWO64 - 1 && Lo(a) + i >= TWO64;
      var lo := Lo(a) + i - TWO64;
      assert Add(V6, a, i) == Join(0, lo);
      Halves(0, lo);
      assert Sub(V6, Add(V6, a, i), a) == (i - TWO64 - 1) % TWO64;
    }
  }

  lemma {:induction false} SubUndoesAdd4(a: nat, i: nat)
    requires a < TWO32
    ensures Sub(V4, Add(V4, a, i), a) == i <==> i < TWO32
  {
  }
}

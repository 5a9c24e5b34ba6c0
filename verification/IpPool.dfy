/** The address pools of internal/ipam/ipv4.go and ipv6.go: the bit at a place of the bit set
    says that the address that many places after the base is given out. */
module IpPool {
  import opened Basics
  import opened Bitset
  import opened Ip

  datatype State = State(family: Family, mask: nat, base: nat, addr: nat, words: seq<Word>)

  function New(f: Family, base: nat, nbits: int): State {
    State(f, Mask(f, nbits), base, Prefix(f, base, Mask(f, nbits)), [])
  }

  /** The next address and the pool without it, if one is free. */
  function Take(p: State): (State, nat, bool) {
    var i := FirstZero(p.words, 0);
    var a := Add(p.family, p.base, i);
    if Prefix(p.family, a, p.mask) != p.addr then (p, a, false) else (p.(words := Mark(p.words, i)), a, true)
  }

  function Mark(b: seq<Word>, i: nat): seq<Word> {
    GrownKeeps(b, i + 1, i);
    WithBit(Grown(b, i + 1), i, true)
  }

  /** The pool after an address is returned; None when the source panics. */
  function Give(p: State, ip: nat): Option<State> {
    var i := Sub(p.family, ip, p.base);
    if HasBit(p.words, i) then Some(p.(words := WithBit(p.words, i, false))) else None
  }

  class Pool {
    const family: Family
    var mask: nat
    var addr: nat
    var base: nat
    const bits: BitSet

    ghost function Value(): State reads this, bits, bits.words { State(family, mask, base, addr, bits.words[..]) }

    constructor (f: Family, ip: nat, nbits: int)
      ensures fresh(bits) && fresh(bits.words) && Value() == New(f, ip, nbits)
    {
      family := f;
      mask, addr, base := Mask(f, nbits), Prefix(f, ip, Mask(f, nbits)), ip;
      bits := new BitSet();
    }

    method Reset(ip: nat, nbits: int)
      modifies this, bits.words
      ensures Value() == New(family, ip, nbits).(words := seq(|old(Value()).words|, _ => ZERO))
    {
      mask := Mask(family, nbits);
      addr := Prefix(family, ip, mask);
      base := ip;
      bits.Clear();
    }

    method Get() returns (ip: nat, ok: bool)
      modifies bits, bits.words
      ensures (Value(), ip, ok) == Take(old(Value())) && (bits.words == old(bits.words) || fresh(bits.words))
    {
      var i := bits.FindFirstZeroBit();
      var a := Add(family, base, i);
      if Prefix(family, a, mask) != addr {
        return a, false;
      }
      GrownKeeps(bits.words[..], i + 1, i);
      bits.Grow(i + 1);
      bits.Set(i);
      return Add(family, base, i), true;
    }

    /** `panicked` when the address is not marked as given out. */
    method Put(ip: nat) returns (panicked: bool)
      modifies bits.words
      ensures panicked == Give(old(Value()), ip).None?
      ensures Value() == if panicked then old(Value()) else Give(old(Value()), ip).value
    {
      var i := Sub(family, ip, base);
      if i / 64 >= bits.words.Length || !bits.words[i / 64][i % 64] {
        return true;
      }
      bits.Unset(i);
      return false;
    }
  }

  // ----- which addresses are out

  predicate Out(p: State, a: int) { a >= p.base && HasBit(p.words, a - p.base) }

  function End(p: State, n: nat): nat
    requires n <= Width(p.family)
  {
    Floor(p.base, NetSize(p.family, n)) + NetSize(p.family, n)
  }

  predicate InNetwork(p: State, n: nat, a: nat)
    requires n <= Width(p.family)
  {
    a < Space(p.family) && Floor(a, NetSize(p.family, n)) == Floor(p.base, NetSize(p.family, n))
  }

  /** A pool of a network of prefix length `n`, all of whose addresses given out lie between
      its base and the end of the network. */
  ghost predicate Good(p: State, n: nat) {
    && 1 <= n <= Width(p.family) && p.base < Space(p.family)
    && Tells(p, n) && Inside(p, n)
  }

  /** Masking tells the addresses of the network from all others. */
  ghost predicate Tells(p: State, n: nat)
    requires n <= Width(p.family)
  {
    forall a: nat :: a < Space(p.family) ==> (Prefix(p.family, a, p.mask) == p.addr <==> InNetwork(p, n, a))
  }

  ghost predicate Inside(p: State, n: nat)
    requires n <= Width(p.family)
  {
    forall a :: Out(p, a) ==> a < End(p, n)
  }

  /** Places are numbered by 64-bit integers.  This holds of itself for IPv4 and for prefixes
      longer than 64 bits. */
  predicate Counted(p: State, n: nat) { p.family.V4? || n > 64 || 64 * |p.words| < TWO64 }

  lemma {:induction false} MaskTells(f: Family, n: nat, m: nat)
    requires n <= Width(f) && m == Mask(f, n)
    ensures forall a: nat :: a < Space(f) ==> Prefix(f, a, m) == Floor(a, NetSize(f, n))
  {
    forall a: nat | a < Space(f) ensures Prefix(f, a, m) == Floor(a, NetSize(f, n)) { PrefixIs(f, a, n); }
  }

  lemma {:induction false} EmptyGood(p: State, n: nat)
    requires 1 <= n <= Width(p.family) && p.base < Space(p.family) && p.words == []
    requires forall a: nat :: a < Space(p.family) ==> Prefix(p.family, a, p.mask) == Floor(a, NetSize(p.family, n))
    requires p.addr == Prefix(p.family, p.base, p.mask)
    ensures Good(p, n) && forall a :: !Out(p, a)
  {
  }

  lemma {:induction false} NewGood(f: Family, base: nat, n: nat)
    requires 1 <= n <= Width(f) && base < Space(f)
    ensures Good(New(f, base, n), n) && forall a :: !Out(New(f, base, n), a)
  {
    MaskTells(f, n, Mask(f, n));
    EmptyGood(New(f, base, n), n);
  }

  lemma {:induction false} MarkHas(b: seq<Word>, i: nat, j: nat)
    ensures HasBit(Mark(b, i), j) == (j == i || HasBit(b, j))
  {
    GrownKeeps(b, i + 1, i);
    GrownKeeps(b, i + 1, j);
    WithBitHas(Grown(b, i + 1), i, true, j);
  }

  /** Networks of prefix length at least one do not reach round the address space. */
  lemma {:induction false} NetworkFits(f: Family, base: nat, n: nat)
    requires 1 <= n <= Width(f) && base < Space(f)
    ensures var s := NetSize(f, n); Floor(base, s) + s <= Space(f) && 2 * s <= Space(f)
  {
    Pow2s();
    Pow2Sum(Width(f) - n, n);
    Pow2Monotone(1, n);
    FloorEnd(base, NetSize(f, n), Pow2(n));
  }

  lemma {:induction false} FloorEnd(a: nat, s: nat, m: nat)
    requires s > 0 && m >= 2 && a < s * m
    ensures Floor(a, s) + s <= s * m && 2 * s <= s * m
  {
    var q := a / s;
    assert a == q * s + a % s;
    FloorIs(a, s, q);
    MulMonotone(m, q, s);
    MulMonotone(q + 1, m, s);
    MulMonotone(2, m, s);
    assert (q + 1) * s == q * s + s && m * s == s * m;
  }

  lemma {:induction false} LongPrefix(n: nat)
    requires 64 < n <= 128
    ensures NetSize(V6, n) <= TWO64 / 2
  {
    Pow2s();
    Pow2Monotone(128 - n, 63);
    assert Pow2(64) == 2 * Pow2(63);
  }

  /** The lowest place that is free lies in the network or right at its end. */
  lemma {:induction false} FirstFree(p: State, n: nat)
    requires Good(p, n) && Counted(p, n)
    ensures var i := FirstZero(p.words, 0); p.base + i <= End(p, n) <= Space(p.family) && i < TWO64
  {
    var i := FirstZero(p.words, 0);
    NetworkFits(p.family, p.base, n);
    if i > 0 {
      assert HasBit(p.words, i - 1);
      assert Out(p, p.base + (i - 1));
    }
    if p.family.V6? && n > 64 { LongPrefix(n); }
  }

  /** Counting up to the end of the address space goes on at zero. */
  lemma {:induction false} AddOrWrap(f: Family, a: nat, i: nat)
    requires a < Space(f) && i < TWO64 && a + i <= Space(f)
    ensures Add(f, a, i) == if a + i < Space(f) then a + i else 0
  {
    if a + i < Space(f) { AddIs(f, a, i); } else if f.V6? { AddWraps(a, i); } else { assert (a + i % TWO32) % TWO32 == 0; }
  }

  lemma {:induction false} AddWraps(a: nat, i: nat)
    requires a < TWO128 && 0 < i < TWO64 && a + i == TWO128
    ensures Add(V6, a, i) == 0
  {
    InHalves(a);
    assert Hi(a) == TWO64 - 1 && Lo(a) + i == TWO64;
  }

  lemma {:induction false} FloorSame(a: nat, b: nat, s: nat)
    requires s > 0
    ensures Floor(a, s) == Floor(b, s) <==> Floor(b, s) <= a < Floor(b, s) + s
  {
    var q := b / s;
    assert b == q * s + b % s;
    FloorIs(b, s, q);
    if q * s <= a < q * s + s { FloorIs(a, s, q); }
  }

  /** Get gives the lowest address that is free, in the network and not out, and marks nothing
      else; it fails only when every address from the base to the end of the network is out. */
  lemma {:induction false} TakeLowest(p: State, n: nat)
    requires Good(p, n) && Counted(p, n)
    ensures var (p', a, ok) := Take(p);
      if ok then
        && Good(p', n) && p' == p.(words := p'.words) && InNetwork(p, n, a) && p.base <= a < End(p, n)
        && !Out(p, a) && (forall b :: p.base <= b < a ==> Out(p, b))
        && (forall b :: Out(p', b) <==> b == a || Out(p, b))
      else p' == p && forall b :: p.base <= b < End(p, n) ==> Out(p, b)
  {
    var f, s, i := p.family, NetSize(p.family, n), FirstZero(p.words, 0);
    FirstFree(p, n);
    NetworkFits(f, p.base, n);
    AddOrWrap(f, p.base, i);
    var a := Add(f, p.base, i);
    assert Prefix(f, a, p.mask) == p.addr <==> InNetwork(p, n, a);
    FloorSame(a, p.base, s);
    var (p', _, ok) := Take(p);
    if ok {
      TakenPlace(p, n, i);
    } else {
      assert p.base + i == End(p, n);
      forall b | p.base <= b < End(p, n) ensures Out(p, b) { assert HasBit(p.words, b - p.base); }
    }
  }

  lemma {:induction false} TakenPlace(p: State, n: nat, i: nat)
    requires Good(p, n) && i == FirstZero(p.words, 0) && p.base + i < End(p, n)
    ensures var p' := p.(words := Mark(p.words, i));
      Good(p', n) && !Out(p, p.base + i) && (forall b :: p.base <= b < p.base + i ==> Out(p, b)) &&
      (forall b :: Out(p', b) <==> b == p.base + i || Out(p, b))
  {
    var p' := p.(words := Mark(p.words, i));
    forall b ensures Out(p', b) <==> b == p.base + i || Out(p, b) {
      if b >= p.base { MarkHas(p.words, i, b - p.base); }
    }
    forall b | p.base <= b < p.base + i ensures Out(p, b) { assert HasBit(p.words, b - p.base); }
  }

  lemma {:induction false} OutPlace(p: State, n: nat, ip: nat)
    requires Good(p, n) && Counted(p, n) && Out(p, ip)
    ensures Sub(p.family, ip, p.base) == ip - p.base && ip < Space(p.family)
  {
    NetworkFits(p.family, p.base, n);
    if p.family.V6? && n > 64 { LongPrefix(n); }
    SubIs(p.family, p.base, ip - p.base);
  }

  /** An address that is out can be returned, and is then the only one no longer out. */
  lemma {:induction false} GiveBack(p: State, n: nat, ip: nat)
    requires Good(p, n) && Counted(p, n) && Out(p, ip)
    ensures Give(p, ip).Some?
    ensures var p' := Give(p, ip).value;
      Good(p', n) && p' == p.(words := p'.words) && |p'.words| == |p.words| && forall b :: Out(p', b) <==> b != ip && Out(p, b)
  {
    var i := ip - p.base;
    OutPlace(p, n, ip);
    var p' := Give(p, ip).value;
    forall b ensures Out(p', b) <==> b != ip && Out(p, b) {
      if b >= p.base { WithBitHas(p.words, i, false, b - p.base); }
    }
  }

  /** The address that an address returned is taken for. */
  function Meant(p: State, ip: nat): nat { p.base + Sub(p.family, ip, p.base) }

  /** The pool with other addresses out. */
  function Having(p: State, words: seq<Word>): State { p.(words := words) }

  /** Whatever is out, returning an address that is not panics. */
  ghost predicate AlwaysPanics(p: State, n: nat, ip: nat) {
    forall words :: Good(Having(p, words), n) && !Out(Having(p, words), ip) ==> Give(Having(p, words), ip).None?
  }

  lemma {:induction false} GiveMeant(p: State, ip: nat)
    ensures Give(p, ip).Some? <==> Out(p, Meant(p, ip))
  {
  }

  /** Returning an address that is not out panics, whatever is out, exactly when the address
      is not taken for another one that could be. */
  lemma {:induction false} GivePanicsExactly(p: State, n: nat, ip: nat)
    requires Good(p, n)
    ensures AlwaysPanics(p, n, ip) <==> Meant(p, ip) == ip || Meant(p, ip) >= End(p, n)
  {
    var a := Meant(p, ip);
    if a == ip || a >= End(p, n) {
      forall words | Good(Having(p, words), n) && !Out(Having(p, words), ip) ensures Give(Having(p, words), ip).None? {
        GiveMeant(Having(p, words), ip);
        assert !Out(Having(p, words), a);
      }
    } else {
      OnlyOut(p, n, a);
      GiveMeant(Having(p, Mark([], a - p.base)), ip);
    }
  }

  /** What is out does not matter to the mask. */
  lemma {:induction false} TellsAlso(p: State, words: seq<Word>, n: nat)
    requires n <= Width(p.family) && Tells(p, n)
    ensures Tells(Having(p, words), n) && End(Having(p, words), n) == End(p, n)
  {
    var q := Having(p, words);
    forall x: nat | x < Space(p.family) ensures Prefix(q.family, x, q.mask) == q.addr <==> InNetwork(q, n, x) {
      assert InNetwork(q, n, x) <==> InNetwork(p, n, x);
    }
  }

  /** One address of the network can be the only one out. */
  lemma {:induction false} OnlyOut(p: State, n: nat, a: nat)
    requires Good(p, n) && p.base <= a < End(p, n)
    ensures var q := Having(p, Mark([], a - p.base)); Good(q, n) && forall b :: Out(q, b) <==> b == a
  {
    var q := Having(p, Mark([], a - p.base));
    forall b ensures Out(q, b) <==> b == a {
      if b >= p.base { MarkHas([], a - p.base, b - p.base); }
    }
    TellsAlso(p, q.words, n);
  }

  /** What addresses are taken for, in numbers.  IPv4 addresses are taken for themselves, or lie
      out of reach.  The upper halves of IPv6 addresses only settle the borrow, so an address is
      taken for the one at or after the base whose lower half is its own, or one less when its
      upper half is below that of the base. */
  lemma {:induction false} MeantIs(p: State, n: nat, ip: nat)
    requires Good(p, n) && ip < Space(p.family)
    ensures p.family.V4? ==> Meant(p, ip) == ip || Meant(p, ip) >= End(p, n)
    ensures p.family.V6? ==>
      && p.base <= Meant(p, ip) < p.base + TWO64
      && Lo(Meant(p, ip)) == (Lo(ip) - Bit(Hi(ip) < Hi(p.base))) % TWO64
  {
    NetworkFits(p.family, p.base, n);
    if p.family.V4? {
      SubFar4(ip, p.base);
    } else {
      MeantLow(ip, p.base);
    }
  }

  lemma {:induction false} MeantLow(a: nat, b: nat)
    requires a < TWO128 && b < TWO128
    ensures Sub(V6, a, b) < TWO64 && Lo(b + Sub(V6, a, b)) == (Lo(a) - Bit(Hi(a) < Hi(b))) % TWO64
  {
    LoStep(b, Sub(V6, a, b));
    ModSteps(Lo(b), Lo(a) - Bit(Hi(a) < Hi(b)));
  }

  lemma {:induction false} LoStep(b: nat, d: nat)
    ensures Lo(b + d) == (Lo(b) + d) % TWO64
  {
    assert b == Hi(b) * TWO64 + Lo(b);
    ModPlus(Lo(b) + d, Hi(b));
  }

  lemma {:induction false} ModPlus(x: int, k: nat)
    ensures (x + k * TWO64) % TWO64 == x % TWO64
    decreases k
  {
    if k > 0 {
      ModPlus(x, k - 1);
      assert x + k * TWO64 == (x + (k - 1) * TWO64) + TWO64;
    }
  }

  lemma {:induction false} ModSteps(b: nat, t: int)
    requires b < TWO64 && -1 <= t < TWO64
    ensures (b + (t - b) % TWO64) % TWO64 == t % TWO64
  {
    assert (t - b) % TWO64 == if t >= b then t - b else t - b + TWO64;
  }

  /** So an address that is not out panics for IPv4, and for IPv6 prefixes longer than 64 bits
      when it is of the pool's network. */
  lemma {:induction false} GivePanics(p: State, n: nat, ip: nat)
    requires Good(p, n) && ip < Space(p.family)
    ensures p.family.V4? ==> AlwaysPanics(p, n, ip)
    ensures p.family.V6? && n > 64 && InNetwork(p, n, ip) ==> AlwaysPanics(p, n, ip)
    ensures !Out(p, ip) && AlwaysPanics(p, n, ip) ==> Give(p, ip).None?
  {
    GivePanicsExactly(p, n, ip);
    MeantIs(p, n, ip);
    if p.family.V6? && n > 64 && InNetwork(p, n, ip) { SubFar6(ip, p.base, n); }
    assert Having(p, p.words) == p;
  }

  lemma {:induction false} SubFar4(a: nat, b: nat)
    requires a < TWO32 && b < TWO32
    ensures b + Sub(V4, a, b) == a || b + Sub(V4, a, b) >= TWO32
  {
  }

  lemma {:induction false} SubFar6(a: nat, b: nat, n: nat)
    requires a < TWO128 && b < TWO128 && 64 < n <= 128 && Floor(a, NetSize(V6, n)) == Floor(b, NetSize(V6, n))
    ensures b + Sub(V6, a, b) == a || b + Sub(V6, a, b) >= Floor(b, NetSize(V6, n)) + NetSize(V6, n)
  {
    LongPrefix(n);
    FloorSame(a, b, NetSize(V6, n));
    if a >= b { Sub6Is(b, a - b); } else { SubBelow(a, b, n); }
  }

  lemma {:induction false} SubBelow(a: nat, b: nat, n: nat)
    requires a < b < TWO128 && 64 < n <= 128 && Floor(a, NetSize(V6, n)) == Floor(b, NetSize(V6, n))
    ensures Sub(V6, a, b) >= TWO64 / 2
  {
    LongPrefix(n);
    SameHigh(a, b, n);
    InHalves(a);
    InHalves(b);
    assert Sub(V6, a, b) == (a - b) % TWO64 == a - b + TWO64;
  }

  lemma {:induction false} SameHigh(a: nat, b: nat, n: nat)
    requires a < b < TWO128 && 64 < n <= 128 && Floor(a, NetSize(V6, n)) == Floor(b, NetSize(V6, n))
    ensures Hi(a) == Hi(b)
  {
    Pow2s();
    Pow2Sum(128 - n, n - 64);
    InHalves(a);
    InHalves(b);
    FloorLow(Hi(a), Lo(a), NetSize(V6, n), Pow2(n - 64));
    FloorLow(Hi(b), Lo(b), NetSize(V6, n), Pow2(n - 64));
    Halves(Hi(a), Floor(Lo(a), NetSize(V6, n)));
    Halves(Hi(b), Floor(Lo(b), NetSize(V6, n)));
  }

  /** Two families of IPv6 addresses that are taken for one that is out: those with a larger
      upper half than the base and the same lower half, and those with a smaller upper half
      than the base and the lower half one higher. */
  lemma {:induction false} GiveTakenForAnother(p: State, n: nat, ip: nat, hi: nat)
    requires Good(p, n) && Counted(p, n) && p.family.V6? && Out(p, ip)
    ensures hi >= Hi(p.base) ==> Give(p, Join(hi, Lo(ip))) == Give(p, ip)
    ensures hi < Hi(p.base) ==> Give(p, Join(hi, (Lo(ip) + 1) % TWO64)) == Give(p, ip)
  {
    OutPlace(p, n, ip);
    HighMonotone(p.base, ip);
    if hi >= Hi(p.base) { SubHigher(ip, p.base, hi); } else { SubLower(ip, p.base, hi); }
  }

  lemma {:induction false} HighMonotone(a: nat, b: nat)
    requires a <= b
    ensures Hi(a) <= Hi(b)
  {
  }

  lemma {:induction false} SubHigher(a: nat, b: nat, hi: nat)
    requires Hi(a) >= Hi(b) && hi >= Hi(b)
    ensures Sub(V6, Join(hi, Lo(a)), b) == Sub(V6, a, b)
  {
    Halves(hi, Lo(a));
  }

  lemma {:induction false} SubLower(a: nat, b: nat, hi: nat)
    requires Hi(a) >= Hi(b) && hi < Hi(b)
    ensures Sub(V6, Join(hi, (Lo(a) + 1) % TWO64), b) == Sub(V6, a, b)
  {
    var up := (Lo(a) + 1) % TWO64;
    Halves(hi, up);
    if Lo(a) + 1 == TWO64 {
      assert up == 0;
      ModPlus(0 - Lo(b) - 1, 1);
    }
  }

  // ----- every run

  datatype Call = Get | Put(ip: nat)

  /** The pool, and the addresses given and not returned, each as often as it was given. */
  datatype World = World(pool: State, held: multiset<nat>)

  function Next(w: World, c: Call): World
    requires c.Put? ==> Give(w.pool, c.ip).Some?
  {
    match c
    case Get => var (p, a, ok) := Take(w.pool); World(p, if ok then w.held + multiset{a} else w.held)
    case Put(ip) => World(Give(w.pool, ip).value, w.held - multiset{ip})
  }

  /** Calls in sequence on a pool that is full, as a new one is, where only addresses that are
      held are returned. */
  ghost predicate Run(run: seq<World>, n: nat) {
    && run != [] && run[0].held == multiset{} && Good(run[0].pool, n) && (forall a :: !Out(run[0].pool, a))
    && (forall i :: 0 <= i < |run| ==> Counted(run[i].pool, n))
    && (forall i :: 0 <= i < |run| - 1 ==> Step(run[i], run[i + 1]))
  }

  ghost predicate Allowed(w: World, c: Call) { c.Put? ==> c.ip in w.held && Give(w.pool, c.ip).Some? }

  ghost predicate Step(w: World, w': World) { exists c :: Allowed(w, c) && w' == Next(w, c) }

  /** The addresses held are those marked in the bit set, none of them twice. */
  ghost predicate Balanced(w: World, n: nat) {
    Good(w.pool, n) && forall a: nat :: w.held[a] == if Out(w.pool, a) then 1 else 0
  }

  lemma {:induction false} StepBalanced(w: World, w': World, n: nat)
    requires Balanced(w, n) && Counted(w.pool, n) && Step(w, w')
    ensures Balanced(w', n) && w'.pool == w.pool.(words := w'.pool.words)
  {
    var c :| Allowed(w, c) && w' == Next(w, c);
    match c
    case Get => TakeLowest(w.pool, n);
    case Put(ip) =>
      assert Out(w.pool, ip);
      GiveBack(w.pool, n, ip);
  }

  lemma {:induction false} RunKeeps(run: seq<World>, n: nat, i: nat)
    requires Run(run, n) && i < |run|
    ensures Balanced(run[i], n)
  {
    if i > 0 {
      RunKeeps(run, n, i - 1);
      assert Step(run[i - 1], run[i - 1 + 1]);
      StepBalanced(run[i - 1], run[i], n);
    }
  }

  /** In every run no address is held twice, and every address held lies in the network, at or
      after the base, and can be returned. */
  lemma {:induction false} RunBalanced(run: seq<World>, n: nat, i: nat)
    requires Run(run, n) && i < |run|
    ensures Good(run[i].pool, n)
    ensures var w := run[i];
      forall a :: a in w.held ==> w.held[a] == 1 && w.pool.base <= a && InNetwork(w.pool, n, a) && Give(w.pool, a).Some?
  {
    RunKeeps(run, n, i);
    HeldIsGood(run[i], n);
  }

  lemma {:induction false} HeldIsGood(w: World, n: nat)
    requires Balanced(w, n) && Counted(w.pool, n)
    ensures forall a :: a in w.held ==> w.held[a] == 1 && w.pool.base <= a && InNetwork(w.pool, n, a) && Give(w.pool, a).Some?
  {
    forall a | a in w.held ensures w.held[a] == 1 && w.pool.base <= a && InNetwork(w.pool, n, a) && Give(w.pool, a).Some? {
      OutIsGood(w.pool, n, a);
    }
  }

  lemma {:induction false} OutIsGood(p: State, n: nat, a: nat)
    requires Good(p, n) && Counted(p, n) && Out(p, a)
    ensures InNetwork(p, n, a) && Give(p, a).Some?
  {
    NetworkFits(p.family, p.base, n);
    FloorSame(a, p.base, NetSize(p.family, n));
    GiveBack(p, n, a);
  }

  // ----- prefix length 0

  lemma {:induction false} NoMask(f: Family)
    ensures Mask(f, 0) == 0 && forall a: nat :: Prefix(f, a, 0) == 0
  {
    if f.V4? { Mask4Is(0); } else { Mask6Short(0); }
    forall a: nat ensures Prefix(f, a, 0) == 0 {
      AndZero(a);
      AndZero(Hi(a));
      AndZero(Lo(a));
    }
  }

  lemma {:induction false} AddModulo(f: Family, a: nat, i: nat)
    requires a < Space(f) && (f.V4? || i < TWO64)
    ensures Add(f, a, i) == (a + i) % Space(f)
  {
    if f.V6? { AddModulo6(a, i); }
  }

  lemma {:induction false} AddModulo6(a: nat, i: nat)
    requires a < TWO128 && i < TWO64
    ensures Add(V6, a, i) == (a + i) % TWO128
  {
    InHalves(a);
    CarryOnce(Lo(a), i);
    if a + i < TWO128 { Add6Is(a, i); } else { assert Hi(a) == TWO64 - 1; }
  }

  lemma {:induction false} TakeUnmasked(p: State)
    requires p.mask == 0 && p.addr == 0
    ensures Take(p).2 && Take(p).1 == Add(p.family, p.base, FirstZero(p.words, 0))
  {
    NoMask(p.family);
  }

  /** With prefix length 0 a pool always has one more address, and goes on at the start of the
      address space when it reaches the end. */
  lemma {:induction false} WholeSpace(f: Family, base: nat, words: seq<Word>)
    requires base < Space(f)
    ensures var t, i := Take(Having(New(f, base, 0), words)), FirstZero(words, 0);
      t.2 && (f.V4? || i < TWO64 ==> t.1 == (base + i) % Space(f))
  {
    NoMask(f);
    TakeUnmasked(Having(New(f, base, 0), words));
    var i := FirstZero(words, 0);
    if f.V4? || i < TWO64 { AddModulo(f, base, i); }
  }

  /** The first `k` places are taken. */
  function FullTo(k: nat): (words: seq<Word>)
    ensures |words| == (k + 63) / 64
  {
    if k == 0 then [] else Mark(FullTo(k - 1), k - 1)
  }

  lemma {:induction false} FullToHas(k: nat, j: nat)
    ensures HasBit(FullTo(k), j) <==> j < k
  {
    if k > 0 {
      FullToHas(k - 1, j);
      MarkHas(FullTo(k - 1), k - 1, j);
    }
  }

  /** A pool that has given every address from its base to the end of the network. */
  lemma {:induction false} FullPool(p: State, n: nat)
    requires Good(p, n)
    ensures var q := Having(p, FullTo(End(p, n) - p.base));
      Good(q, n) && forall a :: Out(q, a) <==> p.base <= a < End(p, n)
  {
    var k := End(p, n) - p.base;
    var q := Having(p, FullTo(k));
    forall a ensures Out(q, a) <==> p.base <= a < End(p, n) { if a >= p.base { FullToHas(k, a - p.base); } }
    TellsAlso(p, q.words, n);
  }

  /** When all its addresses are out, a pool reports that it is exhausted. */
  lemma {:induction false} FullFails(p: State, n: nat) returns (words: seq<Word>)
    requires Good(p, n) && (p.family.V4? || n > 64 || End(p, n) - p.base + 64 < TWO64)
    ensures Counted(Having(p, words), n) && !Take(Having(p, words)).2
  {
    words := FullTo(End(p, n) - p.base);
    FullPool(p, n);
    TakeLowest(Having(p, words), n);
  }

  /** A pool whose places can be counted to the end never reports that it is exhausted exactly
      when its prefix length is 0. */
  lemma {:induction false} NeverExhaustedExactly(f: Family, base: nat, n: nat)
    requires base < Space(f) && n <= Width(f)
    requires f.V4? || n > 64 || n == 0 || End(New(f, base, n), n) - base + 64 < TWO64
    ensures n == 0 <==> forall words :: Counted(Having(New(f, base, n), words), n) ==> Take(Having(New(f, base, n), words)).2
  {
    if n == 0 {
      forall words ensures Take(Having(New(f, base, 0), words)).2 { WholeSpace(f, base, words); }
    } else {
      NewGood(f, base, n);
      var words := FullFails(New(f, base, n), n);
    }
  }
}

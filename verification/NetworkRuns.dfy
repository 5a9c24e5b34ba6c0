/** Every sequence of namespace creations and detaches on a virtual network.

    The bits of all pools stay the same, so a namespace sits at one slot: its address of each
    pool is that many places after the pool's base. */
module NetworkRuns {
  import opened Basics
  import opened Bitset
  import opened Ip
  import opened IpPool
  import opened LocalNetwork

  // ----- slots of one pool

  /** The address of a pool at a slot. */
  function At(p: State, s: nat): Addr { Addr(p.family, p.base + s) }

  /** How many addresses a pool has. */
  function Cap(p: State, n: nat): (c: nat)
    requires n <= Width(p.family)
    ensures c > 0
  {
    End(p, n) - p.base
  }

  ghost predicate Marked(p: State, taken: set<nat>) { forall s: nat :: HasBit(p.words, s) <==> s in taken }

  /** Room for one more word without exceeding 64-bit place numbers. */
  predicate Roomy(p: State, n: nat) { p.family.V4? || n > 64 || 64 * (|p.words| + 1) < TWO64 }

  ghost function FreeFrom(taken: set<nat>, from: nat, rest: set<nat>): (s: nat)
    requires forall j :: j in taken && j >= from ==> j in rest
    ensures s >= from && s !in taken && forall j :: from <= j < s ==> j in taken
    decreases rest
  {
    if from in taken then FreeFrom(taken, from + 1, rest - {from}) else from
  }

  /** The lowest slot that is not taken. */
  ghost function Free(taken: set<nat>): (s: nat)
    ensures s !in taken && forall j :: 0 <= j < s ==> j in taken
  {
    FreeFrom(taken, 0, taken)
  }

  lemma {:induction false} LowestSlot(p: State, p': State, a: nat, taken: set<nat>)
    requires Marked(p, taken) && p'.base == p.base <= a && !Out(p, a) && forall b :: p.base <= b < a ==> Out(p, b)
    requires forall b :: Out(p', b) <==> b == a || Out(p, b)
    ensures a == p.base + Free(taken) && Marked(p', taken + {Free(taken)})
  {
    var s := Free(taken);
    assert !Out(p, p.base + s);
    assert a < p.base + s ==> a - p.base in taken;
    forall j: nat ensures HasBit(p'.words, j) <==> j in taken + {s} {
      assert Out(p', p.base + j) <==> p.base + j == a || Out(p, p.base + j);
    }
  }

  lemma {:induction false} NoSlot(p: State, n: nat, taken: set<nat>)
    requires n <= Width(p.family) && Marked(p, taken) && Inside(p, n)
    ensures Free(taken) <= Cap(p, n)
    ensures (forall b :: p.base <= b < End(p, n) ==> Out(p, b)) ==> Free(taken) == Cap(p, n)
  {
    var s := Free(taken);
    assert s > 0 ==> Out(p, p.base + (s - 1));
    assert !Out(p, p.base + s);
  }

  lemma {:induction false} TakeSlot(p: State, n: nat, taken: set<nat>)
    requires Good(p, n) && Counted(p, n) && Marked(p, taken)
    ensures var (p', a, ok), s := Take(p), Free(taken);
      && s <= Cap(p, n) && (ok <==> s < Cap(p, n))
      && (ok ==> a == p.base + s && Good(p', n) && p' == p.(words := p'.words) && Marked(p', taken + {s}))
  {
    var (p', a, ok) := Take(p);
    TakeLowest(p, n);
    NoSlot(p, n, taken);
    if ok { LowestSlot(p, p', a, taken); }
  }

  lemma {:induction false} TakeRoom(p: State, n: nat)
    requires Roomy(p, n)
    ensures Counted(p, n) && Counted(Take(p).0, n)
  {
    assert !HasBit(p.words, 64 * |p.words|);
  }

  lemma {:induction false} GiveSlot(p: State, n: nat, taken: set<nat>, s: nat)
    requires Good(p, n) && Counted(p, n) && Marked(p, taken) && s in taken
    ensures var r := Give(p, p.base + s);
      r.Some? && Good(r.value, n) && r.value == p.(words := r.value.words) && Marked(r.value, taken - {s})
  {
    assert Out(p, p.base + s);
    GiveBack(p, n, p.base + s);
    var p' := Give(p, p.base + s).value;
    forall j: nat ensures HasBit(p'.words, j) <==> j in taken - {s} {
      assert Out(p', p.base + j) <==> j != s && Out(p, p.base + j);
    }
  }

  // ----- slots of all pools

  ghost predicate Config(init: seq<State>, bits: seq<nat>) {
    |init| == |bits| && forall k :: 0 <= k < |init| ==> Good(init[k], bits[k])
  }

  ghost predicate MarkedAt(init: seq<State>, bits: seq<nat>, pools: seq<State>, k: nat, taken: set<nat>)
    requires k < |init| == |bits| == |pools|
  {
    pools[k] == init[k].(words := pools[k].words) && Good(pools[k], bits[k]) && Marked(pools[k], taken)
  }

  /** The first `m` pools have the slots `front` marked, the others the slots `back`. */
  ghost predicate Marks(init: seq<State>, bits: seq<nat>, pools: seq<State>, m: nat, front: set<nat>, back: set<nat>) {
    && |init| == |bits| == |pools|
    && (forall k :: 0 <= k < |init| && k < m ==> MarkedAt(init, bits, pools, k, front))
    && (forall k :: m <= k < |init| ==> MarkedAt(init, bits, pools, k, back))
  }

  ghost predicate AllMarked(init: seq<State>, bits: seq<nat>, pools: seq<State>, taken: set<nat>) {
    |init| == |bits| == |pools| && forall k :: 0 <= k < |init| ==> MarkedAt(init, bits, pools, k, taken)
  }

  ghost predicate AllCounted(pools: seq<State>, bits: seq<nat>)
    requires |pools| == |bits|
  {
    forall k :: 0 <= k < |pools| ==> Counted(pools[k], bits[k])
  }

  ghost predicate AllRoomy(pools: seq<State>, bits: seq<nat>)
    requires |pools| == |bits|
  {
    forall k :: 0 <= k < |pools| ==> Roomy(pools[k], bits[k])
  }

  /** The addresses of the first `m` pools at a slot. */
  function Row(init: seq<State>, s: nat, m: nat): (r: seq<Addr>)
    requires m <= |init|
    ensures |r| == m && forall k :: 0 <= k < m ==> r[k] == At(init[k], s)
  {
    seq(m, k requires 0 <= k < m => At(init[k], s))
  }

  ghost predicate Fits(init: seq<State>, bits: seq<nat>, k: nat, s: nat)
    requires k < |init| == |bits|
  {
    bits[k] <= Width(init[k].family) && s < Cap(init[k], bits[k])
  }

  /** A namespace gets the lowest free slot in every pool that has it. */
  lemma {:induction false} GrantedSlots(init: seq<State>, bits: seq<nat>, pools: seq<State>, taken: set<nat>, k: nat)
    requires AllMarked(init, bits, pools, taken) && AllRoomy(pools, bits) && k <= |pools|
    ensures var g, s := Granted(pools, k), Free(taken);
      && g.addrs == Row(init, s, |g.addrs|) && Marks(init, bits, g.pools, |g.addrs|, taken + {s}, taken) && AllCounted(g.pools, bits)
      && (forall j :: 0 <= j < |g.addrs| ==> Fits(init, bits, j, s))
      && (!g.ok ==> !Fits(init, bits, |g.addrs|, s))
  {
    if k == 0 {
      forall j | 0 <= j < |init| ensures MarkedAt(init, bits, pools, j, taken) && Counted(pools[j], bits[j]) {
        assert MarkedAt(init, bits, pools, j, taken) && Roomy(pools[j], bits[j]);
        TakeRoom(pools[j], bits[j]);
      }
    } else {
      GrantedSlots(init, bits, pools, taken, k - 1);
      var g, s := Granted(pools, k - 1), Free(taken);
      if g.ok { GrantOne(init, bits, pools, g, taken, k - 1); }
    }
  }

  lemma {:induction false} GrantOne(init: seq<State>, bits: seq<nat>, pools: seq<State>, g: Grant, taken: set<nat>, k: nat)
    requires k < |init| == |bits| == |g.pools| == |pools| && |g.addrs| == k && g.pools[k] == pools[k] && Roomy(pools[k], bits[k])
    requires g.addrs == Row(init, Free(taken), k) && Marks(init, bits, g.pools, k, taken + {Free(taken)}, taken) && AllCounted(g.pools, bits)
    ensures var s, (p, a, got) := Free(taken), Take(g.pools[k]);
      && (got <==> Fits(init, bits, k, s))
      && (got ==> g.addrs + [Addr(p.family, a)] == Row(init, s, k + 1))
      && (got ==> Marks(init, bits, g.pools[k := p], k + 1, taken + {s}, taken) && AllCounted(g.pools[k := p], bits))
  {
    var s := Free(taken);
    var (p, a, got) := Take(g.pools[k]);
    assert MarkedAt(init, bits, g.pools, k, taken);
    TakeRoom(pools[k], bits[k]);
    TakeSlot(g.pools[k], bits[k], taken);
    if got {
      var ps := g.pools[k := p];
      forall j | 0 <= j < |init| && j < k + 1 ensures MarkedAt(init, bits, ps, j, taken + {s}) {
        if j < k { assert MarkedAt(init, bits, g.pools, j, taken + {s}); }
      }
      forall j | k + 1 <= j < |init| ensures MarkedAt(init, bits, ps, j, taken) { assert MarkedAt(init, bits, g.pools, j, taken); }
    }
  }

  lemma {:induction false} ReturnSlots(init: seq<State>, bits: seq<nat>, pools: seq<State>, m: nat, front: set<nat>, back: set<nat>, s: nat)
    requires Marks(init, bits, pools, m, front, back) && AllCounted(pools, bits) && m <= |init| && s in front
    ensures Returnable(pools, Row(init, s, m)) && Marks(init, bits, Returned(pools, Row(init, s, m)), m, front - {s}, back)
  {
    var row := Row(init, s, m);
    forall k | 0 <= k < m
      ensures Give(pools[k], row[k].number).Some?
      ensures var r := Give(pools[k], row[k].number).value;
        r == init[k].(words := r.words) && Good(r, bits[k]) && Marked(r, front - {s})
    {
      assert MarkedAt(init, bits, pools, k, front);
      GiveSlot(pools[k], bits[k], front, s);
    }
    forall k | m <= k < |init| ensures MarkedAt(init, bits, Returned(pools, row), k, back) { assert MarkedAt(init, bits, pools, k, back); }
  }

  // ----- runs

  /** The network, and the addresses of the namespaces attached to it. */
  datatype Sys = Sys(net: Net<nat>, owners: map<nat, seq<Addr>>, panicked: bool)

  datatype Act = Create(x: nat) | Detach(x: nat)

  /** At most `limit` namespaces are attached at a time. */
  predicate Enabled(s: Sys, a: Act, limit: nat) { a.Create? ==> a.x !in s.owners && |s.owners| < limit }

  function Next(s: Sys, a: Act): Sys {
    match a
    case Create(x) =>
      var (n, addrs) := Created(s.net, x);
      if n.None? then s.(panicked := true)
      else Sys(n.value, if addrs.Some? then s.owners[x := addrs.value] else s.owners, s.panicked)
    case Detach(x) =>
      if x !in s.owners then s
      else match Detached(s.net, s.owners[x])
        case None => s.(panicked := true)
        case Some(n) => Sys(n, s.owners - {x}, s.panicked)
  }

  ghost predicate Step(s: Sys, s': Sys, limit: nat) { exists a :: Enabled(s, a, limit) && s' == Next(s, a) }

  /** Networks of new pools. */
  ghost predicate Unused(init: seq<State>, bits: seq<nat>) {
    Config(init, bits) && forall k :: 0 <= k < |init| ==> init[k].words == []
  }

  /** The number of namespaces that signed 64-bit numbers can count. */
  const MOST: nat := TWO63

  ghost predicate Run(run: seq<Sys>, init: seq<State>, bits: seq<nat>, limit: nat) {
    && Unused(init, bits) && limit <= MOST
    && run != [] && run[0] == Sys(Net(init, map[]), map[], false)
    && (forall i :: 0 <= i < |run| - 1 ==> Step(run[i], run[i + 1], limit))
  }

  // ----- what should hold

  /** The addresses given out of each pool are those of the attached namespaces, one each. */
  ghost predicate PoolsAgree(s: Sys) {
    && (forall x :: x in s.owners ==> |s.owners[x]| == |s.net.pools|)
    && (forall k, a :: 0 <= k < |s.net.pools| ==> (Out(s.net.pools[k], a) <==>
          exists x :: x in s.owners && a >= 0 && s.owners[x][k] == Addr(s.net.pools[k].family, a)))
    && (forall x, y, k :: x in s.owners && y in s.owners && x != y && 0 <= k < |s.net.pools| ==> s.owners[x][k] != s.owners[y][k])
  }

  /** The routing table holds exactly the addresses of attached namespaces, each routed to
      its owner. */
  ghost predicate RoutesAgree(s: Sys) {
    && (forall x, a :: x in s.owners && a in s.owners[x] ==> a in s.net.routes && s.net.routes[a] == x)
    && (forall a :: a in s.net.routes ==> s.net.routes[a] in s.owners && a in s.owners[s.net.routes[a]])
  }

  // ----- pools always agree

  ghost predicate Injective(slots: map<nat, nat>) { forall x, y :: x in slots && y in slots && slots[x] == slots[y] ==> x == y }

  ghost predicate Slotted(s: Sys, init: seq<State>, bits: seq<nat>, slots: map<nat, nat>) {
    && !s.panicked && slots.Keys == s.owners.Keys && Injective(slots)
    && AllMarked(init, bits, s.net.pools, slots.Values)
    && (forall x :: x in slots ==> s.owners[x] == Row(init, slots[x], |init|))
  }

  lemma {:induction false} MarksSame(init: seq<State>, bits: seq<nat>, pools: seq<State>, m: nat, front: set<nat>, back: set<nat>)
    requires Marks(init, bits, pools, m, front, back) && (m >= |init| || front == back)
    ensures AllMarked(init, bits, pools, front)
  {
  }

  lemma {:induction false} CreateSlots(s: Sys, x: nat, init: seq<State>, bits: seq<nat>, slots: map<nat, nat>)
    requires Slotted(s, init, bits, slots) && AllRoomy(s.net.pools, bits) && x !in s.owners
    ensures var slot := Free(slots.Values);
      if Granted(s.net.pools, |s.net.pools|).ok then Slotted(Next(s, Create(x)), init, bits, slots[x := slot])
      else Slotted(Next(s, Create(x)), init, bits, slots)
  {
    var taken, slot, pools := slots.Values, Free(slots.Values), s.net.pools;
    var g := Granted(pools, |pools|);
    GrantedSlots(init, bits, pools, taken, |pools|);
    if g.ok {
      var slots' := slots[x := slot];
      assert slots'.Values == taken + {slot} by { ValuesAdd(slots, x, slot); }
      MarksSame(init, bits, g.pools, |pools|, taken + {slot}, taken);
    } else {
      ReturnSlots(init, bits, g.pools, |g.addrs|, taken + {slot}, taken, slot);
      assert taken + {slot} - {slot} == taken;
      MarksSame(init, bits, Returned(g.pools, g.addrs), |g.addrs|, taken, taken);
    }
  }

  lemma {:induction false} ValuesAdd(slots: map<nat, nat>, x: nat, s: nat)
    requires x !in slots
    ensures slots[x := s].Values == slots.Values + {s}
  {
    var m := slots[x := s];
    assert m[x] == s;
    forall y | y in slots ensures slots[y] in m.Values { assert m[y] == slots[y]; }
  }

  lemma {:induction false} ValuesRemove(slots: map<nat, nat>, x: nat)
    requires x in slots && Injective(slots)
    ensures (slots - {x}).Values == slots.Values - {slots[x]}
  {
    var m := slots - {x};
    forall y | y in slots && y != x ensures slots[y] in m.Values { assert m[y] == slots[y]; }
  }

  lemma {:induction false} DetachSlots(s: Sys, x: nat, init: seq<State>, bits: seq<nat>, slots: map<nat, nat>)
    requires Slotted(s, init, bits, slots) && AllRoomy(s.net.pools, bits)
    ensures Slotted(Next(s, Detach(x)), init, bits, slots - {x})
  {
    if x in s.owners {
      var taken, pools := slots.Values, s.net.pools;
      forall k | 0 <= k < |pools| ensures Counted(pools[k], bits[k]) { assert Roomy(pools[k], bits[k]); TakeRoom(pools[k], bits[k]); }
      assert slots[x] in taken;
      ReturnSlots(init, bits, pools, |init|, taken, taken, slots[x]);
      ValuesRemove(slots, x);
      MarksSame(init, bits, Returned(pools, s.owners[x]), |init|, taken - {slots[x]}, taken);
    } else {
      assert slots - {x} == slots;
    }
  }

  function NextSlots(s: Sys, a: Act, slots: map<nat, nat>, slot: nat): map<nat, nat> {
    match a
    case Create(x) => if Granted(s.net.pools, |s.net.pools|).ok then slots[x := slot] else slots
    case Detach(x) => slots - {x}
  }

  lemma {:induction false} StepSlots(s: Sys, a: Act, init: seq<State>, bits: seq<nat>, slots: map<nat, nat>, limit: nat)
    requires Slotted(s, init, bits, slots) && AllRoomy(s.net.pools, bits) && Enabled(s, a, limit)
    ensures Slotted(Next(s, a), init, bits, NextSlots(s, a, slots, Free(slots.Values)))
  {
    match a
    case Create(x) => CreateSlots(s, x, init, bits, slots);
    case Detach(x) => DetachSlots(s, x, init, bits, slots);
  }

  lemma {:induction false} InitSlots(init: seq<State>, bits: seq<nat>)
    requires Unused(init, bits)
    ensures Slotted(Sys(Net(init, map[]), map[], false), init, bits, map[])
  {
    var none: map<nat, nat> := map[];
    forall k | 0 <= k < |init| ensures MarkedAt(init, bits, init, k, none.Values) {
      assert Marked(init[k], {}) && Good(init[k], bits[k]);
    }
  }

  // ----- how far the slots reach

  lemma {:induction false} AtMostKeys(m: map<nat, nat>)
    ensures |m.Values| <= |m|
    decreases |m|
  {
    if m.Values != {} {
      var v :| v in m.Values;
      var x :| x in m && m[x] == v;
      var rest := m - {x};
      AtMostKeys(rest);
      assert rest.Keys == m.Keys - {x} && |rest| == |rest.Keys| && |m| == |m.Keys|;
      Covered(m.Values - {v}, rest.Values, m, x);
    }
  }

  lemma {:induction false} Covered(a: set<nat>, b: set<nat>, m: map<nat, nat>, x: nat)
    requires x in m && a == m.Values - {m[x]} && b == (m - {x}).Values
    ensures |a| <= |b|
  {
    forall v | v in a ensures v in b {
      var y :| y in m && m[y] == v;
      assert (m - {x})[y] == v;
    }
    Subset(a, b);
  }

  lemma {:induction false} Subset(a: set<nat>, b: set<nat>)
    requires a <= b
    ensures |a| <= |b|
  {
    assert b == a + (b - a);
  }

  lemma {:induction false} Below(k: nat) returns (r: set<nat>)
    ensures |r| == k && forall j :: j in r <==> 0 <= j < k
  {
    r := {};
    if k > 0 {
      r := Below(k - 1);
      r := r + {k - 1};
    }
  }

  /** The lowest free slot is not past the number of slots in use. */
  lemma {:induction false} FreeAtMost(slots: map<nat, nat>)
    ensures Free(slots.Values) <= |slots|
  {
    var r := Below(Free(slots.Values));
    Subset(r, slots.Values);
    AtMostKeys(slots);
  }

  /** Slots and words stay within what `limit` namespaces need. */
  ghost predicate Within(s: Sys, slots: map<nat, nat>, limit: nat) {
    && (forall x :: x in slots ==> slots[x] < limit)
    && WordsWithin(s.net.pools, limit)
  }

  ghost predicate WordsWithin(pools: seq<State>, limit: nat) {
    forall k :: 0 <= k < |pools| ==> 64 * |pools[k].words| <= limit + 63
  }

  lemma {:induction false} WithinRoomy(pools: seq<State>, bits: seq<nat>, limit: nat)
    requires |pools| == |bits| && WordsWithin(pools, limit) && limit <= MOST
    ensures AllRoomy(pools, bits)
  {
  }

  lemma {:induction false} TakeWithin(p: State, taken: set<nat>, limit: nat)
    requires Marked(p, taken) && Free(taken) < limit && 64 * |p.words| <= limit + 63
    ensures 64 * |Take(p).0.words| <= limit + 63
  {
    var i, s := FirstZero(p.words, 0), Free(taken);
    assert s < i ==> HasBit(p.words, s);
  }

  lemma {:induction false} GrantedWithin(init: seq<State>, bits: seq<nat>, pools: seq<State>, taken: set<nat>, k: nat, limit: nat)
    requires AllMarked(init, bits, pools, taken) && WordsWithin(pools, limit) && Free(taken) < limit && k <= |pools|
    ensures WordsWithin(Granted(pools, k).pools, limit)
  {
    if k > 0 {
      GrantedWithin(init, bits, pools, taken, k - 1, limit);
      var g := Granted(pools, k - 1);
      if g.ok {
        assert MarkedAt(init, bits, pools, k - 1, taken) && g.pools[k - 1] == pools[k - 1];
        TakeWithin(pools[k - 1], taken, limit);
      }
    }
  }

  lemma {:induction false} ReturnedWithin(pools: seq<State>, addrs: seq<Addr>, limit: nat)
    requires Returnable(pools, addrs) && WordsWithin(pools, limit)
    ensures WordsWithin(Returned(pools, addrs), limit)
  {
  }

  lemma {:induction false} CreateWithin(s: Sys, x: nat, init: seq<State>, bits: seq<nat>, slots: map<nat, nat>, limit: nat)
    requires Slotted(s, init, bits, slots) && Within(s, slots, limit) && Free(slots.Values) < limit
    ensures WordsWithin(Next(s, Create(x)).net.pools, limit)
  {
    GrantedWithin(init, bits, s.net.pools, slots.Values, |s.net.pools|, limit);
    var g := Granted(s.net.pools, |s.net.pools|);
    if !g.ok && Returnable(g.pools, g.addrs) { ReturnedWithin(g.pools, g.addrs, limit); }
  }

  lemma {:induction false} DetachWithin(s: Sys, x: nat, limit: nat)
    requires WordsWithin(s.net.pools, limit)
    ensures WordsWithin(Next(s, Detach(x)).net.pools, limit)
  {
    if x in s.owners && Returnable(s.net.pools, s.owners[x]) { ReturnedWithin(s.net.pools, s.owners[x], limit); }
  }

  /** A creation that may happen finds a slot below the limit. */
  lemma {:induction false} NextBelow(s: Sys, init: seq<State>, bits: seq<nat>, slots: map<nat, nat>, limit: nat)
    requires Slotted(s, init, bits, slots) && |s.owners| < limit
    ensures Free(slots.Values) < limit
  {
    assert |slots| == |slots.Keys| && |s.owners| == |s.owners.Keys|;
    FreeAtMost(slots);
  }

  lemma {:induction false} StepWithin(s: Sys, a: Act, init: seq<State>, bits: seq<nat>, slots: map<nat, nat>, limit: nat)
    requires Slotted(s, init, bits, slots) && Within(s, slots, limit) && Enabled(s, a, limit)
    ensures Within(Next(s, a), NextSlots(s, a, slots, Free(slots.Values)), limit)
  {
    match a
    case Create(x) =>
      NextBelow(s, init, bits, slots, limit);
      CreateWithin(s, x, init, bits, slots, limit);
    case Detach(x) => DetachWithin(s, x, limit);
  }

  lemma {:induction false} SlottedAgree(s: Sys, init: seq<State>, bits: seq<nat>, slots: map<nat, nat>)
    requires Slotted(s, init, bits, slots)
    ensures PoolsAgree(s)
  {
    forall k, a | 0 <= k < |s.net.pools|
      ensures Out(s.net.pools[k], a) <==> exists x :: x in s.owners && a >= 0 && s.owners[x][k] == Addr(s.net.pools[k].family, a)
    {
      SlottedOut(s, init, bits, slots, k, a);
    }
  }

  lemma {:induction false} SlottedOut(s: Sys, init: seq<State>, bits: seq<nat>, slots: map<nat, nat>, k: nat, a: int)
    requires Slotted(s, init, bits, slots) && k < |s.net.pools|
    ensures Out(s.net.pools[k], a) <==> exists x :: x in s.owners && a >= 0 && s.owners[x][k] == Addr(s.net.pools[k].family, a)
  {
    var p := s.net.pools[k];
    assert MarkedAt(init, bits, s.net.pools, k, slots.Values);
    if Out(p, a) {
      assert a - p.base in slots.Values;
      var x :| x in slots && slots[x] == a - p.base;
      assert s.owners[x][k] == At(init[k], slots[x]);
    }
    if x :| x in s.owners && a >= 0 && s.owners[x][k] == Addr(p.family, a) {
      assert slots[x] in slots.Values && HasBit(p.words, slots[x]);
    }
  }

  lemma {:induction false} RunSlots(run: seq<Sys>, init: seq<State>, bits: seq<nat>, limit: nat, i: nat) returns (slots: map<nat, nat>)
    requires Run(run, init, bits, limit) && i < |run|
    ensures Slotted(run[i], init, bits, slots) && Within(run[i], slots, limit)
    ensures Separated(init, bits, limit) ==> RoutesAgree(run[i])
  {
    if i == 0 {
      slots := map[];
      InitSlots(init, bits);
    } else {
      var before := RunSlots(run, init, bits, limit, i - 1);
      assert Step(run[i - 1], run[i - 1 + 1], limit);
      var a :| Enabled(run[i - 1], a, limit) && run[i] == Next(run[i - 1], a);
      slots := NextSlots(run[i - 1], a, before, Free(before.Values));
      NextState(run[i - 1], a, init, bits, before, limit);
    }
  }

  lemma {:induction false} NextState(s: Sys, a: Act, init: seq<State>, bits: seq<nat>, slots: map<nat, nat>, limit: nat)
    requires Slotted(s, init, bits, slots) && Within(s, slots, limit) && Enabled(s, a, limit) && limit <= MOST
    ensures var slots' := NextSlots(s, a, slots, Free(slots.Values));
      Slotted(Next(s, a), init, bits, slots') && Within(Next(s, a), slots', limit)
    ensures Separated(init, bits, limit) && RoutesAgree(s) ==> RoutesAgree(Next(s, a))
  {
    WithinRoomy(s.net.pools, bits, limit);
    StepSlots(s, a, init, bits, slots, limit);
    StepWithin(s, a, init, bits, slots, limit);
    if Separated(init, bits, limit) && RoutesAgree(s) { StepRoutes(s, a, init, bits, slots, limit); }
  }

  // ----- routes agree when pools do not get in each other's way

  /** Pools `i` and `j` of one family, `j` starting `d` addresses after `i`: some pool is
      exhausted before pool `i` gets that far, and no later than pool `i` is asked; or there
      are never that many namespaces. */
  ghost predicate SeparatedAt(init: seq<State>, bits: seq<nat>, limit: nat, i: nat, j: nat)
    requires i < |init| == |bits| && j < |init| && Config(init, bits)
  {
    init[i].family == init[j].family && init[i].base < init[j].base ==>
      init[j].base - init[i].base >= limit || exists k :: 0 <= k < |init| && Stops(init, bits, k, i, j)
  }

  ghost predicate Stops(init: seq<State>, bits: seq<nat>, k: nat, i: nat, j: nat)
    requires k < |init| == |bits| && i < |init| && j < |init| && Config(init, bits)
  {
    var d := init[j].base - init[i].base;
    Cap(init[k], bits[k]) < d || (Cap(init[k], bits[k]) == d && k <= i)
  }

  ghost predicate Separated(init: seq<State>, bits: seq<nat>, limit: nat) {
    Config(init, bits) && forall i, j :: 0 <= i < |init| && 0 <= j < |init| ==> SeparatedAt(init, bits, limit, i, j)
  }

  /** Slots in use are below the capacity of every pool. */
  lemma {:induction false} SlotFits(s: Sys, init: seq<State>, bits: seq<nat>, slots: map<nat, nat>, x: nat, k: nat)
    requires Slotted(s, init, bits, slots) && Config(init, bits) && x in slots && k < |init|
    ensures slots[x] < Cap(init[k], bits[k])
  {
    assert MarkedAt(init, bits, s.net.pools, k, slots.Values);
    assert slots[x] in slots.Values;
    var p := s.net.pools[k];
    assert Out(p, p.base + slots[x]);
    assert p.base + slots[x] < End(p, bits[k]);
  }

  /** Two slots whose addresses in different pools are the same. */
  lemma {:induction false} NoClash(s: Sys, init: seq<State>, bits: seq<nat>, limit: nat, slots: map<nat, nat>, i: nat, t: nat, m: nat, j: nat, y: nat)
    requires Slotted(s, init, bits, slots) && Separated(init, bits, limit) && i < m <= |init| && j < |init| && y in slots
    requires At(init[i], t) == At(init[j], slots[y]) && Tried(init, bits, slots, t, m) && t < limit && slots[y] < limit
    ensures t == slots[y]
  {
    assert SeparatedAt(init, bits, limit, i, j) && SeparatedAt(init, bits, limit, j, i);
    if init[i].base != init[j].base {
      var k :| 0 <= k < |init| && if init[i].base < init[j].base then Stops(init, bits, k, i, j) else Stops(init, bits, k, j, i);
      BelowCap(s, init, bits, slots, t, m, y, k);
      NotStopped(init, bits, slots, i, t, m, j, y, k);
    }
  }

  lemma {:induction false} NotStopped(init: seq<State>, bits: seq<nat>, slots: map<nat, nat>, i: nat, t: nat, m: nat, j: nat, y: nat, k: nat)
    requires Config(init, bits) && i < m <= |init| && j < |init| && k < |init| && y in slots
    requires init[i].base + t == init[j].base + slots[y] && Under(init, bits, slots, t, m, y, k)
    ensures init[i].base < init[j].base ==> !Stops(init, bits, k, i, j)
    ensures init[j].base < init[i].base ==> !Stops(init, bits, k, j, i)
  {
  }

  ghost predicate Under(init: seq<State>, bits: seq<nat>, slots: map<nat, nat>, t: nat, m: nat, y: nat, k: nat)
    requires k < |init| && Config(init, bits) && y in slots
  {
    var c := Cap(init[k], bits[k]);
    slots[y] < c && (if m == |init| || k < m then t < c else t <= c) && (k == m ==> t == c)
  }

  lemma {:induction false} BelowCap(s: Sys, init: seq<State>, bits: seq<nat>, slots: map<nat, nat>, t: nat, m: nat, y: nat, k: nat)
    requires Slotted(s, init, bits, slots) && Config(init, bits) && m <= |init| && k < |init| && y in slots && Tried(init, bits, slots, t, m)
    ensures Under(init, bits, slots, t, m, y, k)
  {
    SlotFits(s, init, bits, slots, y, k);
    assert Good(init[k], bits[k]);
    if t in slots.Values {
      var x :| x in slots && slots[x] == t;
      SlotFits(s, init, bits, slots, x, k);
    } else {
      FreeReaches(s, init, bits, slots, k);
      if k < m { assert Fits(init, bits, k, t); }
    }
  }

  lemma {:induction false} FreeReaches(s: Sys, init: seq<State>, bits: seq<nat>, slots: map<nat, nat>, k: nat)
    requires Slotted(s, init, bits, slots) && Config(init, bits) && k < |init|
    ensures Free(slots.Values) <= Cap(init[k], bits[k])
  {
    var t := Free(slots.Values);
    if t > 0 {
      assert t - 1 in slots.Values;
      var x :| x in slots && slots[x] == t - 1;
      SlotFits(s, init, bits, slots, x, k);
    }
  }

  lemma {:induction false} InRow(init: seq<State>, s: nat, m: nat, a: Addr) returns (k: nat)
    requires m <= |init| && a in Row(init, s, m)
    ensures k < m && a == At(init[k], s)
  {
    k :| 0 <= k < m && Row(init, s, m)[k] == a;
  }

  /** Slot `t` is in use, or it is the slot that a creation tries in the first `m` pools before
      it fails. */
  ghost predicate Tried(init: seq<State>, bits: seq<nat>, slots: map<nat, nat>, t: nat, m: nat) {
    || (t in slots.Values && m == |init|)
    || (t == Free(slots.Values) && m < |init| == |bits| && !Fits(init, bits, m, t) && forall k :: 0 <= k < m ==> Fits(init, bits, k, t))
  }

  /** Addresses of different slots in use, or being tried, are different. */
  lemma {:induction false} RowsApart(s: Sys, init: seq<State>, bits: seq<nat>, limit: nat, slots: map<nat, nat>, t: nat, m: nat, y: nat)
    requires Slotted(s, init, bits, slots) && Separated(init, bits, limit) && m <= |init| && y in slots && slots[y] != t && Tried(init, bits, slots, t, m)
    requires t < limit && slots[y] < limit
    ensures forall a :: a in s.owners[y] ==> a !in Row(init, t, m)
  {
    forall a | a in s.owners[y] && a in Row(init, t, m) ensures false {
      var i := InRow(init, t, m, a);
      var j := InRow(init, slots[y], |init|, a);
      NoClash(s, init, bits, limit, slots, i, t, m, j, y);
    }
  }

  ghost predicate Creating(s: Sys, x: nat, init: seq<State>, bits: seq<nat>, slots: map<nat, nat>, limit: nat) {
    && Slotted(s, init, bits, slots) && AllRoomy(s.net.pools, bits) && Within(s, slots, limit)
    && Separated(init, bits, limit) && RoutesAgree(s) && x !in s.owners && Free(slots.Values) < limit
  }

  lemma {:induction false} GrantedRoutes(s: Sys, x: nat, init: seq<State>, bits: seq<nat>, slots: map<nat, nat>, limit: nat)
    requires Creating(s, x, init, bits, slots, limit) && Granted(s.net.pools, |s.net.pools|).ok
    ensures RoutesAgree(Next(s, Create(x)))
  {
    var g, s' := Granted(s.net.pools, |s.net.pools|), Next(s, Create(x));
    CreateSlots(s, x, init, bits, slots);
    assert g.addrs == Row(init, Free(slots.Values), |init|) by {
      assert slots[x := Free(slots.Values)][x] == Free(slots.Values) && s'.owners[x] == g.addrs;
    }
    AttachedApart(s, s', x, init, bits, slots, limit);
    AttachedAgree(s, s', x, g.addrs);
  }

  lemma {:induction false} RefusedRoutes(s: Sys, x: nat, init: seq<State>, bits: seq<nat>, slots: map<nat, nat>, limit: nat)
    requires Creating(s, x, init, bits, slots, limit) && !Granted(s.net.pools, |s.net.pools|).ok
    ensures RoutesAgree(Next(s, Create(x)))
  {
    var g, s' := Granted(s.net.pools, |s.net.pools|), Next(s, Create(x));
    GrantedSlots(init, bits, s.net.pools, slots.Values, |s.net.pools|);
    TriedApart(s, init, bits, slots, limit, |g.addrs|);
    CreateSlots(s, x, init, bits, slots);
    TriedAgree(s, s', g.addrs);
  }

  lemma {:induction false} AttachedApart(s: Sys, s': Sys, x: nat, init: seq<State>, bits: seq<nat>, slots: map<nat, nat>, limit: nat)
    requires Within(s, slots, limit) && Free(slots.Values) < limit
    requires Slotted(s, init, bits, slots) && Separated(init, bits, limit) && x !in s.owners && Slotted(s', init, bits, slots[x := Free(slots.Values)])
    ensures forall y :: y in s.owners ==> forall a :: a in s.owners[y] ==> a !in Row(init, Free(slots.Values), |init|)
  {
    var t := Free(slots.Values);
    ValuesAdd(slots, x, t);
    forall y | y in s.owners ensures forall a :: a in s.owners[y] ==> a !in Row(init, t, |init|) {
      assert slots[y] in slots.Values && s'.owners[y] == s.owners[y];
      RowsApart(s', init, bits, limit, slots[x := t], t, |init|, y);
    }
  }

  lemma {:induction false} TriedApart(s: Sys, init: seq<State>, bits: seq<nat>, slots: map<nat, nat>, limit: nat, m: nat)
    requires Within(s, slots, limit) && Free(slots.Values) < limit
    requires Slotted(s, init, bits, slots) && Separated(init, bits, limit) && m < |init| && Tried(init, bits, slots, Free(slots.Values), m)
    ensures forall y :: y in s.owners ==> forall a :: a in s.owners[y] ==> a !in Row(init, Free(slots.Values), m)
  {
    forall y | y in s.owners ensures forall a :: a in s.owners[y] ==> a !in Row(init, Free(slots.Values), m) {
      assert slots[y] in slots.Values;
      RowsApart(s, init, bits, limit, slots, Free(slots.Values), m, y);
    }
  }

  lemma {:induction false} TriedAgree(s: Sys, s': Sys, addrs: seq<Addr>)
    requires RoutesAgree(s) && s'.owners == s.owners && s'.net.routes == Without(s.net.routes, addrs)
    requires forall y :: y in s.owners ==> forall a :: a in s.owners[y] ==> a !in addrs
    ensures RoutesAgree(s')
  {
  }

  lemma {:induction false} AttachedAgree(s: Sys, s': Sys, x: nat, addrs: seq<Addr>)
    requires RoutesAgree(s) && x !in s.owners && s'.owners == s.owners[x := addrs] && s'.net.routes == Attached(s.net.routes, addrs, x)
    requires forall y :: y in s.owners ==> forall a :: a in s.owners[y] ==> a !in addrs
    ensures RoutesAgree(s')
  {
  }

  lemma {:induction false} DetachedAgree(s: Sys, s': Sys, x: nat)
    requires RoutesAgree(s) && x in s.owners && s'.owners == s.owners - {x} && s'.net.routes == Without(s.net.routes, s.owners[x])
    ensures RoutesAgree(s')
  {
  }

  lemma {:induction false} DetachRoutes(s: Sys, x: nat, init: seq<State>, bits: seq<nat>, slots: map<nat, nat>)
    requires Slotted(s, init, bits, slots) && AllRoomy(s.net.pools, bits) && RoutesAgree(s)
    ensures RoutesAgree(Next(s, Detach(x)))
  {
    DetachSlots(s, x, init, bits, slots);
    if x in s.owners { DetachedAgree(s, Next(s, Detach(x)), x); }
  }

  lemma {:induction false} StepRoutes(s: Sys, a: Act, init: seq<State>, bits: seq<nat>, slots: map<nat, nat>, limit: nat)
    requires Slotted(s, init, bits, slots) && AllRoomy(s.net.pools, bits) && Within(s, slots, limit)
    requires Separated(init, bits, limit) && RoutesAgree(s) && Enabled(s, a, limit)
    ensures RoutesAgree(Next(s, a))
  {
    match a
    case Create(x) =>
      NextBelow(s, init, bits, slots, limit);
      if Granted(s.net.pools, |s.net.pools|).ok { GrantedRoutes(s, x, init, bits, slots, limit); } else { RefusedRoutes(s, x, init, bits, slots, limit); }
    case Detach(x) => DetachRoutes(s, x, init, bits, slots);
  }

  // ----- every run

  /** In every run no return of an address panics, the addresses out of each pool are those of
      the attached namespaces, and, when the pools are separated, so are the routes. */
  lemma {:induction false} RunAgrees(run: seq<Sys>, init: seq<State>, bits: seq<nat>, limit: nat, i: nat)
    requires Run(run, init, bits, limit) && i < |run|
    ensures !run[i].panicked && PoolsAgree(run[i]) && (Separated(init, bits, limit) ==> RoutesAgree(run[i]))
  {
    var slots := RunSlots(run, init, bits, limit, i);
    SlottedAgree(run[i], init, bits, slots);
  }

  // ----- the condition is exact

  function Last(run: seq<Sys>): Sys
    requires run != []
  {
    run[|run| - 1]
  }

  /** A run whose last state has namespaces at given slots. */
  ghost predicate Reached(run: seq<Sys>, init: seq<State>, bits: seq<nat>, limit: nat, slots: map<nat, nat>) {
    Run(run, init, bits, limit) && Slotted(Last(run), init, bits, slots) && Within(Last(run), slots, limit)
  }

  lemma {:induction false} Extend(run: seq<Sys>, init: seq<State>, bits: seq<nat>, limit: nat, slots: map<nat, nat>, a: Act) returns (longer: seq<Sys>)
    requires Reached(run, init, bits, limit, slots) && Enabled(Last(run), a, limit)
    ensures Reached(longer, init, bits, limit, NextSlots(Last(run), a, slots, Free(slots.Values))) && Last(longer) == Next(Last(run), a)
  {
    var s := Next(Last(run), a);
    NextState(Last(run), a, init, bits, slots, limit);
    longer := run + [s];
    forall i | 0 <= i < |longer| - 1 ensures Step(longer[i], longer[i + 1], limit) {
      if i < |run| - 1 { assert Step(run[i], run[i + 1], limit); } else { assert longer[i + 1] == Next(longer[i], a); }
    }
  }

  function Ids(k: nat): (m: map<nat, nat>)
    ensures forall i :: i in m <==> 0 <= i < k
    ensures forall i :: i in m ==> m[i] == i
    ensures |m| == k
  {
    if k == 0 then map[] else
      var m := Ids(k - 1)[k - 1 := k - 1];
      assert m.Keys == Ids(k - 1).Keys + {k - 1};
      m
  }

  lemma {:induction false} IdsFree(k: nat)
    ensures Free(Ids(k).Values) == k
  {
    forall i | 0 <= i < k ensures i in Ids(k).Values { assert Ids(k)[i] == i; }
    var f := Free(Ids(k).Values);
    assert k !in Ids(k).Values;
    assert f > k ==> k in Ids(k).Values;
  }

  lemma {:induction false} IdsEnabled(s: Sys, init: seq<State>, bits: seq<nat>, limit: nat, k: nat)
    requires Slotted(s, init, bits, Ids(k)) && k < limit
    ensures Enabled(s, Create(k), limit)
  {
    assert |s.owners| == |s.owners.Keys| && |Ids(k)| == |Ids(k).Keys|;
    assert k !in Ids(k).Keys;
  }

  ghost predicate AllHave(init: seq<State>, bits: seq<nat>, k: nat)
    requires Config(init, bits)
  {
    forall j :: 0 <= j < |init| ==> k <= Cap(init[j], bits[j])
  }

  lemma {:induction false} AllHaveLess(init: seq<State>, bits: seq<nat>, k: nat, l: nat)
    requires Config(init, bits) && AllHave(init, bits, k) && l <= k
    ensures AllHave(init, bits, l)
  {
  }

  /** When every pool has the next slot, a creation is granted it. */
  lemma {:induction false} CreateFits(s: Sys, init: seq<State>, bits: seq<nat>, limit: nat, slots: map<nat, nat>)
    requires Slotted(s, init, bits, slots) && Within(s, slots, limit) && limit <= MOST
    requires Config(init, bits) && AllHave(init, bits, Free(slots.Values) + 1)
    ensures Granted(s.net.pools, |s.net.pools|).ok
  {
    WithinRoomy(s.net.pools, bits, limit);
    GrantedSlots(init, bits, s.net.pools, slots.Values, |s.net.pools|);
    forall j | 0 <= j < |init| ensures Fits(init, bits, j, Free(slots.Values)) { assert Good(init[j], bits[j]); }
  }

  lemma {:induction false} NextId(s: Sys, init: seq<State>, bits: seq<nat>, limit: nat, k: nat)
    requires Slotted(s, init, bits, Ids(k)) && Within(s, Ids(k), limit) && limit <= MOST
    requires Config(init, bits) && AllHave(init, bits, k + 1) && k < limit
    ensures Enabled(s, Create(k), limit) && NextSlots(s, Create(k), Ids(k), Free(Ids(k).Values)) == Ids(k + 1)
  {
    IdsFree(k);
    IdsEnabled(s, init, bits, limit, k);
    CreateFits(s, init, bits, limit, Ids(k));
  }

  lemma {:induction false} CreateAnother(shorter: seq<Sys>, init: seq<State>, bits: seq<nat>, limit: nat, k: nat) returns (run: seq<Sys>)
    requires Reached(shorter, init, bits, limit, Ids(k)) && AllHave(init, bits, k + 1) && k < limit
    ensures Reached(run, init, bits, limit, Ids(k + 1))
  {
    NextId(Last(shorter), init, bits, limit, k);
    run := Extend(shorter, init, bits, limit, Ids(k), Create(k));
  }

  /** `k` namespaces created one after the other take the slots from zero on. */
  lemma {:induction false} CreateMany(init: seq<State>, bits: seq<nat>, limit: nat, k: nat) returns (run: seq<Sys>)
    requires Unused(init, bits) && AllHave(init, bits, k) && k <= limit <= MOST
    ensures Reached(run, init, bits, limit, Ids(k))
  {
    if k == 0 {
      run := [Sys(Net(init, map[]), map[], false)];
      InitSlots(init, bits);
    } else {
      AllHaveLess(init, bits, k, k - 1);
      var shorter := CreateMany(init, bits, limit, k - 1);
      run := CreateAnother(shorter, init, bits, limit, k - 1);
    }
  }

  lemma {:induction false} TwoOwners(s: Sys, x: nat, y: nat, i: nat, j: nat)
    requires x in s.owners && y in s.owners && i < |s.owners[x]| && j < |s.owners[y]| && s.owners[x][i] == s.owners[y][j]
    ensures RoutesAgree(s) ==> x == y
  {
    var a := s.owners[x][i];
    assert a in s.owners[x] && a in s.owners[y];
    if RoutesAgree(s) { assert s.net.routes[a] == x; }
  }

  lemma {:induction false} OwnedRow(s: Sys, init: seq<State>, bits: seq<nat>, k: nat, x: nat, i: nat)
    requires Slotted(s, init, bits, Ids(k)) && x < k && i < |init|
    ensures x in s.owners && i < |s.owners[x]| && s.owners[x][i] == At(init[i], x)
  {
    assert x in Ids(k);
  }

  /** Two namespaces come to have the same address in different pools. */
  lemma {:induction false} SameAddress(init: seq<State>, bits: seq<nat>, limit: nat, i: nat, j: nat) returns (run: seq<Sys>)
    requires Unused(init, bits) && i < |init| && j < |init| && init[i].family == init[j].family && init[i].base < init[j].base
    requires init[j].base - init[i].base < limit <= MOST && AllHave(init, bits, init[j].base - init[i].base + 1)
    ensures Run(run, init, bits, limit) && !RoutesAgree(Last(run))
  {
    var d := init[j].base - init[i].base;
    run := CreateMany(init, bits, limit, d + 1);
    OwnedRow(Last(run), init, bits, d + 1, d, i);
    OwnedRow(Last(run), init, bits, d + 1, 0, j);
    TwoOwners(Last(run), d, 0, i, j);
  }

  /** When slot `d` is next and pool `k` does not have it, pool `i` is asked before the pool
      that ends the creation. */
  lemma {:induction false} FailsAfter(s: Sys, init: seq<State>, bits: seq<nat>, i: nat, j: nat, k: nat, d: nat)
    requires Slotted(s, init, bits, Ids(d)) && AllRoomy(s.net.pools, bits) && Config(init, bits) && i < |init| && j < |init| && k < |init|
    requires d == init[j].base - init[i].base == Cap(init[k], bits[k])
    requires forall l :: 0 <= l < |init| ==> !Stops(init, bits, l, i, j)
    ensures var g := Granted(s.net.pools, |s.net.pools|);
      !g.ok && i < |g.addrs| && g.addrs[i] == At(init[i], d)
  {
    IdsFree(d);
    var g := Granted(s.net.pools, |s.net.pools|);
    GrantedSlots(init, bits, s.net.pools, Ids(d).Values, |s.net.pools|);
    assert g.ok ==> Fits(init, bits, k, d);
    assert Good(init[|g.addrs|], bits[|g.addrs|]) && !Stops(init, bits, |g.addrs|, i, j);
  }

  lemma {:induction false} LostInFailure(s: Sys, x: nat, y: nat, j: nat, a: Addr)
    requires var g := Granted(s.net.pools, |s.net.pools|); !g.ok && a in g.addrs
    requires !Next(s, Create(x)).panicked && y in s.owners && j < |s.owners[y]| && s.owners[y][j] == a
    ensures !RoutesAgree(Next(s, Create(x)))
  {
    var s' := Next(s, Create(x));
    assert s'.owners[y] == s.owners[y] && a in s'.owners[y] && a !in s'.net.routes;
  }

  /** A creation that fails takes away the route of another namespace. */
  lemma {:induction false} RouteLost(init: seq<State>, bits: seq<nat>, limit: nat, i: nat, j: nat, k: nat) returns (run: seq<Sys>)
    requires Unused(init, bits) && i < |init| && j < |init| && k < |init| && init[i].family == init[j].family && init[i].base < init[j].base
    requires Cap(init[k], bits[k]) == init[j].base - init[i].base < limit <= MOST
    requires forall l :: 0 <= l < |init| ==> !Stops(init, bits, l, i, j)
    ensures Run(run, init, bits, limit) && !RoutesAgree(Last(run))
  {
    var d := init[j].base - init[i].base;
    forall l | 0 <= l < |init| ensures d <= Cap(init[l], bits[l]) { assert !Stops(init, bits, l, i, j); }
    var before := CreateMany(init, bits, limit, d);
    var s := Last(before);
    WithinRoomy(s.net.pools, bits, limit);
    FailsAfter(s, init, bits, i, j, k, d);
    OwnedRow(s, init, bits, d, 0, j);
    CreateSlots(s, d, init, bits, Ids(d));
    LostInFailure(s, d, 0, j, At(init[i], d));
    IdsEnabled(s, init, bits, limit, d);
    run := Extend(before, init, bits, limit, Ids(d), Create(d));
  }

  /** However many namespaces may be attached at a time, the routes agree in every run exactly
      when the pools are separated. */
  lemma {:induction false} RoutesAgreeExactly(init: seq<State>, bits: seq<nat>, limit: nat)
    requires Unused(init, bits) && limit <= MOST
    ensures Separated(init, bits, limit) <==>
      forall run, i :: Run(run, init, bits, limit) && 0 <= i < |run| ==> RoutesAgree(run[i])
  {
    if Separated(init, bits, limit) {
      forall run, i | Run(run, init, bits, limit) && 0 <= i < |run| ensures RoutesAgree(run[i]) { RunAgrees(run, init, bits, limit, i); }
    } else {
      var run := RoutesDisagree(init, bits, limit);
      assert !RoutesAgree(run[|run| - 1]);
    }
  }

  lemma {:induction false} RoutesDisagree(init: seq<State>, bits: seq<nat>, limit: nat) returns (run: seq<Sys>)
    requires Unused(init, bits) && !Separated(init, bits, limit) && limit <= MOST
    ensures Run(run, init, bits, limit) && !RoutesAgree(Last(run))
  {
    var i, j :| 0 <= i < |init| && 0 <= j < |init| && !SeparatedAt(init, bits, limit, i, j);
    var d := init[j].base - init[i].base;
    if k :| 0 <= k < |init| && Cap(init[k], bits[k]) == d {
      run := RouteLost(init, bits, limit, i, j, k);
    } else {
      forall k | 0 <= k < |init| ensures d < Cap(init[k], bits[k]) { assert !Stops(init, bits, k, i, j); }
      run := SameAddress(init, bits, limit, i, j);
    }
  }
}

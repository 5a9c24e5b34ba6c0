/** The virtual network of internal/sandbox/local.go: every namespace gets one address of each
    pool, and a routing table sends each address to the namespace that has it. */
module LocalNetwork {
  import opened Basics
  import opened Bitset
  import opened Ip
  import opened IpPool

  datatype Addr = Addr(family: Family, number: nat)

  /** What the network keeps: its pools, and the interface each address is routed to. */
  datatype Net<T> = Net(pools: seq<State>, routes: map<Addr, T>)

  // ----- creating and detaching

  /** Addresses obtained from the first pools, up to the first one that has none left. */
  datatype Grant = Grant(pools: seq<State>, addrs: seq<Addr>, ok: bool)

  function Granted(pools: seq<State>, k: nat): (g: Grant)
    requires k <= |pools|
    ensures |g.pools| == |pools| && (if g.ok then |g.addrs| == k else |g.addrs| < k)
    ensures forall j :: |g.addrs| <= j < |pools| ==> g.pools[j] == pools[j]
  {
    if k == 0 then Grant(pools, [], true)
    else
      var g := Granted(pools, k - 1);
      if !g.ok then g
      else
        var (p, a, got) := Take(g.pools[k - 1]);
        if got then Grant(g.pools[k - 1 := p], g.addrs + [Addr(p.family, a)], true) else g.(ok := false)
  }

  function Attached<T>(routes: map<Addr, T>, addrs: seq<Addr>, x: T): map<Addr, T> {
    routes + map a | a in addrs :: x
  }

  function Without<T>(routes: map<Addr, T>, addrs: seq<Addr>): map<Addr, T> { routes - set a | a in addrs }

  predicate Returnable(pools: seq<State>, addrs: seq<Addr>) {
    |addrs| <= |pools| && forall i :: 0 <= i < |addrs| ==> Give(pools[i], addrs[i].number).Some?
  }

  function Returned(pools: seq<State>, addrs: seq<Addr>): (r: seq<State>)
    requires Returnable(pools, addrs)
    ensures |r| == |pools|
  {
    seq(|pools|, i requires 0 <= i < |pools| => if i < |addrs| then Give(pools[i], addrs[i].number).value else pools[i])
  }

  /** Routes removed and addresses returned; None when returning one panics. */
  function Detached<T>(n: Net<T>, addrs: seq<Addr>): Option<Net<T>> {
    if Returnable(n.pools, addrs) then Some(Net(Returned(n.pools, addrs), Without(n.routes, addrs))) else None
  }

  /** The network after a namespace is created, with the addresses it got, if it got them. */
  function Created<T>(n: Net<T>, x: T): (Option<Net<T>>, Option<seq<Addr>>) {
    var g := Granted(n.pools, |n.pools|);
    if g.ok then (Some(Net(g.pools, Attached(n.routes, g.addrs, x))), Some(g.addrs))
    else (Detached(Net(g.pools, n.routes), g.addrs), None)
  }

  lemma {:induction false} AttachOne<T>(routes: map<Addr, T>, addrs: seq<Addr>, i: nat, x: T)
    requires i < |addrs|
    ensures Attached(routes, addrs[..i + 1], x) == Attached(routes, addrs[..i], x)[addrs[i] := x]
  {
    assert addrs[..i + 1] == addrs[..i] + [addrs[i]];
    var a, b := Attached(routes, addrs[..i + 1], x), Attached(routes, addrs[..i], x)[addrs[i] := x];
    assert a.Keys == b.Keys;
  }

  class LocalNamespace {
    var network: LocalNetwork?
    var addrs: seq<Addr>

    constructor ()
      ensures network == null && addrs == []
    {
      network, addrs := null, [];
    }

    /** Only the first call has an effect. */
    method Detach() returns (panicked: bool)
      requires network != null ==> |addrs| <= |network.ipams|
      modifies this`network, network
      ensures network == null && addrs == old(addrs)
      ensures old(network) == null ==> !panicked
      ensures old(network) != null ==> panicked == Detached(old(network.Value()), addrs).None?
      ensures old(network) != null && !panicked ==> old(network).Value() == Detached(old(network.Value()), addrs).value
    {
      var n := network;
      network := null;
      panicked := false;
      if n != null {
        panicked := n.Detach(addrs);
      }
    }
  }

  class LocalNetwork {
    var ipams: seq<State>
    var routes: map<Addr, LocalNamespace>

    ghost function Value(): Net<LocalNamespace> reads this { Net(ipams, routes) }

    constructor (prefixes: seq<(Addr, nat)>)
      ensures routes == map[] && |ipams| == |prefixes|
      ensures forall i :: 0 <= i < |prefixes| ==> ipams[i] == New(prefixes[i].0.family, prefixes[i].0.number, prefixes[i].1)
    {
      routes := map[];
      ipams := seq(|prefixes|, i requires 0 <= i < |prefixes| =>
        New(prefixes[i].0.family, prefixes[i].0.number, prefixes[i].1));
    }

    method CreateNamespace() returns (ns: LocalNamespace?, panicked: bool)
      modifies this
      ensures ns != null ==> fresh(ns) && ns.network == this && !panicked
      ensures ns != null ==> Created(old(Value()), ns) == (Some(Value()), Some(ns.addrs))
      ensures ns == null ==> var g := Granted(old(ipams), |old(ipams)|);
        !g.ok && panicked == Detached(Net(g.pools, old(routes)), g.addrs).None? &&
        (!panicked ==> Value() == Detached(Net(g.pools, old(routes)), g.addrs).value)
    {
      var en0 := new LocalNamespace();
      ghost var pools := ipams;
      for i := 0 to |ipams|
        invariant |ipams| == |pools| && Grant(ipams, en0.addrs, true) == Granted(pools, i)
        invariant routes == old(routes) && fresh(en0)
      {
        var (p, ip, ok) := Take(ipams[i]);
        ghost var g := Granted(pools, i + 1);
        if !ok {
          StopsHere(pools, i + 1, |pools|);
          panicked := Detach(en0.addrs);
          return null, panicked;
        }
        ipams := ipams[i := p];
        en0.addrs := en0.addrs + [Addr(p.family, ip)];
      }
      Attach(en0);
      en0.network := this;
      return en0, false;
    }

    method Attach(iface: LocalNamespace)
      modifies this`routes
      ensures routes == Attached(old(routes), iface.addrs, iface)
    {
      for i := 0 to |iface.addrs|
        invariant routes == Attached(old(routes), iface.addrs[..i], iface)
      {
        AttachOne(old(routes), iface.addrs, i, iface);
        routes := routes[iface.addrs[i] := iface];
      }
      assert iface.addrs[..|iface.addrs|] == iface.addrs;
    }

    method Detach(addrs: seq<Addr>) returns (panicked: bool)
      requires |addrs| <= |ipams|
      modifies this
      ensures panicked == Detached(old(Value()), addrs).None?
      ensures !panicked ==> Value() == Detached(old(Value()), addrs).value
    {
      for i := 0 to |addrs|
        invariant Returnable(old(ipams), addrs[..i])
        invariant ipams == Returned(old(ipams), addrs[..i]) && routes == Without(old(routes), addrs[..i])
      {
        routes := routes - {addrs[i]};
        var p := Give(ipams[i], addrs[i].number);
        if p.None? {
          return true;
        }
        ipams := ipams[i := p.value];
        assert addrs[..i + 1][i] == addrs[i];
      }
      assert addrs[..|addrs|] == addrs;
      return false;
    }
  }

  /** Once a pool has no address left, the later ones are not asked. */
  lemma {:induction false} StopsHere(pools: seq<State>, k: nat, n: nat)
    requires k <= n <= |pools| && !Granted(pools, k).ok
    ensures Granted(pools, n) == Granted(pools, k)
    decreases n
  {
    if k < n { StopsHere(pools, k, n - 1); }
  }
}

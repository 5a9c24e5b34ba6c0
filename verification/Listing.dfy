/** The merged listing of an overlay directory (internal/sandbox/ocifs/dir.go), and its
    agreement with lookup. */
module Listing {
  import opened Basics
  import opened OciTree
  import Overlay

  datatype Kind = Regular | Symlink | Directory

  function KindOf(n: Node): Kind {
    match n case File(_) => Regular case Link(_) => Symlink case Dir(_) => Directory
  }

  datatype Dirent = Dirent(name: string, kind: Kind)

  ghost predicate DistinctNames(ds: seq<Dirent>) {
    forall i, j :: 0 <= i < j < |ds| ==> ds[i].name != ds[j].name
  }

  ghost predicate HasName(ds: seq<Dirent>, x: string) {
    exists i :: 0 <= i < |ds| && ds[i].name == x
  }

  /** `raw` is what reading the directory `es` of one layer yields, in any order. */
  ghost predicate Enumerates(raw: seq<Dirent>, es: Entries) {
    && DistinctNames(raw)
    && (forall x :: HasName(raw, x) <==> x in es)
    && (forall i :: 0 <= i < |raw| && raw[i].name in es ==> raw[i].kind == KindOf(es[raw[i].name]))
  }

  // ----- dirbuf.init

  datatype Buffer = Buffer(entries: seq<Dirent>, names: set<string>, opaqueSeen: bool)

  function Stripped(name: string): string
    requires IsWhiteout(name)
  {
    name[|WHITEOUT_PREFIX|..]
  }

  function Add(b: Buffer, e: Dirent): Buffer {
    if e.name in b.names then b
    else if e.name == WHITEOUT_OPAQUE then Buffer(b.entries, b.names + {e.name}, true)
    else if IsWhiteout(e.name) then Buffer(b.entries, b.names + {Stripped(e.name)}, b.opaqueSeen)
    else Buffer(b.entries + [e], b.names + {e.name}, b.opaqueSeen)
  }

  function AddAll(b: Buffer, raw: seq<Dirent>): Buffer {
    if raw == [] then b else Add(AddAll(b, raw[..|raw| - 1]), raw[|raw| - 1])
  }

  function Merged(b: Buffer, raws: seq<seq<Dirent>>): Buffer
    decreases |raws|
  {
    if raws == [] then b
    else
      var b' := AddAll(b, raws[0]);
      if b'.opaqueSeen then b' else Merged(b', raws[1..])
  }

  const EMPTY := Buffer([], {}, false)

  method Init(raws: seq<seq<Dirent>>) returns (entries: seq<Dirent>)
    ensures entries == Merged(EMPTY, raws).entries
  {
    entries := [];
    var names: set<string> := {};
    var opaqueSeen := false;
    var i := 0;
    while i < |raws|
      invariant i <= |raws| && !opaqueSeen
      invariant Merged(Buffer(entries, names, opaqueSeen), raws[i..]) == Merged(EMPTY, raws)
    {
      ghost var b := Buffer(entries, names, opaqueSeen);
      for j := 0 to |raws[i]|
        invariant Buffer(entries, names, opaqueSeen) == AddAll(b, raws[i][..j])
      {
        assert raws[i][..j + 1][..j] == raws[i][..j];
        var e := raws[i][j];
        if e.name in names {
          continue;
        }
        var name := e.name;
        if name == WHITEOUT_OPAQUE {
          opaqueSeen := true;
        } else if IsWhiteout(name) {
          name := Stripped(name);
        } else {
          entries := entries + [e];
        }
        names := names + {name};
      }
      assert raws[i][..|raws[i]|] == raws[i] && raws[i..][1..] == raws[i + 1..];
      if opaqueSeen {
        break;
      }
      i := i + 1;
    }
  }

  // ----- which entries are taken

  /** The name that an entry settles once it is taken. */
  function Settles(name: string): string {
    if IsWhiteout(name) && name != WHITEOUT_OPAQUE then Stripped(name) else name
  }

  /** Of the entries read so far, in the order they were read, entry `j` is taken: no entry taken
      before it settled its name.  The others, markers among them, are passed over. */
  ghost predicate Live(h: seq<Dirent>, j: nat)
    requires j < |h|
    decreases j
  {
    forall i: nat :: i < j && Live(h, i) ==> Settles(h[i].name) != h[j].name
  }

  ghost predicate Settled(h: seq<Dirent>, x: string) { exists i: nat :: i < |h| && Live(h, i) && Settles(h[i].name) == x }

  ghost predicate Taken(h: seq<Dirent>, x: string) { exists i: nat :: i < |h| && Live(h, i) && h[i].name == x }

  lemma {:induction false} LivePrefix(h: seq<Dirent>, k: seq<Dirent>, j: nat)
    requires j < |h|
    ensures Live(h + k, j) == Live(h, j) && (h + k)[j] == h[j]
    decreases j
  {
    forall i: nat | i < j ensures Live(h + k, i) == Live(h, i) && (h + k)[i] == h[i] { LivePrefix(h, k, i); }
    assert (h + k)[j] == h[j];
  }

  lemma {:induction false} LiveSnoc(h: seq<Dirent>, e: Dirent)
    ensures Live(h + [e], |h|) <==> !Settled(h, e.name)
    ensures forall i: nat :: i < |h| ==> Live(h + [e], i) == Live(h, i) && (h + [e])[i] == h[i]
  {
    forall i: nat | i < |h| ensures Live(h + [e], i) == Live(h, i) && (h + [e])[i] == h[i] { LivePrefix(h, [e], i); }
    assert (h + [e])[|h|] == e;
  }

  lemma {:induction false} SettledSnoc(h: seq<Dirent>, e: Dirent, x: string)
    ensures Settled(h + [e], x) <==> Settled(h, x) || (!Settled(h, e.name) && Settles(e.name) == x)
    ensures Taken(h + [e], x) <==> Taken(h, x) || (!Settled(h, e.name) && e.name == x)
  {
    LiveSnoc(h, e);
    if Settled(h, x) {
      var i: nat :| i < |h| && Live(h, i) && Settles(h[i].name) == x;
      assert Live(h + [e], i) && (h + [e])[i] == h[i];
    }
    if Taken(h, x) {
      var i: nat :| i < |h| && Live(h, i) && h[i].name == x;
      assert Live(h + [e], i) && (h + [e])[i] == h[i];
    }
    if !Settled(h, e.name) { assert Live(h + [e], |h|) && (h + [e])[|h|] == e; }
  }

  /** The ordinary entries that are taken. */
  ghost function Ordinary(h: seq<Dirent>): seq<Dirent> {
    if h == [] then []
    else
      var init, e := h[..|h| - 1], h[|h| - 1];
      Ordinary(init) + (if !IsWhiteout(e.name) && !Settled(init, e.name) then [e] else [])
  }

  ghost predicate Tracks(b: Buffer, h: seq<Dirent>) {
    && b.entries == Ordinary(h)
    && (forall x :: x in b.names <==> Settled(h, x))
    && (b.opaqueSeen <==> Taken(h, WHITEOUT_OPAQUE))
  }

  lemma {:induction false} TracksSnoc(b: Buffer, h: seq<Dirent>, e: Dirent, g: seq<Dirent>)
    requires Tracks(b, h) && g == h + [e]
    ensures Tracks(Add(b, e), g)
  {
    assert (h + [e])[..|h|] == h && (h + [e])[|h|] == e;
    assert e.name in b.names <==> Settled(h, e.name);
    forall x ensures x in Add(b, e).names <==> Settled(h + [e], x) { SettledSnoc(h, e, x); }
    SettledSnoc(h, e, WHITEOUT_OPAQUE);
  }

  /** Reading entries keeps exactly that. */
  lemma {:induction false} TracksAll(b: Buffer, h: seq<Dirent>, raw: seq<Dirent>)
    requires Tracks(b, h)
    ensures Tracks(AddAll(b, raw), h + raw)
  {
    if raw == [] {
      assert h + raw == h;
    } else {
      var init, e := raw[..|raw| - 1], raw[|raw| - 1];
      TracksAll(b, h, init);
      assert h + raw == h + init + [e];
      TracksSnoc(AddAll(b, init), h + init, e, h + raw);
    }
  }

  /** All that is read, after `h`: layers up to the first one with an opaque marker taken. */
  ghost function History(h: seq<Dirent>, raws: seq<seq<Dirent>>): seq<Dirent>
    decreases |raws|
  {
    if raws == [] then h
    else if Taken(h + raws[0], WHITEOUT_OPAQUE) then h + raws[0]
    else History(h + raws[0], raws[1..])
  }

  lemma {:induction false} TracksMerged(b: Buffer, h: seq<Dirent>, raws: seq<seq<Dirent>>)
    requires Tracks(b, h)
    ensures Tracks(Merged(b, raws), History(h, raws))
    decreases |raws|
  {
    if raws != [] {
      TracksAll(b, h, raws[0]);
      if !Taken(h + raws[0], WHITEOUT_OPAQUE) { TracksMerged(AddAll(b, raws[0]), h + raws[0], raws[1..]); }
    }
  }

  // ----- one name through the layers

  /** In the layer read after `h`, the marker `w` is there and taken. */
  ghost predicate Marks(h: seq<Dirent>, raw: seq<Dirent>, w: string) {
    exists j: nat :: j < |raw| && raw[j].name == w && Live(h + raw, |h| + j)
  }

  /** In the layer read after `h`, the whiteout of `x` is taken before `x` is read. */
  ghost predicate Preceded(h: seq<Dirent>, raw: seq<Dirent>, x: string) {
    exists i: nat, j: nat :: i < j < |raw| && raw[i].name == Whiteout(x) && raw[j].name == x && Live(h + raw, |h| + i)
  }

  /** The name is listed from one of the layers: the markers met on the way are those taken. */
  ghost predicate Shown(h: seq<Dirent>, raws: seq<seq<Dirent>>, x: string)
    decreases |raws|
  {
    raws != [] &&
    if HasName(raws[0], x) then !Preceded(h, raws[0], x)
    else !Marks(h, raws[0], Whiteout(x)) && !Marks(h, raws[0], WHITEOUT_OPAQUE) && Shown(h + raws[0], raws[1..], x)
  }

  /** The layer that answers the lookup of `x` takes the whiteout of `x` before it. */
  ghost predicate Shadowed(h: seq<Dirent>, raws: seq<seq<Dirent>>, x: string)
    decreases |raws|
  {
    raws != [] &&
    if HasName(raws[0], x) then Preceded(h, raws[0], x)
    else !HidesIn(raws[0], x) && Shadowed(h + raws[0], raws[1..], x)
  }

  /** A layer holds a marker that hides `x`, but it is passed over, and `x` is listed from a
      layer below. */
  ghost predicate Exposed(h: seq<Dirent>, raws: seq<seq<Dirent>>, x: string)
    decreases |raws|
  {
    && raws != [] && !HasName(raws[0], x)
    && !Marks(h, raws[0], Whiteout(x)) && !Marks(h, raws[0], WHITEOUT_OPAQUE)
    && if HidesIn(raws[0], x) then Shown(h + raws[0], raws[1..], x) else Exposed(h + raws[0], raws[1..], x)
  }

  ghost predicate HidesIn(raw: seq<Dirent>, x: string) { HasName(raw, Whiteout(x)) || HasName(raw, WHITEOUT_OPAQUE) }

  /** The entry comes from the uppermost layer that has the name. */
  ghost predicate FromTop(raws: seq<seq<Dirent>>, x: string, e: Dirent)
    decreases |raws|
  {
    raws != [] && if HasName(raws[0], x) then e in raws[0] else FromTop(raws[1..], x, e)
  }

  ghost predicate AllDistinct(raws: seq<seq<Dirent>>) { forall i :: 0 <= i < |raws| ==> DistinctNames(raws[i]) }

  /** What settles an ordinary name: itself, or its whiteout. */
  lemma {:induction false} SettlesOrdinary(name: string, x: string)
    requires !IsWhiteout(x)
    ensures Settles(name) == x <==> name == x || name == Whiteout(x)
  {
    OrdinaryWhiteout(x);
    if IsWhiteout(name) { WhiteoutStrip(name); }
  }

  lemma {:induction false} WhiteoutStrip(w: string)
    requires IsWhiteout(w)
    ensures Whiteout(Stripped(w)) == w
  {
  }

  /** Whether an ordinary name is settled after one more layer. */
  lemma {:induction false} SettledLayer(h: seq<Dirent>, raw: seq<Dirent>, x: string)
    requires !IsWhiteout(x) && !Settled(h, x)
    ensures Settled(h + raw, x) <==> Taken(h + raw, x) || Marks(h, raw, Whiteout(x))
    ensures Taken(h + raw, x) ==> HasName(raw, x)
  {
    forall i: nat | i < |h + raw| ensures Settles((h + raw)[i].name) == x <==> (h + raw)[i].name == x || (h + raw)[i].name == Whiteout(x) {
      SettlesOrdinary((h + raw)[i].name, x);
    }
    if Settled(h + raw, x) {
      var i: nat :| i < |h + raw| && Live(h + raw, i) && Settles((h + raw)[i].name) == x;
      if i < |h| {
        LivePrefix(h, raw, i);
        assert false;
      } else {
        assert (h + raw)[i] == raw[i - |h|] && Live(h + raw, |h| + (i - |h|));
      }
    }
    if Marks(h, raw, Whiteout(x)) {
      var j: nat :| j < |raw| && raw[j].name == Whiteout(x) && Live(h + raw, |h| + j);
      assert (h + raw)[|h| + j] == raw[j];
    }
    if Taken(h + raw, x) {
      var i: nat :| i < |h + raw| && Live(h + raw, i) && (h + raw)[i].name == x;
      if i < |h| {
        LivePrefix(h, raw, i);
        assert false;
      } else {
        assert (h + raw)[i] == raw[i - |h|];
      }
    }
  }

  /** In the layer that has it, an unsettled name is taken unless its whiteout is before it. */
  lemma {:induction false} TakenLayer(h: seq<Dirent>, raw: seq<Dirent>, x: string)
    requires !IsWhiteout(x) && !Settled(h, x) && DistinctNames(raw) && HasName(raw, x)
    ensures Taken(h + raw, x) <==> !Preceded(h, raw, x)
  {
    var j: nat :| j < |raw| && raw[j].name == x;
    var g := h + raw;
    assert g[|h| + j] == raw[j];
    if Preceded(h, raw, x) {
      var i: nat :| i < j && raw[i].name == Whiteout(x) && Live(g, |h| + i);
      assert g[|h| + i] == raw[i];
      SettlesOrdinary(raw[i].name, x);
      assert !Live(g, |h| + j);
      if Taken(g, x) {
        var k: nat :| k < |g| && Live(g, k) && g[k].name == x;
        TakenPlace(h, raw, x, k, j);
      }
    } else {
      forall i: nat | i < |h| + j && Live(g, i) ensures Settles(g[i].name) != x {
        SettlesOrdinary(g[i].name, x);
        if i < |h| {
          LivePrefix(h, raw, i);
          assert g[i] == h[i];
        } else {
          assert g[i] == raw[i - |h|];
          assert Live(g, |h| + (i - |h|));
        }
      }
      assert Live(g, |h| + j);
    }
  }

  lemma {:induction false} TakenPlace(h: seq<Dirent>, raw: seq<Dirent>, x: string, k: nat, j: nat)
    requires !IsWhiteout(x) && !Settled(h, x) && DistinctNames(raw) && j < |raw| && raw[j].name == x
    requires k < |h + raw| && Live(h + raw, k) && (h + raw)[k].name == x
    ensures k == |h| + j
  {
    if k < |h| {
      LivePrefix(h, raw, k);
      SettlesOrdinary(x, x);
    } else {
      assert (h + raw)[k] == raw[k - |h|];
    }
  }

  /** Once settled, a name is not taken again. */
  lemma {:induction false} SettledStays(h: seq<Dirent>, raws: seq<seq<Dirent>>, x: string)
    requires Settled(h, x) && !IsWhiteout(x)
    ensures Taken(History(h, raws), x) <==> Taken(h, x)
    decreases |raws|
  {
    if raws != [] {
      SettledAfter(h, raws[0], x);
      if !Taken(h + raws[0], WHITEOUT_OPAQUE) { SettledStays(h + raws[0], raws[1..], x); }
    }
  }

  lemma {:induction false} SettledAfter(h: seq<Dirent>, raw: seq<Dirent>, x: string)
    requires Settled(h, x)
    ensures Settled(h + raw, x) && (Taken(h + raw, x) <==> Taken(h, x))
  {
    if raw == [] {
      assert h + raw == h;
    } else {
      var init, e := raw[..|raw| - 1], raw[|raw| - 1];
      SettledAfter(h, init, x);
      SettledSnoc(h + init, e, x);
      assert h + init + [e] == h + raw;
    }
  }

  /** So a name is taken exactly when it is shown. */
  lemma {:induction false} TakenIsShown(h: seq<Dirent>, raws: seq<seq<Dirent>>, x: string)
    requires !IsWhiteout(x) && !Settled(h, x) && !Taken(h, WHITEOUT_OPAQUE) && AllDistinct(raws)
    ensures Taken(History(h, raws), x) <==> Shown(h, raws, x)
    decreases |raws|
  {
    SettlesOrdinary(x, x);
    assert !Taken(h, x);
    if raws != [] {
      var raw, g := raws[0], h + raws[0];
      assert DistinctNames(raw);
      SettledLayer(h, raw, x);
      OpaqueTaken(h, raw);
      if HasName(raw, x) {
        TakenLayer(h, raw, x);
        NamedSettled(h, raw, x);
        if !Taken(g, WHITEOUT_OPAQUE) { SettledStays(g, raws[1..], x); }
      } else if Settled(g, x) {
        if !Taken(g, WHITEOUT_OPAQUE) { SettledStays(g, raws[1..], x); }
      } else if !Taken(g, WHITEOUT_OPAQUE) {
        TakenIsShown(g, raws[1..], x);
      }
    }
  }

  /** A layer that has a name settles it. */
  lemma {:induction false} NamedSettled(h: seq<Dirent>, raw: seq<Dirent>, x: string)
    requires !IsWhiteout(x) && HasName(raw, x)
    ensures Settled(h + raw, x)
  {
    var g := h + raw;
    var j: nat :| j < |raw| && raw[j].name == x;
    assert g[|h| + j] == raw[j];
    SettlesOrdinary(x, x);
    if Live(g, |h| + j) { assert Settled(g, x); }
  }

  lemma {:induction false} OpaqueTaken(h: seq<Dirent>, raw: seq<Dirent>)
    requires !Taken(h, WHITEOUT_OPAQUE)
    ensures Taken(h + raw, WHITEOUT_OPAQUE) <==> Marks(h, raw, WHITEOUT_OPAQUE)
  {
    var g := h + raw;
    if Taken(g, WHITEOUT_OPAQUE) {
      var i: nat :| i < |g| && Live(g, i) && g[i].name == WHITEOUT_OPAQUE;
      if i < |h| {
        LivePrefix(h, raw, i);
      } else {
        assert g[i] == raw[i - |h|] && Live(g, |h| + (i - |h|));
      }
    }
    if Marks(h, raw, WHITEOUT_OPAQUE) {
      var j: nat :| j < |raw| && raw[j].name == WHITEOUT_OPAQUE && Live(g, |h| + j);
      assert g[|h| + j] == raw[j];
    }
  }

  // ----- what the entries are

  /** Distinct entries that are the ordinary ones taken. */
  ghost predicate Lists(h: seq<Dirent>, es: seq<Dirent>) {
    && DistinctNames(es)
    && (forall x :: HasName(es, x) <==> !IsWhiteout(x) && Taken(h, x))
    && (forall i :: 0 <= i < |es| ==> TakenAs(h, es[i]))
  }

  ghost predicate TakenAs(h: seq<Dirent>, e: Dirent) { exists j: nat :: j < |h| && Live(h, j) && h[j] == e }

  lemma {:induction false} OrdinaryEntries(h: seq<Dirent>)
    ensures Lists(h, Ordinary(h))
  {
    if h != [] {
      var init, e := h[..|h| - 1], h[|h| - 1];
      assert h == init + [e];
      OrdinaryEntries(init);
      if !IsWhiteout(e.name) && !Settled(init, e.name) {
        ListsMore(init, Ordinary(init), e, h);
      } else {
        ListsSame(init, Ordinary(init), e, h);
        assert Ordinary(h) == Ordinary(init) + [] == Ordinary(init);
      }
    }
  }

  lemma {:induction false} TakenAsSnoc(h: seq<Dirent>, e: Dirent, g: seq<Dirent>, d: Dirent)
    requires g == h + [e] && TakenAs(h, d)
    ensures TakenAs(g, d)
  {
    var j: nat :| j < |h| && Live(h, j) && h[j] == d;
    LivePrefix(h, [e], j);
    assert g[j] == d;
  }

  lemma {:induction false} ListsSame(h: seq<Dirent>, es: seq<Dirent>, e: Dirent, g: seq<Dirent>)
    requires g == h + [e] && Lists(h, es) && (IsWhiteout(e.name) || Settled(h, e.name))
    ensures Lists(g, es)
  {
    forall x ensures HasName(es, x) <==> !IsWhiteout(x) && Taken(g, x) { SettledSnoc(h, e, x); }
    forall i | 0 <= i < |es| ensures TakenAs(g, es[i]) { TakenAsSnoc(h, e, g, es[i]); }
  }

  lemma {:induction false} ListsMore(h: seq<Dirent>, es: seq<Dirent>, e: Dirent, g: seq<Dirent>)
    requires g == h + [e] && Lists(h, es) && !IsWhiteout(e.name) && !Settled(h, e.name)
    ensures Lists(g, es + [e])
  {
    var ds := es + [e];
    forall x ensures HasName(ds, x) <==> !IsWhiteout(x) && Taken(g, x) {
      SettledSnoc(h, e, x);
      HasNameSnoc(es, e, x);
    }
    forall i | 0 <= i < |ds| ensures TakenAs(g, ds[i]) {
      if i < |es| {
        TakenAsSnoc(h, e, g, es[i]);
      } else {
        LiveSnoc(h, e);
        assert g[|h|] == e;
      }
    }
    forall i | 0 <= i < |es| ensures es[i].name != e.name {
      if es[i].name == e.name { TakenSettles(h, es[i]); }
    }
  }

  lemma {:induction false} TakenSettles(h: seq<Dirent>, e: Dirent)
    requires TakenAs(h, e) && !IsWhiteout(e.name)
    ensures Settled(h, e.name)
  {
    SettlesOrdinary(e.name, e.name);
  }

  lemma {:induction false} HistoryExtends(h: seq<Dirent>, raws: seq<seq<Dirent>>)
    ensures h <= History(h, raws)
    decreases |raws|
  {
    if raws != [] {
      assert h <= h + raws[0];
      if !Taken(h + raws[0], WHITEOUT_OPAQUE) { HistoryExtends(h + raws[0], raws[1..]); }
    }
  }

  lemma {:induction false} LiveInPrefix(h: seq<Dirent>, f: seq<Dirent>, j: nat)
    requires h <= f && j < |h|
    ensures Live(f, j) == Live(h, j) && f[j] == h[j]
  {
    assert f == h + f[|h|..];
    LivePrefix(h, f[|h|..], j);
  }

  /** After a name was settled no entry with that name is taken. */
  lemma {:induction false} NotAfter(h: seq<Dirent>, f: seq<Dirent>, x: string, j: nat)
    requires h <= f && Settled(h, x) && |h| <= j < |f| && f[j].name == x
    ensures !Live(f, j)
  {
    var i: nat :| i < |h| && Live(h, i) && Settles(h[i].name) == x;
    LiveInPrefix(h, f, i);
  }

  /** An entry that is taken comes from the uppermost layer with its name. */
  lemma {:induction false} TakenFromTop(h: seq<Dirent>, raws: seq<seq<Dirent>>, x: string, j: nat)
    requires !IsWhiteout(x) && !Settled(h, x)
    requires var f := History(h, raws); j < |f| && Live(f, j) && f[j].name == x
    ensures FromTop(raws, x, History(h, raws)[j])
    decreases |raws|
  {
    var f := History(h, raws);
    HistoryExtends(h, raws);
    SettlesOrdinary(x, x);
    if j < |h| {
      LiveInPrefix(h, f, j);
      assert false;
    } else {
      assert raws != [];
      var g := h + raws[0];
      if !Taken(g, WHITEOUT_OPAQUE) { HistoryExtends(g, raws[1..]); }
      assert g <= f;
      if Settled(g, x) && j >= |g| { NotAfter(g, f, x, j); assert false; }
      else if j < |g| {
        assert f[j] == g[j] == raws[0][j - |h|];
      } else {
        if HasName(raws[0], x) { NamedSettled(h, raws[0], x); assert false; }
        TakenFromTop(g, raws[1..], x, j);
      }
    }
  }

  // ----- agreement with lookup

  ghost predicate EnumeratesAll(raws: seq<seq<Dirent>>, dirs: seq<Node>) {
    && |raws| == |dirs|
    && (forall i :: 0 <= i < |dirs| ==> dirs[i].Dir? && Enumerates(raws[i], dirs[i].entries))
  }

  lemma {:induction false} MarksHas(h: seq<Dirent>, raw: seq<Dirent>, w: string)
    ensures Marks(h, raw, w) ==> HasName(raw, w)
  {
  }

  /** What is shown is what lookup finds, but for the names shadowed and the names exposed. */
  lemma {:induction false} ShownIsVisible(h: seq<Dirent>, raws: seq<seq<Dirent>>, dirs: seq<Node>, x: string)
    requires EnumeratesAll(raws, dirs)
    ensures var found := Overlay.Merge(dirs, x) != [];
      && (Shown(h, raws, x) <==> (found && !Shadowed(h, raws, x)) || Exposed(h, raws, x))
      && (Shadowed(h, raws, x) ==> found) && (Exposed(h, raws, x) ==> !found)
    decreases |raws|
  {
    if raws != [] {
      assert Enumerates(raws[0], dirs[0].entries);
      MarksHas(h, raws[0], Whiteout(x));
      MarksHas(h, raws[0], WHITEOUT_OPAQUE);
      Overlay.FirstStep(dirs, x);
      ShownIsVisible(h + raws[0], raws[1..], dirs[1..], x);
    }
  }

  lemma {:induction false} TopKind(raws: seq<seq<Dirent>>, dirs: seq<Node>, x: string, e: Dirent)
    requires EnumeratesAll(raws, dirs) && e.name == x && FromTop(raws, x, e) && Overlay.Merge(dirs, x) != []
    ensures e.kind == KindOf(Overlay.Merge(dirs, x)[0])
    decreases |raws|
  {
    assert Enumerates(raws[0], dirs[0].entries);
    Overlay.FirstStep(dirs, x);
    if HasName(raws[0], x) {
      var i :| 0 <= i < |raws[0]| && raws[0][i] == e;
      assert raws[0][i].name in dirs[0].entries;
    } else {
      TopKind(raws[1..], dirs[1..], x, e);
    }
  }

  /** The listing of any stack: each name at most once; of the image's children all but those
      shadowed, with their kinds; and besides them exactly the names exposed. */
  lemma {:induction false} ListingOfImage(raws: seq<seq<Dirent>>, dirs: seq<Node>)
    requires EnumeratesAll(raws, dirs)
    ensures var entries, image := Merged(EMPTY, raws).entries, Flatten(Overlay.Contents(dirs));
      && DistinctNames(entries)
      && (forall x :: HasName(entries, x) <==> (x in image && !Shadowed([], raws, x)) || (!IsWhiteout(x) && Exposed([], raws, x)))
      && (forall i :: 0 <= i < |entries| && entries[i].name in image ==> entries[i].kind == KindOf(image[entries[i].name]))
  {
    var entries, image, f := Merged(EMPTY, raws).entries, Flatten(Overlay.Contents(dirs)), History([], raws);
    TracksMerged(EMPTY, [], raws);
    OrdinaryEntries(f);
    forall x ensures HasName(entries, x) <==> (x in image && !Shadowed([], raws, x)) || (!IsWhiteout(x) && Exposed([], raws, x)) {
      VisibleInImage(dirs, x);
      ShownIsVisible([], raws, dirs, x);
      if !IsWhiteout(x) { TakenIsShown([], raws, x); }
    }
    forall i | 0 <= i < |entries| && entries[i].name in image ensures entries[i].kind == KindOf(image[entries[i].name]) {
      assert TakenAs(f, entries[i]);
      var j: nat :| j < |f| && Live(f, j) && f[j] == entries[i];
      VisibleInImage(dirs, entries[i].name);
      TakenFromTop([], raws, entries[i].name, j);
      TopKind(raws, dirs, entries[i].name, entries[i]);
    }
  }

  /** No layer directory holds a name beside its whiteout. */
  ghost predicate NoneBeside(dirs: seq<Node>) {
    forall i, x :: 0 <= i < |dirs| && x in EntriesOf(dirs[i]) ==> Whiteout(x) !in EntriesOf(dirs[i])
  }

  /** No marker has its own whiteout in its layer or in one above. */
  ghost predicate NonePassed(dirs: seq<Node>) {
    forall i, k, w :: 0 <= i <= k < |dirs| && IsWhiteout(w) && w in EntriesOf(dirs[k]) && Whiteout(w) in EntriesOf(dirs[i]) ==> Whiteout(w) == WHITEOUT_OPAQUE
  }

  /** So the listing is the image exactly when no visible name is shadowed and no hidden one
      exposed; in particular when no layer holds a name beside its whiteout and no marker has a
      whiteout of its own. */
  lemma {:induction false} ListingIsImageExactly(raws: seq<seq<Dirent>>, dirs: seq<Node>)
    requires EnumeratesAll(raws, dirs)
    ensures var entries, image := Merged(EMPTY, raws).entries, Flatten(Overlay.Contents(dirs));
      (forall x :: HasName(entries, x) <==> x in image) <==>
        (forall x :: !IsWhiteout(x) ==> !Shadowed([], raws, x) && !Exposed([], raws, x))
    ensures NoneBeside(dirs) ==> forall x :: !Shadowed([], raws, x)
    ensures NonePassed(dirs) ==> forall x :: !Exposed([], raws, x)
  {
    ListingOfImage(raws, dirs);
    forall x ensures Shadowed([], raws, x) && !IsWhiteout(x) ==> x in Flatten(Overlay.Contents(dirs))
      ensures Exposed([], raws, x) ==> x !in Flatten(Overlay.Contents(dirs))
    {
      ShownIsVisible([], raws, dirs, x);
      VisibleInImage(dirs, x);
    }
    if NoneBeside(dirs) {
      forall x ensures !Shadowed([], raws, x) { NotShadowed([], raws, dirs, x); }
    }
    if NonePassed(dirs) {
      forall x ensures !Exposed([], raws, x) { NotExposed([], raws, dirs, x); }
    }
  }

  lemma {:induction false} NotShadowed(h: seq<Dirent>, raws: seq<seq<Dirent>>, dirs: seq<Node>, x: string)
    requires EnumeratesAll(raws, dirs) && NoneBeside(dirs)
    ensures !Shadowed(h, raws, x)
    decreases |raws|
  {
    if raws != [] {
      assert Enumerates(raws[0], dirs[0].entries);
      assert HasName(raws[0], Whiteout(x)) ==> x !in EntriesOf(dirs[0]);
      NotShadowed(h + raws[0], raws[1..], dirs[1..], x);
    }
  }

  /** What was read before holds no whiteout of a marker below. */
  ghost predicate Clear(h: seq<Dirent>, dirs: seq<Node>) {
    forall i, k, w :: 0 <= i < |h| && 0 <= k < |dirs| && IsWhiteout(w) && w in EntriesOf(dirs[k]) && h[i].name == Whiteout(w) ==> Whiteout(w) == WHITEOUT_OPAQUE
  }

  /** Then every marker of the next layer is taken. */
  lemma {:induction false} MarkerTaken(h: seq<Dirent>, raw: seq<Dirent>, dirs: seq<Node>, w: string)
    requires dirs != [] && Enumerates(raw, EntriesOf(dirs[0])) && NonePassed(dirs) && Clear(h, dirs) && !Taken(h, WHITEOUT_OPAQUE)
    requires IsWhiteout(w) && HasName(raw, w)
    ensures Marks(h, raw, w)
  {
    var j: nat :| j < |raw| && raw[j].name == w;
    var g := h + raw;
    assert g[|h| + j] == raw[j];
    forall i: nat | i < |h| + j && Live(g, i) ensures Settles(g[i].name) != w {
      if i < |h| {
        LivePrefix(h, raw, i);
        assert g[i] == h[i];
        SettlesMarker(h[i].name, w);
      } else {
        assert g[i] == raw[i - |h|] && HasName(raw, raw[i - |h|].name);
        SettlesMarker(raw[i - |h|].name, w);
      }
    }
    assert Live(g, |h| + j);
  }

  /** What settles a marker: its whiteout, or itself when it is the opaque marker. */
  lemma {:induction false} SettlesMarker(name: string, w: string)
    requires IsWhiteout(w)
    ensures Settles(name) == w ==> (name == w && w == WHITEOUT_OPAQUE) || (name == Whiteout(w) && name != WHITEOUT_OPAQUE)
  {
    if IsWhiteout(name) { WhiteoutStrip(name); }
  }

  lemma {:induction false} NotExposed(h: seq<Dirent>, raws: seq<seq<Dirent>>, dirs: seq<Node>, x: string)
    requires EnumeratesAll(raws, dirs) && NonePassed(dirs) && Clear(h, dirs) && !Taken(h, WHITEOUT_OPAQUE)
    ensures !Exposed(h, raws, x)
    decreases |raws|
  {
    if raws != [] && Exposed(h, raws, x) {
      var raw := raws[0];
      assert Enumerates(raw, EntriesOf(dirs[0]));
      assert IsWhiteout(Whiteout(x)) && IsWhiteout(WHITEOUT_OPAQUE);
      if HasName(raw, Whiteout(x)) { MarkerTaken(h, raw, dirs, Whiteout(x)); }
      if HasName(raw, WHITEOUT_OPAQUE) { MarkerTaken(h, raw, dirs, WHITEOUT_OPAQUE); }
      OpaqueTaken(h, raw);
      ClearNext(h, raw, dirs);
      NotExposed(h + raw, raws[1..], dirs[1..], x);
    }
  }

  lemma {:induction false} ClearNext(h: seq<Dirent>, raw: seq<Dirent>, dirs: seq<Node>)
    requires dirs != [] && Enumerates(raw, EntriesOf(dirs[0])) && NonePassed(dirs) && Clear(h, dirs)
    ensures Clear(h + raw, dirs[1..]) && NonePassed(dirs[1..])
  {
    var g := h + raw;
    forall i, k, w | 0 <= i < |g| && 0 <= k < |dirs[1..]| && IsWhiteout(w) && w in EntriesOf(dirs[1..][k]) && g[i].name == Whiteout(w)
      ensures Whiteout(w) == WHITEOUT_OPAQUE
    {
      assert dirs[1..][k] == dirs[k + 1];
      if i < |h| { assert g[i] == h[i]; } else { assert g[i] == raw[i - |h|] && HasName(raw, raw[i - |h|].name); }
    }
    forall i, k, w | 0 <= i <= k < |dirs[1..]| && IsWhiteout(w) && w in EntriesOf(dirs[1..][k]) && Whiteout(w) in EntriesOf(dirs[1..][i])
      ensures Whiteout(w) == WHITEOUT_OPAQUE
    {
      assert dirs[1..][k] == dirs[k + 1] && dirs[1..][i] == dirs[i + 1];
    }
  }

  lemma {:induction false} HasNameSnoc(raw: seq<Dirent>, e: Dirent, x: string)
    ensures HasName(raw + [e], x) <==> HasName(raw, x) || e.name == x
  {
    if HasName(raw, x) {
      var i :| 0 <= i < |raw| && raw[i].name == x;
      assert (raw + [e])[i].name == x;
    }
    assert (raw + [e])[|raw|] == e;
  }

  lemma {:induction false} VisibleInImage(dirs: seq<Node>, x: string)
    ensures var ns, image := Overlay.Merge(dirs, x), Flatten(Overlay.Contents(dirs));
      && (x in image <==> !IsWhiteout(x) && ns != [])
      && (x in image ==> KindOf(image[x]) == KindOf(ns[0]))
  {
    FlattenUnmarked(Overlay.Contents(dirs));
    if !IsWhiteout(x) {
      Overlay.MergeIsFlattened(dirs, x);
      Overlay.MergeShape(dirs, x);
    }
  }

  // ----- what goes wrong otherwise

  /** A whiteout read before the entry of the same layer hides it from the listing only. */
  lemma {:induction false} WhiteoutBesideEntry(x: string, n: Node)
    requires !IsWhiteout(x)
    ensures var es := map[Whiteout(x) := File(0), x := n];
      var raw := [Dirent(Whiteout(x), Regular), Dirent(x, KindOf(n))];
      && Enumerates(raw, es) && x in Flatten(Overlay.Contents([Dir(es)]))
      && !HasName(Merged(EMPTY, [raw]).entries, x)
  {
    var es := map[Whiteout(x) := File(0), x := n];
    var raw := [Dirent(Whiteout(x), Regular), Dirent(x, KindOf(n))];
    assert raw[0].name == Whiteout(x) && raw[1].name == x;
    VisibleInImage([Dir(es)], x);
    assert raw[..1] == [raw[0]] && raw[..1][..0] == [];
    OrdinaryWhiteout(x);
    assert AddAll(EMPTY, raw[..1]) == Buffer([], {x}, false);
    assert AddAll(EMPTY, raw) == Buffer([], {x}, false);
  }

  lemma {:induction false} OrdinaryWhiteout(x: string)
    requires !IsWhiteout(x)
    ensures Whiteout(x) != WHITEOUT_OPAQUE && Stripped(Whiteout(x)) == x
  {
    assert Stripped(Whiteout(x)) == x;
    assert IsWhiteout(Stripped(WHITEOUT_OPAQUE));
  }

  /** A whiteout of a marker, of the opaque one too, makes the listing pass over that marker
      below, and show a name that lookup does not find. */
  lemma {:induction false} WhiteoutOfWhiteout(x: string, w: string)
    requires !IsWhiteout(x) && (w == Whiteout(x) || w == WHITEOUT_OPAQUE) && Whiteout(w) != WHITEOUT_OPAQUE
    ensures var dirs := [Dir(map[Whiteout(w) := File(0)]), Dir(map[w := File(0)]), Dir(map[x := File(0)])];
      var raws := [[Dirent(Whiteout(w), Regular)], [Dirent(w, Regular)], [Dirent(x, Regular)]];
      && EnumeratesAll(raws, dirs)
      && HasName(Merged(EMPTY, raws).entries, x) && x !in Flatten(Overlay.Contents(dirs))
  {
    var dirs := [Dir(map[Whiteout(w) := File(0)]), Dir(map[w := File(0)]), Dir(map[x := File(0)])];
    var raws := [[Dirent(Whiteout(w), Regular)], [Dirent(w, Regular)], [Dirent(x, Regular)]];
    forall i | 0 <= i < 3 ensures Enumerates(raws[i], dirs[i].entries) {
      assert raws[i][0].name in dirs[i].entries;
    }
    PassesOver(x, w);
    HiddenBelow(dirs, x);
  }

  lemma {:induction false} AddOne(b: Buffer, e: Dirent)
    ensures AddAll(b, [e]) == Add(b, e)
  {
    assert [e][..0] == [];
  }

  lemma {:induction false} MergedStep(b: Buffer, raw: seq<Dirent>, raws: seq<seq<Dirent>>)
    requires !AddAll(b, raw).opaqueSeen
    ensures Merged(b, [raw] + raws) == Merged(AddAll(b, raw), raws)
  {
    assert ([raw] + raws)[1..] == raws;
  }

  lemma {:induction false} PassesOver(x: string, w: string)
    requires !IsWhiteout(x) && IsWhiteout(w) && Whiteout(w) != WHITEOUT_OPAQUE
    ensures HasName(Merged(EMPTY, [[Dirent(Whiteout(w), Regular)], [Dirent(w, Regular)], [Dirent(x, Regular)]]).entries, x)
  {
    var top, mid, low := Dirent(Whiteout(w), Regular), Dirent(w, Regular), Dirent(x, Regular);
    var raws := [[top], [mid], [low]];
    var b1, b3 := Buffer([], {w}, false), Buffer([low], {w, x}, false);
    AddOne(EMPTY, top);
    AddOne(b1, mid);
    AddOne(b1, low);
    assert Stripped(Whiteout(w)) == w && Add(EMPTY, top) == b1 && Add(b1, mid) == b1 && Add(b1, low) == b3;
    MergedStep(EMPTY, [top], [[mid], [low]]);
    MergedStep(b1, [mid], [[low]]);
    MergedStep(b1, [low], []);
    assert raws == [[top]] + [[mid], [low]] && [[mid], [low]] == [[mid]] + [[low]] && [[low]] == [[low]] + [];
    assert b3.entries[0].name == x;
  }

  lemma {:induction false} HiddenBelow(dirs: seq<Node>, x: string)
    requires |dirs| == 3 && dirs[0].Dir? && dirs[1].Dir? && x !in dirs[0].entries && x !in dirs[1].entries && Hides(dirs[1].entries, x)
    ensures x !in Flatten(Overlay.Contents(dirs))
  {
    VisibleInImage(dirs, x);
    Overlay.FirstStep(dirs, x);
    Overlay.FirstStep(dirs[1..], x);
  }
}

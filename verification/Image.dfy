/** Opening paths, links and all, through the overlay or in the flattened image. */
module Image {
  import opened Vfs
  import opened OciTree
  import opened Paths
  import opened Resolve
  import Overlay

  /** Lookup in an ordinary tree. */
  function TreeLook(n: Node, name: string): Entry<Node> {
    if !n.Dir? then NotADir
    else if name !in n.entries then Absent
    else match n.entries[name]
      case Dir(_) => DirEntry(n.entries[name])
      case File(_) => FileEntry(n.entries[name])
      case Link(t) => LinkEntry(t)
  }

  /** Lookup in the overlay: the layers that openFile keeps, or the link it meets. */
  function OverlayLook(layers: seq<Node>, name: string): Entry<seq<Node>> {
    if layers != [] && !layers[0].Dir? then NotADir
    else
      var ns := Overlay.Merge(layers, name);
      if ns == [] then Absent
      else match ns[0]
        case Dir(_) => DirEntry(ns)
        case File(_) => FileEntry(ns)
        case Link(t) => LinkEntry(t)
  }

  /** The overlay's openFile is what resolution does with that lookup. */
  lemma {:induction false} LookOpens(at: Handle<seq<Node>>, name: string, wantDir: bool)
    requires IsProper(name)
    ensures OpenFile(OverlayLook, at, name, wantDir) ==
      match Overlay.Opened(at.Node(), name, wantDir) case Ok(ns) => Ok(at.Push(name, ns)) case Err(e) => Err(e)
  {
  }

  /** Looking up an ordinary name in a handle is looking it up in the image. */
  lemma {:induction false} LookAgrees(layers: seq<Node>, name: string)
    requires Overlay.ValidHandle(layers) && !IsWhiteout(name)
    ensures TreeLook(Overlay.View(layers), name) == MapEntry(VIEW, OverlayLook(layers, name))
    ensures match OverlayLook(layers, name)
      case DirEntry(ns) => Overlay.ValidHandle(ns)
      case FileEntry(ns) => Overlay.ValidHandle(ns)
      case _ => true
  {
    Overlay.MergeIsFlattened(layers, name);
    Overlay.MergeShape(layers, name);
  }

  // ----- handles

  const VIEW: seq<Node> -> Node := layers => Overlay.View(layers)

  const MARKER: string -> bool := name => IsWhiteout(name)

  ghost const VALID: seq<Node> -> bool := layers => Overlay.ValidHandle(layers)

  function HandleView(h: Handle<seq<Node>>): Handle<Node> { MapHandle(VIEW, h) }

  ghost predicate SoundHandle(h: Handle<seq<Node>>) { HandleIs(VALID, h) }

  /** Resolution in an ordinary tree comes to a marker name. */
  predicate MeetsMarker(at: Handle<Node>, cs: seq<string>, wantDir: bool, nofollow: bool, links: nat) {
    Meets(TreeLook, MARKER, at, cs, wantDir, nofollow, links)
  }

  lemma {:induction false} ImageMirrors()
    ensures Mirrors(OverlayLook, TreeLook, VIEW, VALID, MARKER)
  {
    forall n, x | VALID(n) && !MARKER(x)
      ensures TreeLook(VIEW(n), x) == MapEntry(VIEW, OverlayLook(n, x)) && EntryIs(VALID, OverlayLook(n, x))
    {
      LookAgrees(n, x);
    }
  }

  /** The result of a resolution through the overlay, seen in the image. */
  function Imaged(r: Result<Handle<seq<Node>>>): Result<Handle<Node>> {
    match r case Ok(h) => Ok(HandleView(h)) case Err(e) => Err(e)
  }

  /** Unless it comes to a marker name, resolution through the overlay and resolution in the
      flattened image agree: the same error, or handles on the same chain of names with the same
      nodes. */
  lemma {:induction false} ResolvedAgrees(h: Handle<seq<Node>>, cs: seq<string>, wantDir: bool, nofollow: bool, links: nat)
    requires SoundHandle(h) && !MeetsMarker(HandleView(h), cs, wantDir, nofollow, links)
    ensures Resolved(TreeLook, HandleView(h), cs, wantDir, nofollow, links) == Imaged(Resolved(OverlayLook, h, cs, wantDir, nofollow, links))
  {
    ImageMirrors();
    MirrorResolves(OverlayLook, TreeLook, VIEW, VALID, MARKER, h, cs, wantDir, nofollow, links);
  }

  function RootOf<H>(root: H): Handle<H> { Handle(root, []) }

  /** Opening a path string from the root of a layer stack is opening it in the image that
      the stack flattens to, unless that comes to a marker name. */
  method OpenInStack(stack: seq<Node>, name: string, wantDir: bool, nofollow: bool) returns (r: Result<Handle<seq<Node>>>)
    requires Overlay.ValidHandle(stack)
    ensures r == Opened(OverlayLook, RootOf(stack), name, wantDir, nofollow)
    ensures !MeetsMarker(RootOf(Overlay.View(stack)), Comps(name), wantDir || HasTrailingSlash(name), nofollow, MAX_FOLLOW_SYMLINK) ==>
      Imaged(r) == Opened(TreeLook, RootOf(Overlay.View(stack)), name, wantDir, nofollow)
  {
    var root := RootOf(stack);
    r := FileOpen(OverlayLook, root, name, wantDir, nofollow);
    assert HandleView(root) == RootOf(Overlay.View(stack));
    var directory := wantDir || HasTrailingSlash(name);
    if name != "" && !MeetsMarker(HandleView(root), Comps(name), directory, nofollow, MAX_FOLLOW_SYMLINK) {
      ResolvedAgrees(root, Comps(name), directory, nofollow, MAX_FOLLOW_SYMLINK);
      assert Start(root, name) == root && Start(HandleView(root), name) == HandleView(root);
    }
  }

  // ----- which paths

  /** Every link below a node has a target made of ordinary names. */
  ghost predicate PlainLinks(n: Node) {
    match n
    case File(_) => true
    case Link(t) => Overlay.OrdinaryNames(Comps(t))
    case Dir(es) => forall x :: x in es ==> PlainLinks(es[x])
  }

  ghost predicate PlainHandle(h: Handle<Node>) {
    PlainLinks(h.root) && forall i :: 0 <= i < |h.path| ==> PlainLinks(h.path[i].node)
  }

  lemma {:induction false} PlainMeetsNone(h: Handle<Node>, cs: seq<string>, wantDir: bool, nofollow: bool, links: nat)
    requires PlainHandle(h) && Overlay.OrdinaryNames(cs)
    ensures !MeetsMarker(h, cs, wantDir, nofollow, links)
    decreases links, |cs|
  {
    if cs == [] {
    } else if cs[0] == "." {
      PlainMeetsNone(h, cs[1..], wantDir, nofollow, links);
    } else if cs[0] == ".." {
      PlainMeetsNone(h.Parent(), cs[1..], wantDir, nofollow, links);
    } else {
      assert PlainLinks(h.Node());
      match TreeLook(h.Node(), cs[0])
      case LinkEntry(t) =>
        assert PlainLinks(EntriesOf(h.Node())[cs[0]]);
        if links > 0 { PlainMeetsNone(Start(h, t), Comps(t) + cs[1..], wantDir, nofollow, links - 1); }
      case DirEntry(n) => PlainMeetsNone(h.Push(cs[0], n), cs[1..], wantDir, nofollow, links);
      case _ =>
    }
  }

  ghost predicate AgreesOn(stack: seq<Node>, cs: seq<string>, wantDir: bool, nofollow: bool, links: nat) {
    Resolved(TreeLook, RootOf(Overlay.View(stack)), cs, wantDir, nofollow, links)
      == Imaged(Resolved(OverlayLook, RootOf(stack), cs, wantDir, nofollow, links))
  }

  /** A directory `depth` levels deep that holds given names at every level, and given markers
      as files. */
  function Dense(names: set<string>, depth: nat): Node {
    if depth == 0 then Dir(map[])
    else Dir(map x | x in names :: if IsWhiteout(x) then File(0) else Dense(names, depth - 1))
  }

  ghost predicate DenseLayer(layers: seq<Node>, names: set<string>, depth: nat) {
    exists d :: d >= depth && layers == [Dense(names, d)]
  }

  ghost predicate DenseHandle(h: Handle<seq<Node>>, names: set<string>, depth: nat) {
    DenseLayer(h.root, names, depth) && forall i :: 0 <= i < |h.path| ==> DenseLayer(h.path[i].node, names, depth)
  }

  lemma {:induction false} DenseLook(layers: seq<Node>, names: set<string>, depth: nat, x: string)
    requires DenseLayer(layers, names, depth) && depth > 0 && x in names
    ensures IsWhiteout(x) ==> OverlayLook(layers, x).FileEntry? && TreeLook(Overlay.View(layers), x) == Absent
    ensures !IsWhiteout(x) ==>
      && OverlayLook(layers, x).DirEntry? && DenseLayer(OverlayLook(layers, x).node, names, depth - 1)
      && TreeLook(Overlay.View(layers), x) == DirEntry(Overlay.View(OverlayLook(layers, x).node))
  {
    var d :| d >= depth && layers == [Dense(names, d)];
    var n := EntriesOf(layers[0])[x];
    assert layers[1..] == [];
    assert Overlay.Merge(layers, x) == [n];
    if IsWhiteout(x) {
      FlattenUnmarked(Overlay.Contents(layers));
    } else {
      assert n == Dense(names, d - 1);
      LookAgrees(layers, x);
    }
  }

  ghost predicate Held(cs: seq<string>, names: set<string>) { AreComponents(cs) && forall i :: 0 <= i < |cs| ==> cs[i] in names }

  lemma {:induction false} DenseMoves(h: Handle<seq<Node>>, names: set<string>, depth: nat)
    requires DenseHandle(h, names, depth) && depth > 0
    ensures DenseHandle(h, names, depth - 1) && DenseHandle(h.Parent(), names, depth - 1) && DenseLayer(h.Node(), names, depth)
  {
  }

  lemma {:induction false} RestHeld(cs: seq<string>, names: set<string>)
    requires Held(cs, names) && cs != []
    ensures Held(cs[1..], names) && cs[0] in names && IsComponent(cs[0])
    ensures !IsWhiteout(cs[0]) ==> Overlay.OrdinaryNames(cs[1..]) == Overlay.OrdinaryNames(cs)
  {
    if Overlay.OrdinaryNames(cs[1..]) && !IsWhiteout(cs[0]) {
      forall i | 0 <= i < |cs| ensures !IsWhiteout(cs[i]) { if i > 0 { assert cs[1..][i - 1] == cs[i]; } }
    }
  }

  /** In such a stack every path that holds a marker name resolves otherwise than in its image. */
  lemma {:induction false} MarkerDiffers(h: Handle<seq<Node>>, names: set<string>, cs: seq<string>, wantDir: bool, nofollow: bool, links: nat)
    requires DenseHandle(h, names, |cs|) && Held(cs, names) && !Overlay.OrdinaryNames(cs)
    ensures Resolved(TreeLook, HandleView(h), cs, wantDir, nofollow, links) == Err(ENOENT)
    ensures Resolved(OverlayLook, h, cs, wantDir, nofollow, links) != Err(ENOENT)
    decreases |cs|
  {
    MapHandleMoves(VIEW, h, "", [], "");
    RestHeld(cs, names);
    DenseMoves(h, names, |cs|);
    if cs[0] == "." {
      MarkerDiffers(h, names, cs[1..], wantDir, nofollow, links);
    } else if cs[0] == ".." {
      MarkerDiffers(h.Parent(), names, cs[1..], wantDir, nofollow, links);
    } else {
      DenseLook(h.Node(), names, |cs|, cs[0]);
      if !IsWhiteout(cs[0]) {
        var ns := OverlayLook(h.Node(), cs[0]).node;
        MapHandleMoves(VIEW, h, cs[0], ns, "");
        MarkerDiffers(h.Push(cs[0], ns), names, cs[1..], wantDir, nofollow, links);
      }
    }
  }

  /** A path is resolved as in the image on every stack whose links spell ordinary names exactly
      when it is made of ordinary names itself. */
  lemma {:induction false} OrdinaryPathsExactly(cs: seq<string>, wantDir: bool, nofollow: bool, links: nat)
    requires AreComponents(cs)
    ensures Overlay.OrdinaryNames(cs) <==>
      forall stack :: Overlay.ValidHandle(stack) && PlainLinks(Overlay.View(stack)) ==> AgreesOn(stack, cs, wantDir, nofollow, links)
  {
    if Overlay.OrdinaryNames(cs) {
      forall stack | Overlay.ValidHandle(stack) && PlainLinks(Overlay.View(stack)) ensures AgreesOn(stack, cs, wantDir, nofollow, links) {
        assert HandleView(RootOf(stack)) == RootOf(Overlay.View(stack));
        PlainMeetsNone(RootOf(Overlay.View(stack)), cs, wantDir, nofollow, links);
        ResolvedAgrees(RootOf(stack), cs, wantDir, nofollow, links);
      }
    } else {
      var names := set i | 0 <= i < |cs| :: cs[i];
      var stack := [Dense(names, |cs|)];
      assert DenseLayer(stack, names, |cs|);
      assert HandleView(RootOf(stack)) == RootOf(Overlay.View(stack));
      MarkerDiffers(RootOf(stack), names, cs, wantDir, nofollow, links);
      assert !AgreesOn(stack, cs, wantDir, nofollow, links);
      DenseViewPlain(names, |cs|);
    }
  }

  lemma {:induction false} LinkFreeApply(below: Entries, layer: Entries)
    requires LinkFree(Dir(below)) && LinkFree(Dir(layer))
    ensures LinkFree(Dir(Apply(below, layer)))
    decreases Dir(layer)
  {
    forall x | x in Apply(below, layer) ensures LinkFree(Apply(below, layer)[x]) {
      assert (x in layer ==> LinkFree(layer[x])) && (x in below ==> LinkFree(below[x]));
      assert Apply(below, layer)[x] == if x in layer then Put(Kept(below, layer), x, layer[x]) else below[x];
      if x in layer && layer[x].Dir? {
        var kept := Kept(below, layer);
        var under := if x in kept then EntriesOf(kept[x]) else map[];
        assert LinkFree(Dir(under));
        LinkFreeApply(under, layer[x].entries);
      }
    }
  }

  ghost predicate LinkFree(n: Node) {
    match n
    case File(_) => true
    case Link(_) => false
    case Dir(es) => forall x :: x in es ==> LinkFree(es[x])
  }

  lemma {:induction false} LinkFreePlain(n: Node)
    requires LinkFree(n)
    ensures PlainLinks(n)
  {
    match n
    case Dir(es) => forall x | x in es ensures PlainLinks(es[x]) { LinkFreePlain(es[x]); }
    case _ =>
  }

  lemma {:induction false} DenseLinkFree(names: set<string>, depth: nat)
    ensures LinkFree(Dense(names, depth))
  {
    if depth > 0 { DenseLinkFree(names, depth - 1); }
  }

  lemma {:induction false} DenseViewPlain(names: set<string>, depth: nat)
    ensures PlainLinks(Overlay.View([Dense(names, depth)])) && Overlay.ValidHandle([Dense(names, depth)])
  {
    var layers := [Dense(names, depth)];
    DenseLinkFree(names, depth);
    assert layers[1..] == [] && Overlay.Contents(layers) == [EntriesOf(layers[0])];
    assert Flatten(Overlay.Contents(layers)) == Apply(map[], EntriesOf(layers[0]));
    LinkFreeApply(map[], EntriesOf(layers[0]));
    LinkFreePlain(Overlay.View(layers));
  }

  // ----- a directory asked for through a link

  /** With `l` a link to the directory `d`, "d/" opens and "l/" does not, although following the
      link would reach the same node. */
  lemma {:induction false} LinkToDirectory()
    ensures var root := RootOf(Dir(map["d" := Dir(map[]), "l" := Link("d")]));
      && Opened(TreeLook, root, "d/", false, false) == Ok(root.Push("d", Dir(map[])))
      && Opened(TreeLook, root, "l/", false, false) == Err(ENOTDIR)
      && Followed(TreeLook, root, Comps("l/"), true, false, MAX_FOLLOW_SYMLINK) == Ok(root.Push("d", Dir(map[])))
  {
    var root := RootOf(Dir(map["d" := Dir(map[]), "l" := Link("d")]));
    OneComponent("d");
    OneComponent("l");
    assert "d" + "/" == "d/" && "l" + "/" == "l/";
    assert Resolved(TreeLook, root.Push("d", Dir(map[])), [], true, false, MAX_FOLLOW_SYMLINK) == Ok(root.Push("d", Dir(map[])));
    assert ["d"][1..] == [] && ["l"][1..] == [] && ["d"] + [] == ["d"];
    assert TreeLook(root.Node(), "l") == LinkEntry("d") && TreeLook(root.Node(), "d") == DirEntry(Dir(map[]));
    assert Followed(TreeLook, root, ["d"], true, false, MAX_FOLLOW_SYMLINK - 1) == Ok(root.Push("d", Dir(map[])));
  }

  lemma {:induction false} OneComponent(c: string)
    requires IsComponent(c)
    ensures Comps(c) == [c] && Comps(c + "/") == [c] && HasTrailingSlash(c + "/") && !IsAbs(c + "/")
  {
    CompsOfOne(c);
    CompsJoin(c, "");
    assert c + "/" == c + "/" + "" && Comps("") == [];
  }
}

/** Path resolution inside a root (internal/sandbox/fs.go) over any file system, known by
    what each of its directories answers for a name. */
module Resolve {
  import opened Vfs
  import opened Paths

  const MAX_FOLLOW_SYMLINK: nat := 10

  /** What a node holds under a name. */
  datatype Entry<+H> = NotADir | Absent | DirEntry(node: H) | FileEntry(node: H) | LinkEntry(target: string)

  datatype Step<+H> = Step(name: string, node: H)

  /** An open handle keeps its chain of parents: the steps taken from the root. */
  datatype Handle<+H> = Handle(root: H, path: seq<Step<H>>) {
    function Node(): H { if path == [] then root else path[|path| - 1].node }
    function Root(): Handle<H> { Handle(root, []) }
    function Parent(): Handle<H> { if path == [] then this else Handle(root, path[..|path| - 1]) }
    function Push(name: string, node: H): Handle<H> { Handle(root, path + [Step(name, node)]) }
  }

  type Lookup<!H> = (H, string) -> Entry<H>

  // ----- one name

  predicate IsDots(name: string) { name == "." || name == ".." }

  /** A name that can only denote something directly inside a directory. */
  predicate IsProper(name: string) { IsComponent(name) && !IsDots(name) }

  /** openFile: the name is opened without following it.  The precondition is checked at
      every call below, so resolution never passes on anything but one proper component. */
  function OpenFile<H>(look: Lookup<H>, at: Handle<H>, name: string, wantDir: bool): Result<Handle<H>>
    requires IsProper(name)
  {
    match look(at.Node(), name)
    case NotADir => Err(ENOTDIR)
    case Absent => Err(ENOENT)
    case DirEntry(n) => Ok(at.Push(name, n))
    case FileEntry(n) => if wantDir then Err(ENOTDIR) else Ok(at.Push(name, n))
    case LinkEntry(_) => if wantDir then Err(ENOTDIR) else Err(ELOOP)
  }

  function Readlink<H>(look: Lookup<H>, at: Handle<H>, name: string): Result<string> {
    match look(at.Node(), name)
    case NotADir => Err(ENOTDIR)
    case Absent => Err(ENOENT)
    case LinkEntry(t) => Ok(t)
    case _ => Err(EINVAL)
  }

  /** The callback of FileOpen: openSelf, openParent or openFile. */
  function OpenElem<H>(look: Lookup<H>, at: Handle<H>, elem: string, wantDir: bool): Result<Handle<H>>
    requires IsComponent(elem)
  {
    if elem == "." then Ok(at)
    else if elem == ".." then Ok(at.Parent())
    else OpenFile(look, at, elem, wantDir)
  }

  // ----- the meaning of a path

  function Start<H>(at: Handle<H>, name: string): Handle<H> {
    if IsAbs(name) then at.Root() else at
  }

  /** Component-by-component resolution: ".." stops at the root, a link is replaced by the
      components of its target, and at most `links` links are followed. */
  function Resolved<H>(look: Lookup<H>, at: Handle<H>, cs: seq<string>, wantDir: bool, nofollow: bool, links: nat)
    : Result<Handle<H>>
    decreases links, |cs|
  {
    if cs == [] then Ok(at)
    else if cs[0] == "." then Resolved(look, at, cs[1..], wantDir, nofollow, links)
    else if cs[0] == ".." then Resolved(look, at.Parent(), cs[1..], wantDir, nofollow, links)
    else
      match look(at.Node(), cs[0])
      case LinkEntry(t) =>
        if |cs| == 1 && (wantDir || nofollow) then Err(if wantDir then ENOTDIR else ELOOP)
        else if links == 0 then Err(ELOOP)
        else Resolved(look, Start(at, t), Comps(t) + cs[1..], wantDir, nofollow, links - 1)
      case DirEntry(n) => Resolved(look, at.Push(cs[0], n), cs[1..], wantDir, nofollow, links)
      case FileEntry(n) => if |cs| > 1 || wantDir then Err(ENOTDIR) else Ok(at.Push(cs[0], n))
      case Absent => Err(ENOENT)
      case NotADir => Err(ENOTDIR)
  }

  function Opened<H>(look: Lookup<H>, at: Handle<H>, name: string, wantDir: bool, nofollow: bool): Result<Handle<H>> {
    if name == "" then Err(EINVAL)
    else Resolved(look, Start(at, name), Comps(name), wantDir || HasTrailingSlash(name), nofollow, MAX_FOLLOW_SYMLINK)
  }

  ghost predicate NonEmptyLinks<H(!new)>(look: Lookup<H>) {
    forall n, name :: look(n, name).LinkEntry? ==> look(n, name).target != ""
  }

  // ----- any callback

  /** What is done with the last component of a path: open, stat, readlink and others. */
  type Leaf<!H, !R> = (Handle<H>, string) -> Result<R>

  predicate Loops<R>(r: Result<R>) { r.Err? && r.error == ELOOP }

  /** Component-by-component resolution as above, with a callback for the last component, which
      says ELOOP for a link that is to be followed. */
  function Walked<H, R>(look: Lookup<H>, at: Handle<H>, cs: seq<string>, leaf: Leaf<H, R>, nofollow: bool, links: nat): Result<R>
    decreases links, |cs|, 1
  {
    if |cs| <= 1 then LastWalked(look, at, if cs == [] then "." else cs[0], leaf, nofollow, links)
    else if cs[0] == "." then Walked(look, at, cs[1..], leaf, nofollow, links)
    else if cs[0] == ".." then Walked(look, at.Parent(), cs[1..], leaf, nofollow, links)
    else
      match look(at.Node(), cs[0])
      case LinkEntry(t) =>
        if links == 0 then Err(ELOOP) else Walked(look, Start(at, t), Comps(t) + cs[1..], leaf, nofollow, links - 1)
      case DirEntry(n) => Walked(look, at.Push(cs[0], n), cs[1..], leaf, nofollow, links)
      case FileEntry(_) => Err(ENOTDIR)
      case Absent => Err(ENOENT)
      case NotADir => Err(ENOTDIR)
  }

  function LastWalked<H, R>(look: Lookup<H>, at: Handle<H>, elem: string, leaf: Leaf<H, R>, nofollow: bool, links: nat): Result<R>
    decreases links, 0, 0
  {
    var r := leaf(at, elem);
    if nofollow || !Loops(r) then r
    else match Readlink(look, at, elem)
      case Err(e) => Err(e)
      case Ok(t) => if links == 0 then Err(ELOOP) else Walked(look, Start(at, t), Comps(t), leaf, nofollow, links - 1)
  }

  /** The callback says ELOOP only for links. */
  ghost predicate Honest<H(!new), R>(look: Lookup<H>, leaf: Leaf<H, R>) {
    forall at, elem :: Loops(leaf(at, elem)) ==> Readlink(look, at, elem).Ok?
  }

  /** The callback only ever sees single components: what it says of anything else does not
      matter. */
  lemma {:induction false} LeafSeesComponents<H, R>(look: Lookup<H>, at: Handle<H>, cs: seq<string>, f: Leaf<H, R>, g: Leaf<H, R>, nofollow: bool, links: nat)
    requires AreComponents(cs) && forall h, e :: IsComponent(e) ==> f(h, e) == g(h, e)
    ensures Walked(look, at, cs, f, nofollow, links) == Walked(look, at, cs, g, nofollow, links)
    decreases links, |cs|
  {
    if |cs| <= 1 {
      var e := if cs == [] then "." else cs[0];
      assert IsComponent(e) && f(at, e) == g(at, e);
      var l := Readlink(look, at, e);
      if l.Ok? && links > 0 {
        CompsAreComponents(l.value);
        LeafSeesComponents(look, Start(at, l.value), Comps(l.value), f, g, nofollow, links - 1);
      }
    } else if cs[0] == "." {
      LeafSeesComponents(look, at, cs[1..], f, g, nofollow, links);
    } else if cs[0] == ".." {
      LeafSeesComponents(look, at.Parent(), cs[1..], f, g, nofollow, links);
    } else {
      match look(at.Node(), cs[0])
      case LinkEntry(t) =>
        CompsAreComponents(t);
        if links > 0 { LeafSeesComponents(look, Start(at, t), Comps(t) + cs[1..], f, g, nofollow, links - 1); }
      case DirEntry(n) => LeafSeesComponents(look, at.Push(cs[0], n), cs[1..], f, g, nofollow, links);
      case _ =>
    }
  }

  // ----- the algorithm

  lemma {:induction false} FollowName(link: string, rest: string)
    requires link != ""
    ensures Comps(link + "/" + rest) == Comps(link) + Comps(rest)
    ensures IsAbs(link + "/" + rest) == IsAbs(link)
  {
    CompsJoin(link, rest);
  }

  lemma {:induction false} InnerElem<H, R>(look: Lookup<H>, at: Handle<H>, elem: string, rest: seq<string>, leaf: Leaf<H, R>, nofollow: bool, links: nat)
    requires IsComponent(elem) && rest != []
    ensures var r, d, l :=
        Walked(look, at, [elem] + rest, leaf, nofollow, links), OpenElem(look, at, elem, true), Readlink(look, at, elem);
      if d.Ok? then r == Walked(look, d.value, rest, leaf, nofollow, links)
      else if d.error != ENOTDIR then r == Err(d.error)
      else if l.Err? then r == Err(ENOTDIR) && (l.error == EINVAL || l.error == ENOTDIR)
      else r == if links == 0 then Err(ELOOP)
                else Walked(look, Start(at, l.value), Comps(l.value) + rest, leaf, nofollow, links - 1)
  {
    assert ([elem] + rest)[1..] == rest;
  }

  lemma {:induction false} AbsoluteName<H, R>(look: Lookup<H>, at: Handle<H>, name: string, leaf: Leaf<H, R>, nofollow: bool, links: nat)
    ensures var rest := if Trim(name) == "" then "." else Trim(name);
      && |rest| <= |name| + 1 && (IsAbs(name) ==> |rest| <= |name|)
      && Walked(look, at.Root(), Comps(rest), leaf, nofollow, links) == Walked(look, at.Root(), Comps(name), leaf, nofollow, links)
  {
    CompsTrim(name);
    if Trim(name) == "" {
      FirstComp(".", 1);
      assert "."[..1] == "." && Comps("."[1..]) == [];
      assert Comps(".") == ["."];
    }
  }

  /** After one element the loop either has its answer or goes on with a directory, a
      string and a count of links followed. */
  datatype Turn<+H, +R> = Done(result: Result<R>) | Again(dir: Handle<H>, name: string, followed: nat)

  ghost predicate TurnOk<H, R>(look: Lookup<H>, t: Turn<H, R>, leaf: Leaf<H, R>, nofollow: bool, goal: Result<R>) {
    match t
    case Done(r) => r == goal
    case Again(dir, name, followed) =>
      && name != "" && followed <= MAX_FOLLOW_SYMLINK
      && Walked(look, Start(dir, name), Comps(name), leaf, nofollow, MAX_FOLLOW_SYMLINK - followed) == goal
  }

  method LeafTurn<H(!new), R>(look: Lookup<H>, dir: Handle<H>, elem: string, leaf: Leaf<H, R>, nofollow: bool, followed: nat)
    returns (t: Turn<H, R>)
    requires followed <= MAX_FOLLOW_SYMLINK && NonEmptyLinks(look) && Honest(look, leaf)
    ensures TurnOk(look, t, leaf, nofollow, LastWalked(look, dir, elem, leaf, nofollow, MAX_FOLLOW_SYMLINK - followed))
    ensures t.Again? ==> t.followed == followed + 1
  {
    var r := leaf(dir, elem);
    if Loops(r) && !nofollow {
      var link := Readlink(look, dir, elem);
      if followed == MAX_FOLLOW_SYMLINK {
        return Done(Err(ELOOP));
      }
      return Again(dir, link.value, followed + 1);
    }
    return Done(r);
  }

  method InnerTurn<H(!new), R>(look: Lookup<H>, dir: Handle<H>, elem: string, name: string, leaf: Leaf<H, R>, nofollow: bool, followed: nat)
    returns (t: Turn<H, R>)
    requires IsComponent(elem) && followed <= MAX_FOLLOW_SYMLINK && NonEmptyLinks(look)
    requires name != "" && !IsAbs(name)
    ensures TurnOk(look, t, leaf, nofollow, Walked(look, dir, [elem] + Comps(name), leaf, nofollow, MAX_FOLLOW_SYMLINK - followed))
    ensures t.Again? ==> t.followed == followed + 1 || (t.followed == followed && t.name == name)
  {
    CompsAreComponents(name);
    InnerElem(look, dir, elem, Comps(name), leaf, nofollow, MAX_FOLLOW_SYMLINK - followed);
    if elem == "." {
      return Again(dir, name, followed);
    }
    var d := OpenElem(look, dir, elem, true);
    if d.Ok? {
      return Again(d.value, name, followed);
    }
    if d.error != ENOTDIR {
      return Done(Err(d.error));
    }
    var link := Readlink(look, dir, elem);
    if link.Err? {
      return Done(Err(if link.error == EINVAL then ENOTDIR else link.error));
    }
    if followed == MAX_FOLLOW_SYMLINK {
      return Done(Err(ELOOP));
    }
    FollowName(link.value, name);
    return Again(dir, link.value + "/" + name, followed + 1);
  }

  /** An absolute name starts over at the root. */
  method Anchor<H(!new), R>(look: Lookup<H>, at: Handle<H>, path: string, followed: nat, leaf: Leaf<H, R>, nofollow: bool,
      ghost goal: Result<R>)
    returns (dir: Handle<H>, name: string)
    requires TurnOk(look, Again(at, path, followed), leaf, nofollow, goal)
    ensures name != "" && !IsAbs(name) && |name| <= |path|
    ensures Walked(look, dir, Comps(name), leaf, nofollow, MAX_FOLLOW_SYMLINK - followed) == goal
  {
    dir, name := at, path;
    if IsAbs(name) {
      AbsoluteName(look, dir, name, leaf, nofollow, MAX_FOLLOW_SYMLINK - followed);
      name := TrimLeadingSlash(name);
      if name == "" {
        name := ".";
      }
      dir := dir.Root();
    }
  }

  /** The resolution loop works on the string left to walk and gives the meaning above,
      whatever the spelling and whatever the callback. */
  method ResolvePath<H(!new), R>(look: Lookup<H>, start: Handle<H>, path: string, nofollow: bool, leaf: Leaf<H, R>)
    returns (r: Result<R>)
    requires NonEmptyLinks(look) && Honest(look, leaf)
    ensures r == if path == "" then leaf(start, "")
                 else Walked(look, Start(start, path), Comps(path), leaf, nofollow, MAX_FOLLOW_SYMLINK)
  {
    if path == "" {
      return leaf(start, "");
    }
    var dir, name, followed := start, path, 0;
    ghost var goal := Walked(look, Start(start, path), Comps(path), leaf, nofollow, MAX_FOLLOW_SYMLINK);
    while true
      invariant TurnOk(look, Again(dir, name, followed), leaf, nofollow, goal)
      decreases MAX_FOLLOW_SYMLINK - followed, |name|
    {
      dir, name := Anchor(look, dir, name, followed, leaf, nofollow, goal);
      var elem, rest := Walk(name);
      var turn;
      if rest == "" {
        assert [elem] + Comps(rest) == [elem];
        turn := LeafTurn(look, dir, elem, leaf, nofollow, followed);
      } else {
        turn := InnerTurn(look, dir, elem, rest, leaf, nofollow, followed);
      }
      if turn.Done? {
        return turn.result;
      }
      dir, name, followed := turn.dir, turn.name, turn.followed;
    }
  }

  // ----- opening

  function OpenLeaf<H>(look: Lookup<H>, wantDir: bool): Leaf<H, Handle<H>> {
    (at, elem) => if IsComponent(elem) then OpenElem(look, at, elem, wantDir) else Err(EINVAL)
  }

  lemma {:induction false} OpenHonest<H(!new)>(look: Lookup<H>, wantDir: bool)
    ensures Honest(look, OpenLeaf(look, wantDir))
  {
  }

  /** With that callback the resolution is the one that opens. */
  lemma {:induction false} OpenWalked<H>(look: Lookup<H>, at: Handle<H>, cs: seq<string>, wantDir: bool, nofollow: bool, links: nat)
    requires AreComponents(cs)
    ensures Walked(look, at, cs, OpenLeaf(look, wantDir), nofollow, links) == Resolved(look, at, cs, wantDir, nofollow, links)
    decreases links, |cs|
  {
    if |cs| <= 1 {
      OpenLast(look, at, cs, wantDir, nofollow, links);
    } else if cs[0] == "." {
      OpenWalked(look, at, cs[1..], wantDir, nofollow, links);
    } else if cs[0] == ".." {
      OpenWalked(look, at.Parent(), cs[1..], wantDir, nofollow, links);
    } else {
      match look(at.Node(), cs[0])
      case LinkEntry(t) =>
        CompsAreComponents(t);
        if links > 0 { OpenWalked(look, Start(at, t), Comps(t) + cs[1..], wantDir, nofollow, links - 1); }
      case DirEntry(n) => OpenWalked(look, at.Push(cs[0], n), cs[1..], wantDir, nofollow, links);
      case _ =>
    }
  }

  lemma {:induction false} OpenLast<H>(look: Lookup<H>, at: Handle<H>, cs: seq<string>, wantDir: bool, nofollow: bool, links: nat)
    requires AreComponents(cs) && |cs| <= 1
    ensures Walked(look, at, cs, OpenLeaf(look, wantDir), nofollow, links) == Resolved(look, at, cs, wantDir, nofollow, links)
    decreases links, |cs|, 0
  {
    var e, leaf := if cs == [] then "." else cs[0], OpenLeaf(look, wantDir);
    assert IsComponent(e) && leaf(at, e) == OpenElem(look, at, e, wantDir);
    assert Walked(look, at, cs, leaf, nofollow, links) == LastWalked(look, at, e, leaf, nofollow, links);
    if cs != [] {
      assert cs[1..] == [];
      if IsDots(e) {
        assert !Loops(leaf(at, e));
      } else {
        match look(at.Node(), e)
        case LinkEntry(t) =>
          CompsAreComponents(t);
          assert Comps(t) + cs[1..] == Comps(t) && Readlink(look, at, e) == Ok(t);
          if links > 0 { OpenWalked(look, Start(at, t), Comps(t), wantDir, nofollow, links - 1); }
        case _ =>
      }
    }
  }

  /** "." and ".." at the root stay at the root. */
  lemma {:induction false} DotsStay<H>(look: Lookup<H>, at: Handle<H>, cs: seq<string>, wantDir: bool, nofollow: bool, links: nat)
    requires OnlyDots(cs) && at.path == []
    ensures Resolved(look, at, cs, wantDir, nofollow, links) == Ok(at)
    decreases |cs|
  {
    if cs != [] { DotsStay(look, at, cs[1..], wantDir, nofollow, links); }
  }

  method FileOpen<H(!new)>(look: Lookup<H>, at: Handle<H>, name: string, wantDir: bool, nofollow: bool)
    returns (r: Result<Handle<H>>)
    requires NonEmptyLinks(look)
    ensures r == Opened(look, at, name, wantDir, nofollow)
  {
    if name == "" {
      return Err(EINVAL);
    }
    var root := IsRoot(name);
    if root {
      DotsStay(look, at.Root(), Comps(name), wantDir || HasTrailingSlash(name), nofollow, MAX_FOLLOW_SYMLINK);
      return Ok(at.Root());
    }
    var directory := wantDir || HasTrailingSlash(name);
    OpenHonest(look, directory);
    CompsAreComponents(name);
    OpenWalked(look, Start(at, name), Comps(name), directory, nofollow, MAX_FOLLOW_SYMLINK);
    r := ResolvePath(look, at, name, nofollow, OpenLeaf(look, directory));
  }

  /** Opening one component with O_DIRECTORY and O_NOFOLLOW, as the loop does for every
      directory on its way, is one openSelf, openParent or openFile. */
  lemma {:induction false} OpenComponent<H>(look: Lookup<H>, at: Handle<H>, elem: string)
    requires IsComponent(elem)
    ensures Opened(look, at, elem, true, true) == OpenElem(look, at, elem, true)
  {
    FirstComp(elem, |elem|);
    assert elem[..|elem|] == elem && Comps(elem[|elem|..]) == [];
    assert Comps(elem) == [elem];
    OpenLast(look, at, [elem], true, true, MAX_FOLLOW_SYMLINK);
  }

  // ----- status and link targets

  /** What lstat finds: a node, or a link. */
  datatype Seen<+H> = NodeSeen(node: H) | LinkSeen(target: string)

  function Lstat<H>(look: Lookup<H>, at: Handle<H>, elem: string): Result<Seen<H>> {
    if elem == "" || elem == "." then Ok(NodeSeen(at.Node()))
    else if elem == ".." then Ok(NodeSeen(at.Parent().Node()))
    else match look(at.Node(), elem)
      case NotADir => Err(ENOTDIR)
      case Absent => Err(ENOENT)
      case DirEntry(n) => Ok(NodeSeen(n))
      case FileEntry(n) => Ok(NodeSeen(n))
      case LinkEntry(t) => Ok(LinkSeen(t))
  }

  /** FileStat wraps lstat so that a link is followed unless it is asked for itself. */
  function StatLeaf<H, R>(lstat: Leaf<H, R>, isLink: R -> bool, nofollow: bool): Leaf<H, R> {
    (at, elem) =>
      var r := lstat(at, elem);
      if r.Ok? && isLink(r.value) && !nofollow then Err(ELOOP) else r
  }

  method FileStat<H(!new), R>(look: Lookup<H>, at: Handle<H>, name: string, nofollow: bool, lstat: Leaf<H, R>, isLink: R -> bool)
    returns (r: Result<R>)
    requires NonEmptyLinks(look) && Honest(look, StatLeaf(lstat, isLink, nofollow))
    ensures r == if name == "" then StatLeaf(lstat, isLink, nofollow)(at, "")
                 else Walked(look, Start(at, name), Comps(name), StatLeaf(lstat, isLink, nofollow), nofollow, MAX_FOLLOW_SYMLINK)
  {
    r := ResolvePath(look, at, name, nofollow, StatLeaf(lstat, isLink, nofollow));
  }

  /** The callback of a file system whose lstat answers as its lookup does. */
  function LstatLeaf<H>(look: Lookup<H>, nofollow: bool): Leaf<H, Seen<H>> {
    StatLeaf((at, elem) => Lstat(look, at, elem), (s: Seen<H>) => s.LinkSeen?, nofollow)
  }

  /** Then the status is that of the node that opening the path would reach, with the same
      errors; or, when links are not followed, of a link that opening refuses. */
  ghost predicate StatAgrees<H>(stat: Result<Seen<H>>, open: Result<Handle<H>>, nofollow: bool) {
    if stat.Ok? && stat.value.LinkSeen? then nofollow && open == Err(ELOOP)
    else stat == match open case Ok(h) => Ok(NodeSeen(h.Node())) case Err(e) => Err(e)
  }

  lemma {:induction false} StatIsOpened<H>(look: Lookup<H>, at: Handle<H>, cs: seq<string>, nofollow: bool, links: nat)
    requires AreComponents(cs)
    ensures StatAgrees(Walked(look, at, cs, LstatLeaf(look, nofollow), nofollow, links), Resolved(look, at, cs, false, nofollow, links), nofollow)
    decreases links, |cs|, 1
  {
    if |cs| <= 1 {
      StatLast(look, at, cs, nofollow, links);
    } else if cs[0] == "." {
      StatIsOpened(look, at, cs[1..], nofollow, links);
    } else if cs[0] == ".." {
      StatIsOpened(look, at.Parent(), cs[1..], nofollow, links);
    } else {
      match look(at.Node(), cs[0])
      case LinkEntry(t) =>
        CompsAreComponents(t);
        if links > 0 { StatIsOpened(look, Start(at, t), Comps(t) + cs[1..], nofollow, links - 1); }
      case DirEntry(n) => StatIsOpened(look, at.Push(cs[0], n), cs[1..], nofollow, links);
      case _ =>
    }
  }

  lemma {:induction false} StatLast<H>(look: Lookup<H>, at: Handle<H>, cs: seq<string>, nofollow: bool, links: nat)
    requires AreComponents(cs) && |cs| <= 1
    ensures StatAgrees(Walked(look, at, cs, LstatLeaf(look, nofollow), nofollow, links), Resolved(look, at, cs, false, nofollow, links), nofollow)
    decreases links, |cs|, 0
  {
    var e, leaf := if cs == [] then "." else cs[0], LstatLeaf(look, nofollow);
    var r := Lstat(look, at, e);
    assert leaf(at, e) == if r.Ok? && r.value.LinkSeen? && !nofollow then Err(ELOOP) else r;
    assert Walked(look, at, cs, leaf, nofollow, links) == LastWalked(look, at, e, leaf, nofollow, links);
    if cs != [] {
      assert cs[1..] == [];
      if IsDots(e) {
        assert !Loops(leaf(at, e));
      } else {
        match look(at.Node(), e)
        case LinkEntry(t) =>
          CompsAreComponents(t);
          assert Comps(t) + cs[1..] == Comps(t) && Readlink(look, at, e) == Ok(t);
          if links > 0 { StatIsOpened(look, Start(at, t), Comps(t), nofollow, links - 1); }
        case _ =>
      }
    }
  }

  method FileReadlink<H(!new)>(look: Lookup<H>, at: Handle<H>, name: string, readlink: Leaf<H, string>) returns (r: Result<string>)
    requires NonEmptyLinks(look) && Honest(look, readlink)
    ensures r == if name == "" then readlink(at, "")
                 else Walked(look, Start(at, name), Comps(name), readlink, true, MAX_FOLLOW_SYMLINK)
  {
    r := ResolvePath(look, at, name, true, readlink);
  }

  function Target<H>(s: Result<Seen<H>>): Result<string> {
    match s
    case Err(e) => Err(e)
    case Ok(LinkSeen(t)) => Ok(t)
    case Ok(NodeSeen(_)) => Err(EINVAL)
  }

  function ReadlinkLeaf<H>(look: Lookup<H>): Leaf<H, string> { (at, elem) => Target(Lstat(look, at, elem)) }

  /** The target read is that of the link whose status is found when links are not followed. */
  lemma {:induction false} ReadlinkIsStat<H>(look: Lookup<H>, at: Handle<H>, cs: seq<string>, links: nat)
    ensures var r, stat := Walked(look, at, cs, ReadlinkLeaf(look), true, links), Walked(look, at, cs, LstatLeaf(look, true), true, links);
      if stat.Err? then r == Err(stat.error) else if stat.value.LinkSeen? then r == Ok(stat.value.target) else r == Err(EINVAL)
    decreases links, |cs|
  {
    if |cs| <= 1 {
    } else if cs[0] == "." {
      ReadlinkIsStat(look, at, cs[1..], links);
    } else if cs[0] == ".." {
      ReadlinkIsStat(look, at.Parent(), cs[1..], links);
    } else {
      match look(at.Node(), cs[0])
      case LinkEntry(t) => if links > 0 { ReadlinkIsStat(look, Start(at, t), Comps(t) + cs[1..], links - 1); }
      case DirEntry(n) => ReadlinkIsStat(look, at.Push(cs[0], n), cs[1..], links);
      case _ =>
    }
  }

  // ----- links in last position

  /** Resolution in which a directory may be asked for through a link, as open with O_DIRECTORY
      does: a link in last position is followed unless O_NOFOLLOW is given. */
  function Followed<H>(look: Lookup<H>, at: Handle<H>, cs: seq<string>, wantDir: bool, nofollow: bool, links: nat)
    : Result<Handle<H>>
    decreases links, |cs|
  {
    if cs == [] then Ok(at)
    else if cs[0] == "." then Followed(look, at, cs[1..], wantDir, nofollow, links)
    else if cs[0] == ".." then Followed(look, at.Parent(), cs[1..], wantDir, nofollow, links)
    else
      match look(at.Node(), cs[0])
      case LinkEntry(t) =>
        if |cs| == 1 && nofollow then Err(if wantDir then ENOTDIR else ELOOP)
        else if links == 0 then Err(ELOOP)
        else Followed(look, Start(at, t), Comps(t) + cs[1..], wantDir, nofollow, links - 1)
      case DirEntry(n) => Followed(look, at.Push(cs[0], n), cs[1..], wantDir, nofollow, links)
      case FileEntry(n) => if |cs| > 1 || wantDir then Err(ENOTDIR) else Ok(at.Push(cs[0], n))
      case Absent => Err(ENOENT)
      case NotADir => Err(ENOTDIR)
  }

  /** A link met in last position: the directory it lies in, its target, and how many links may
      still be followed. */
  datatype Meeting<+H> = NoLink | LinkMet(at: Handle<H>, target: string, links: nat)

  function LastLink<H>(look: Lookup<H>, at: Handle<H>, cs: seq<string>, links: nat): Meeting<H>
    decreases links, |cs|
  {
    if cs == [] then NoLink
    else if cs[0] == "." then LastLink(look, at, cs[1..], links)
    else if cs[0] == ".." then LastLink(look, at.Parent(), cs[1..], links)
    else
      match look(at.Node(), cs[0])
      case LinkEntry(t) =>
        if |cs| == 1 then LinkMet(at, t, links)
        else if links == 0 then NoLink
        else LastLink(look, Start(at, t), Comps(t) + cs[1..], links - 1)
      case DirEntry(n) => LastLink(look, at.Push(cs[0], n), cs[1..], links)
      case _ => NoLink
  }

  /** What a directory asked for through that link would be. */
  function Beyond<H>(look: Lookup<H>, m: Meeting<H>): Result<Handle<H>>
    requires m.LinkMet?
  {
    if m.links == 0 then Err(ELOOP) else Followed(look, Start(m.at, m.target), Comps(m.target), true, false, m.links - 1)
  }

  lemma {:induction false} SameUnlessDir<H>(look: Lookup<H>, at: Handle<H>, cs: seq<string>, wantDir: bool, nofollow: bool, links: nat)
    requires !wantDir || nofollow
    ensures Resolved(look, at, cs, wantDir, nofollow, links) == Followed(look, at, cs, wantDir, nofollow, links)
    decreases links, |cs|
  {
    if cs == [] {
    } else if cs[0] == "." {
      SameUnlessDir(look, at, cs[1..], wantDir, nofollow, links);
    } else if cs[0] == ".." {
      SameUnlessDir(look, at.Parent(), cs[1..], wantDir, nofollow, links);
    } else {
      match look(at.Node(), cs[0])
      case LinkEntry(t) => if links > 0 { SameUnlessDir(look, Start(at, t), Comps(t) + cs[1..], wantDir, nofollow, links - 1); }
      case DirEntry(n) => SameUnlessDir(look, at.Push(cs[0], n), cs[1..], wantDir, nofollow, links);
      case _ =>
    }
  }

  lemma {:induction false} DirThroughLink<H>(look: Lookup<H>, at: Handle<H>, cs: seq<string>, links: nat)
    ensures var r, f, m := Resolved(look, at, cs, true, false, links), Followed(look, at, cs, true, false, links), LastLink(look, at, cs, links);
      if m.LinkMet? then r == Err(ENOTDIR) && f == Beyond(look, m) else r == f
    decreases links, |cs|
  {
    if cs == [] {
    } else if cs[0] == "." {
      DirThroughLink(look, at, cs[1..], links);
    } else if cs[0] == ".." {
      DirThroughLink(look, at.Parent(), cs[1..], links);
    } else {
      match look(at.Node(), cs[0])
      case LinkEntry(t) =>
        if |cs| == 1 { assert Comps(t) + cs[1..] == Comps(t); }
        else if links > 0 { DirThroughLink(look, Start(at, t), Comps(t) + cs[1..], links - 1); }
      case DirEntry(n) => DirThroughLink(look, at.Push(cs[0], n), cs[1..], links);
      case _ =>
    }
  }

  /** Resolution follows links in last position as open does exactly when no directory is asked
      for, or links are not to be followed, or there is no such link, or what it leads to is
      not a directory anyway. */
  ghost predicate Follows<H>(look: Lookup<H>, at: Handle<H>, cs: seq<string>, wantDir: bool, nofollow: bool, links: nat) {
    !wantDir || nofollow || var m := LastLink(look, at, cs, links); m.LinkMet? ==> Beyond(look, m) == Err(ENOTDIR)
  }

  lemma {:induction false} FollowsExactly<H>(look: Lookup<H>, at: Handle<H>, cs: seq<string>, wantDir: bool, nofollow: bool, links: nat)
    ensures Resolved(look, at, cs, wantDir, nofollow, links) == Followed(look, at, cs, wantDir, nofollow, links)
      <==> Follows(look, at, cs, wantDir, nofollow, links)
  {
    if !wantDir || nofollow { SameUnlessDir(look, at, cs, wantDir, nofollow, links); } else { DirThroughLink(look, at, cs, links); }
  }

  // ----- how many links

  /** A name of `k + 1` letters. */
  function Letters(k: nat): (s: string)
    ensures |s| == k + 1 && OnlyLetters(s) && IsComponent(s)
  {
    seq(k + 1, _ => 'x')
  }

  /** A directory in which a name leads to the one that is a letter shorter, the last to a file. */
  function ChainLook(n: nat, name: string): Entry<nat> {
    if |name| <= 1 then FileEntry(1) else LinkEntry(name[1..])
  }

  predicate OnlyLetters(s: string) { |s| > 0 && forall i :: 0 <= i < |s| ==> s[i] == 'x' }

  lemma {:induction false} ChainStep(s: string, links: nat)
    requires OnlyLetters(s)
    ensures var r := Resolved(ChainLook, Handle(0, []), [s], false, false, links);
      if |s| == 1 then r.Ok? else if links == 0 then r == Err(ELOOP)
      else OnlyLetters(s[1..]) && r == Resolved(ChainLook, Handle(0, []), [s[1..]], false, false, links - 1)
  {
    var cs := [s];
    assert cs[1..] == [] && !IsDots(s) by { assert s[0] == 'x'; }
    if |s| > 1 {
      assert IsComponent(s[1..]);
      CompsOfOne(s[1..]);
      assert [s[1..]] + cs[1..] == [s[1..]] && !IsAbs(s[1..]);
    }
  }

  lemma {:induction false} ChainResolved(s: string, links: nat)
    requires OnlyLetters(s)
    ensures Resolved(ChainLook, Handle(0, []), [s], false, false, links).Ok? <==> |s| - 1 <= links
    decreases links
  {
    ChainStep(s, links);
    if |s| > 1 && links > 0 { ChainResolved(s[1..], links - 1); }
  }

  /** A chain of links is followed to its end exactly when it has at most ten. */
  lemma {:induction false} TenLinks(k: nat)
    ensures Opened(ChainLook, Handle(0, []), Letters(k), false, false).Ok? <==> k <= 10
  {
    CompsOfOne(Letters(k));
    ChainResolved(Letters(k), MAX_FOLLOW_SYMLINK);
  }

  // ----- two file systems, one the image of the other

  function MapEntry<A, B>(f: A -> B, e: Entry<A>): Entry<B> {
    match e
    case NotADir => NotADir
    case Absent => Absent
    case DirEntry(n) => DirEntry(f(n))
    case FileEntry(n) => FileEntry(f(n))
    case LinkEntry(t) => LinkEntry(t)
  }

  function MapHandle<A, B>(f: A -> B, h: Handle<A>): (g: Handle<B>)
    ensures |g.path| == |h.path|
  {
    Handle(f(h.root), seq(|h.path|, i requires 0 <= i < |h.path| => Step(h.path[i].name, f(h.path[i].node))))
  }

  lemma {:induction false} MapHandleMoves<A, B>(f: A -> B, h: Handle<A>, name: string, n: A, t: string)
    ensures MapHandle(f, h).Node() == f(h.Node())
    ensures MapHandle(f, h.Parent()) == MapHandle(f, h).Parent()
    ensures MapHandle(f, Start(h, t)) == Start(MapHandle(f, h), t)
    ensures MapHandle(f, h.Push(name, n)) == MapHandle(f, h).Push(name, f(n))
  {
  }

  /** Resolution comes to a name that is to be avoided, in the path or in the target of a link
      that it follows. */
  predicate Meets<H>(look: Lookup<H>, avoid: string -> bool, at: Handle<H>, cs: seq<string>, wantDir: bool, nofollow: bool, links: nat)
    decreases links, |cs|
  {
    if cs == [] then false
    else if cs[0] == "." then Meets(look, avoid, at, cs[1..], wantDir, nofollow, links)
    else if cs[0] == ".." then Meets(look, avoid, at.Parent(), cs[1..], wantDir, nofollow, links)
    else if avoid(cs[0]) then true
    else
      match look(at.Node(), cs[0])
      case LinkEntry(t) =>
        if links == 0 || (|cs| == 1 && (wantDir || nofollow)) then false
        else Meets(look, avoid, Start(at, t), Comps(t) + cs[1..], wantDir, nofollow, links - 1)
      case DirEntry(n) => Meets(look, avoid, at.Push(cs[0], n), cs[1..], wantDir, nofollow, links)
      case _ => false
  }

  ghost predicate EntryIs<H>(ok: H -> bool, e: Entry<H>) {
    match e case DirEntry(n) => ok(n) case FileEntry(n) => ok(n) case _ => true
  }

  ghost predicate HandleIs<H>(ok: H -> bool, h: Handle<H>) {
    ok(h.root) && forall i :: 0 <= i < |h.path| ==> ok(h.path[i].node)
  }

  /** Lookups of names that need not be avoided agree. */
  ghost predicate Mirrors<A(!new), B>(a: Lookup<A>, b: Lookup<B>, f: A -> B, ok: A -> bool, avoid: string -> bool) {
    forall n, x :: ok(n) && !avoid(x) ==> b(f(n), x) == MapEntry(f, a(n, x)) && EntryIs(ok, a(n, x))
  }

  /** Then so do resolutions that do not come to such a name. */
  lemma {:induction false} MirrorResolves<A(!new), B>(a: Lookup<A>, b: Lookup<B>, f: A -> B, ok: A -> bool, avoid: string -> bool,
      h: Handle<A>, cs: seq<string>, wantDir: bool, nofollow: bool, links: nat)
    requires Mirrors(a, b, f, ok, avoid) && HandleIs(ok, h) && !Meets(b, avoid, MapHandle(f, h), cs, wantDir, nofollow, links)
    ensures Resolved(b, MapHandle(f, h), cs, wantDir, nofollow, links)
      == match Resolved(a, h, cs, wantDir, nofollow, links) case Ok(g) => Ok(MapHandle(f, g)) case Err(e) => Err(e)
    decreases links, |cs|
  {
    MapHandleMoves(f, h, "", h.Node(), "");
    if cs == [] {
    } else if cs[0] == "." {
      MirrorResolves(a, b, f, ok, avoid, h, cs[1..], wantDir, nofollow, links);
    } else if cs[0] == ".." {
      MirrorResolves(a, b, f, ok, avoid, h.Parent(), cs[1..], wantDir, nofollow, links);
    } else {
      assert b(f(h.Node()), cs[0]) == MapEntry(f, a(h.Node(), cs[0])) && EntryIs(ok, a(h.Node(), cs[0]));
      match a(h.Node(), cs[0])
      case LinkEntry(t) =>
        MapHandleMoves(f, h, "", h.Node(), t);
        if links > 0 && !(|cs| == 1 && (wantDir || nofollow)) {
          MirrorResolves(a, b, f, ok, avoid, Start(h, t), Comps(t) + cs[1..], wantDir, nofollow, links - 1);
        }
      case DirEntry(n) =>
        MapHandleMoves(f, h, cs[0], n, "");
        MirrorResolves(a, b, f, ok, avoid, h.Push(cs[0], n), cs[1..], wantDir, nofollow, links);
      case FileEntry(n) => MapHandleMoves(f, h, cs[0], n, "");
      case _ =>
    }
  }

  // ----- containment

  function NodeAt<H>(h: Handle<H>, i: nat): H
    requires i <= |h.path|
  {
    if i == 0 then h.root else h.path[i - 1].node
  }

  /** Each step of the chain is a proper name looked up in the node before it: the handle
      lies in the subtree of its root, at the path that its steps spell. */
  ghost predicate Spelled<H>(look: Lookup<H>, h: Handle<H>) {
    forall i :: 0 <= i < |h.path| ==>
      && IsProper(h.path[i].name)
      && (var e := look(NodeAt(h, i), h.path[i].name); e == DirEntry(h.path[i].node) || e == FileEntry(h.path[i].node))
  }

  lemma {:induction false} PushSpelled<H>(look: Lookup<H>, h: Handle<H>, name: string, n: H)
    requires Spelled(look, h) && IsProper(name)
    requires look(h.Node(), name) == DirEntry(n) || look(h.Node(), name) == FileEntry(n)
    ensures Spelled(look, h.Push(name, n))
  {
    var g := h.Push(name, n);
    assert forall i :: 0 <= i <= |h.path| ==> NodeAt(g, i) == NodeAt(h, i);
  }

  lemma {:induction false} ParentSpelled<H>(look: Lookup<H>, h: Handle<H>)
    requires Spelled(look, h)
    ensures Spelled(look, h.Parent()) && Spelled(look, h.Root())
  {
    assert forall i :: 0 <= i <= |h.Parent().path| ==> NodeAt(h.Parent(), i) == NodeAt(h, i);
  }

  ghost predicate Inside<H>(look: Lookup<H>, root: H, r: Result<Handle<H>>) {
    r.Ok? ==> Spelled(look, r.value) && r.value.root == root
  }

  /** Whatever the path and the links met on the way, resolution stays under the root of
      the handle it starts from. */
  lemma {:induction false} ResolvedStaysInside<H>(look: Lookup<H>, at: Handle<H>, cs: seq<string>, wantDir: bool, nofollow: bool, links: nat)
    requires Spelled(look, at) && AreComponents(cs)
    ensures Inside(look, at.root, Resolved(look, at, cs, wantDir, nofollow, links))
    decreases links, |cs|
  {
    if cs == [] {
    } else if cs[0] == "." {
      ResolvedStaysInside(look, at, cs[1..], wantDir, nofollow, links);
    } else if cs[0] == ".." {
      ParentSpelled(look, at);
      ResolvedStaysInside(look, at.Parent(), cs[1..], wantDir, nofollow, links);
    } else {
      match look(at.Node(), cs[0])
      case LinkEntry(t) =>
        StartSpelled(look, at, t);
        TargetComponents(t, cs);
        if links > 0 { ResolvedStaysInside(look, Start(at, t), Comps(t) + cs[1..], wantDir, nofollow, links - 1); }
      case DirEntry(n) =>
        PushSpelled(look, at, cs[0], n);
        ResolvedStaysInside(look, at.Push(cs[0], n), cs[1..], wantDir, nofollow, links);
      case FileEntry(n) => PushSpelled(look, at, cs[0], n);
      case _ =>
    }
  }

  lemma {:induction false} StartSpelled<H>(look: Lookup<H>, at: Handle<H>, t: string)
    requires Spelled(look, at)
    ensures Spelled(look, Start(at, t)) && Start(at, t).root == at.root
  {
    ParentSpelled(look, at);
  }

  lemma {:induction false} TargetComponents(t: string, cs: seq<string>)
    requires AreComponents(cs) && cs != []
    ensures AreComponents(Comps(t) + cs[1..])
  {
    CompsAreComponents(t);
  }

  lemma {:induction false} OpenStaysInside<H>(look: Lookup<H>, at: Handle<H>, name: string, wantDir: bool, nofollow: bool)
    requires Spelled(look, at)
    ensures Inside(look, at.root, Opened(look, at, name, wantDir, nofollow))
  {
    ParentSpelled(look, at);
    CompsAreComponents(name);
    if name != "" {
      ResolvedStaysInside(look, Start(at, name), Comps(name), wantDir || HasTrailingSlash(name), nofollow, MAX_FOLLOW_SYMLINK);
    }
  }

  // ----- where the names lead

  /** The names on the chain of a handle, from the root. */
  function NamesOf<H>(h: Handle<H>): (ns: seq<string>)
    ensures |ns| == |h.path|
  {
    seq(|h.path|, i requires 0 <= i < |h.path| => h.path[i].name)
  }

  /** The names left when components follow others: ".." takes away the one before it, if there
      is one. */
  function Stacked(names: seq<string>, cs: seq<string>): seq<string>
    decreases |cs|
  {
    if cs == [] then names
    else if cs[0] == "." then Stacked(names, cs[1..])
    else if cs[0] == ".." then Stacked(if names == [] then [] else names[..|names| - 1], cs[1..])
    else Stacked(names + [cs[0]], cs[1..])
  }

  /** How many there are. */
  lemma {:induction false} StackedLength(names: seq<string>, cs: seq<string>)
    ensures |Stacked(names, cs)| == DepthFrom(|names|, cs)
    decreases |cs|
  {
    if cs != [] {
      var next := if cs[0] == "." then names else if cs[0] == ".." then (if names == [] then [] else names[..|names| - 1]) else names + [cs[0]];
      StackedLength(next, cs[1..]);
    }
  }

  /** Going down and up again is going nowhere. */
  lemma {:induction false} ParentUndoesPush<H>(h: Handle<H>, name: string, n: H)
    ensures h.Push(name, n).Parent() == h && h.Push(name, n).Node() == n && h.Root().path == [] && h.Root().root == h.root
    ensures NamesOf(h.Push(name, n)) == NamesOf(h) + [name]
    ensures h.path == [] ==> h.Parent() == h
  {
  }

  lemma {:induction false} ParentNames<H>(h: Handle<H>)
    ensures NamesOf(h.Parent()) == if h.path == [] then [] else NamesOf(h)[..|h.path| - 1]
    ensures h.Parent().root == h.root && h.Parent().path == if h.path == [] then [] else h.path[..|h.path| - 1]
  {
  }

  /** When resolution succeeds without following a link, it leads where the names say, however
      many links it might have followed. */
  lemma {:induction false} ResolvedNames<H>(look: Lookup<H>, at: Handle<H>, cs: seq<string>, wantDir: bool, nofollow: bool, links: nat)
    requires Resolved(look, at, cs, wantDir, nofollow, 0).Ok?
    ensures Resolved(look, at, cs, wantDir, nofollow, links) == Resolved(look, at, cs, wantDir, nofollow, 0)
    ensures NamesOf(Resolved(look, at, cs, wantDir, nofollow, links).value) == Stacked(NamesOf(at), cs)
    decreases |cs|
  {
    if cs == [] {
    } else if cs[0] == "." {
      ResolvedNames(look, at, cs[1..], wantDir, nofollow, links);
    } else if cs[0] == ".." {
      ParentNames(at);
      ResolvedNames(look, at.Parent(), cs[1..], wantDir, nofollow, links);
    } else {
      match look(at.Node(), cs[0])
      case DirEntry(n) =>
        ParentUndoesPush(at, cs[0], n);
        ResolvedNames(look, at.Push(cs[0], n), cs[1..], wantDir, nofollow, links);
      case FileEntry(n) =>
        ParentUndoesPush(at, cs[0], n);
        assert cs[1..] == [];
      case _ =>
    }
  }

  function Before<H>(h: Handle<H>, i: nat): H
    requires i < |h.path|
  {
    if i == 0 then h.root else h.path[i - 1].node
  }

  ghost predicate FoundAt<H>(look: Lookup<H>, h: Handle<H>, i: nat) {
    i < |h.path| && var e := look(Before(h, i), h.path[i].name); e == DirEntry(h.path[i].node) || e == FileEntry(h.path[i].node)
  }

  lemma {:induction false} SpelledFound<H>(look: Lookup<H>, h: Handle<H>)
    requires Spelled(look, h)
    ensures forall i: nat :: i < |h.path| ==> FoundAt(look, h, i)
  {
    forall i: nat | i < |h.path| ensures FoundAt(look, h, i) { assert NodeAt(h, i) == Before(h, i); }
  }

  lemma {:induction false} SameStep<H>(look: Lookup<H>, g: Handle<H>, h: Handle<H>, i: nat)
    requires (forall k: nat :: k < |g.path| ==> FoundAt(look, g, k)) && (forall k: nat :: k < |h.path| ==> FoundAt(look, h, k))
    requires g.root == h.root && NamesOf(g) == NamesOf(h) && i < |g.path|
    ensures |g.path| == |h.path| && g.path[i] == h.path[i]
  {
    assert FoundAt(look, g, i) && FoundAt(look, h, i);
    assert NamesOf(g)[i] == NamesOf(h)[i];
    if i > 0 { SameStep(look, g, h, i - 1); }
  }

  /** Two handles under one root with the same names are the same. */
  lemma {:induction false} SpelledUnique<H>(look: Lookup<H>, g: Handle<H>, h: Handle<H>)
    requires Spelled(look, g) && Spelled(look, h) && g.root == h.root && NamesOf(g) == NamesOf(h)
    ensures g == h
  {
    SpelledFound(look, g);
    SpelledFound(look, h);
    assert |NamesOf(g)| == |NamesOf(h)|;
    forall i | 0 <= i < |g.path| ensures g.path[i] == h.path[i] { SameStep(look, g, h, i); }
  }

  /** So opening a path gives the one handle whose names are those of the path, ".." taking away
      the name before it: counted from the root when the path is absolute, and then there are as
      many as its depth. */
  lemma {:induction false} OpenedNames<H>(look: Lookup<H>, at: Handle<H>, name: string, wantDir: bool, nofollow: bool)
    requires Spelled(look, at)
    requires name != "" && Resolved(look, Start(at, name), Comps(name), wantDir || HasTrailingSlash(name), nofollow, 0).Ok?
    ensures var r, names := Opened(look, at, name, wantDir, nofollow), Stacked(if IsAbs(name) then [] else NamesOf(at), Comps(name));
      && r.Ok? && NamesOf(r.value) == names
      && (forall h :: Spelled(look, h) && h.root == at.root && NamesOf(h) == names ==> h == r.value)
      && (IsAbs(name) ==> |r.value.path| == DepthFrom(0, Comps(name)))
  {
    var r := Opened(look, at, name, wantDir, nofollow);
    ParentUndoesPush(at, "", at.root);
    assert NamesOf(Start(at, name)) == if IsAbs(name) then [] else NamesOf(at);
    ResolvedNames(look, Start(at, name), Comps(name), wantDir || HasTrailingSlash(name), nofollow, MAX_FOLLOW_SYMLINK);
    StackedLength([], Comps(name));
    OpenStaysInside(look, at, name, wantDir, nofollow);
    forall h | Spelled(look, h) && h.root == at.root && NamesOf(h) == NamesOf(r.value) ensures h == r.value {
      SpelledUnique(look, h, r.value);
    }
  }
}

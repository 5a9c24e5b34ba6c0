/** The lazily merged view of a layer stack (internal/sandbox/ocifs/file.go and ocifs.go).

    An open handle holds the list of layer nodes still visible at its path, uppermost
    first.  Every operation is shown to answer exactly what the flattened image would. */
module Overlay {
  import opened Vfs
  import opened OciTree

  /** The answer of one ordinary tree to opening `name` with O_NOFOLLOW, with or without
      O_DIRECTORY; this is also what each layer answers. */
  function NodeOpen(n: Node, name: string, wantDir: bool): Result<Node> {
    if !n.Dir? then Err(ENOTDIR)
    else if name !in n.entries then Err(ENOENT)
    else match n.entries[name]
      case Dir(_) => Ok(n.entries[name])
      case File(_) => if wantDir then Err(ENOTDIR) else Ok(n.entries[name])
      case Link(_) => if wantDir then Err(ENOTDIR) else Err(ELOOP)
  }

  datatype Info = FileInfo(id: nat) | LinkInfo(target: Target) | DirInfo

  function InfoOf(n: Node): Info {
    match n case File(id) => FileInfo(id) case Link(t) => LinkInfo(t) case Dir(_) => DirInfo
  }

  /** lstat in one tree. */
  function NodeStat(n: Node, name: string): Result<Info> {
    if !n.Dir? then Err(ENOTDIR)
    else if name !in n.entries then Err(ENOENT)
    else Ok(InfoOf(n.entries[name]))
  }

  /** readlink in one tree. */
  function NodeReadlink(n: Node, name: string): Result<string> {
    if !n.Dir? then Err(ENOTDIR)
    else if name !in n.entries then Err(ENOENT)
    else if n.entries[name].Link? then Ok(n.entries[name].target)
    else Err(EINVAL)
  }

  /** What a tree answers for what it holds; the three answers tell the same thing. */
  lemma {:induction false} NodeAnswers(es: Entries, name: string)
    ensures var n := Dir(es);
      if name !in es then NodeStat(n, name) == Err(ENOENT) && NodeReadlink(n, name) == Err(ENOENT) && NodeOpen(n, name, false) == Err(ENOENT)
      else match es[name]
        case File(id) => NodeStat(n, name) == Ok(FileInfo(id)) && NodeReadlink(n, name) == Err(EINVAL) && NodeOpen(n, name, false) == Ok(File(id))
        case Link(t) => NodeStat(n, name) == Ok(LinkInfo(t)) && NodeReadlink(n, name) == Ok(t) && NodeOpen(n, name, false) == Err(ELOOP)
        case Dir(ds) => NodeStat(n, name) == Ok(DirInfo) && NodeReadlink(n, name) == Err(EINVAL) && NodeOpen(n, name, true) == Ok(Dir(ds))
    ensures forall n: Node :: !n.Dir? ==> NodeStat(n, name) == Err(ENOTDIR) && NodeReadlink(n, name) == Err(ENOTDIR) && NodeOpen(n, name, true) == Err(ENOTDIR)
  {
  }

  // ----- handles

  ghost predicate AllDirs(layers: seq<Node>) {
    forall i :: 0 <= i < |layers| ==> layers[i].Dir?
  }

  /** A handle is a list of directories to merge, or one node that is not a directory. */
  ghost predicate ValidHandle(layers: seq<Node>) {
    AllDirs(layers) || |layers| == 1
  }

  function Contents(layers: seq<Node>): seq<Entries> {
    if layers == [] then [] else [EntriesOf(layers[0])] + Contents(layers[1..])
  }

  /** The node of the flattened image that a handle stands for. */
  function View(layers: seq<Node>): Node {
    if |layers| == 1 && !layers[0].Dir? then layers[0] else Dir(Flatten(Contents(layers)))
  }

  // ----- which layers stay visible under a name

  /** The part of a list that merges below a directory. */
  function Mergeable(ns: seq<Node>): seq<Node> {
    if ns != [] && ns[0].Dir? then ns else []
  }

  function Merge(layers: seq<Node>, name: string): seq<Node> {
    if layers == [] then []
    else
      var rest := if Hides(EntriesOf(layers[0]), name) then [] else Merge(layers[1..], name);
      if name !in EntriesOf(layers[0]) then rest
      else if EntriesOf(layers[0])[name].Dir? then [EntriesOf(layers[0])[name]] + Mergeable(rest)
      else [EntriesOf(layers[0])[name]]
  }

  lemma {:induction false} MergeShape(layers: seq<Node>, name: string)
    ensures var ns := Merge(layers, name);
      ns != [] ==> (if ns[0].Dir? then AllDirs(ns) else |ns| == 1)
  {
    if layers != [] { MergeShape(layers[1..], name); }
  }

  /** The list of nodes collected under a name denotes the image's node of that name. */
  lemma {:induction false} MergeIsFlattened(layers: seq<Node>, name: string)
    requires !IsWhiteout(name)
    ensures var ns, image := Merge(layers, name), Flatten(Contents(layers));
      && (ns == [] <==> name !in image)
      && (ns != [] ==> image[name] == View(ns))
  {
    if layers != [] {
      var es, below := EntriesOf(layers[0]), Flatten(Contents(layers[1..]));
      assert Contents(layers)[1..] == Contents(layers[1..]);
      MergeIsFlattened(layers[1..], name);
      MergeShape(layers[1..], name);
      var kept := Kept(below, es);
      assert Flatten(Contents(layers)) == Apply(below, es);
      assert name in es ==> Apply(below, es)[name] == Put(kept, name, es[name]);
      if name in es && es[name].Dir? {
        var rest := if Hides(es, name) then [] else Merge(layers[1..], name);
        var ns := [es[name]] + Mergeable(rest);
        assert ns[1..] == Mergeable(rest);
        assert Contents(ns) == [es[name].entries] + Contents(Mergeable(rest));
        assert (if name in kept then EntriesOf(kept[name]) else map[]) == Flatten(Contents(Mergeable(rest)));
      }
    }
  }

  // ----- openFile

  function OpenResult(ns: seq<Node>, wantDir: bool): Result<seq<Node>> {
    if ns == [] then Err(ENOENT)
    else match ns[0]
      case Dir(_) => Ok(ns)
      case File(_) => if wantDir then Err(ENOTDIR) else Ok(ns)
      case Link(_) => if wantDir then Err(ENOTDIR) else Err(ELOOP)
  }

  function Opened(layers: seq<Node>, name: string, wantDir: bool): Result<seq<Node>> {
    if layers != [] && !layers[0].Dir? then Err(ENOTDIR) else OpenResult(Merge(layers, name), wantDir)
  }

  /** Opening an ordinary name in the overlay is opening it in the flattened image: the
      same error, or a handle for the same node. */
  lemma {:induction false} OpenAgrees(layers: seq<Node>, name: string, wantDir: bool)
    requires ValidHandle(layers) && !IsWhiteout(name)
    ensures Opened(layers, name, wantDir).Ok? ==> ValidHandle(Opened(layers, name, wantDir).value)
    ensures Opened(layers, name, wantDir).Map(View) == NodeOpen(View(layers), name, wantDir)
  {
    MergeIsFlattened(layers, name);
    MergeShape(layers, name);
  }

  /** What `files`, collected so far, becomes if `ns` is what the remaining layers hold. */
  function Reached(files: seq<Node>, ns: seq<Node>): seq<Node> {
    if files == [] then ns else files + Mergeable(ns)
  }

  lemma {:induction false} LayerStep(files: seq<Node>, rest: seq<Node>, name: string)
    requires rest != [] && rest[0].Dir?
    ensures var es, reached := rest[0].entries, Reached(files, Merge(rest, name));
      var next := if Hides(es, name) then [] else Merge(rest[1..], name);
      && (name !in es ==> reached == Reached(files, next))
      && (name in es && es[name].Dir? ==> reached == Reached(files + [es[name]], next))
      && (name in es && !es[name].Dir? ==> reached == if files == [] then [es[name]] else files)
  {
    MergeShape(rest[1..], name);
    var es := rest[0].entries;
    if name in es && es[name].Dir? { ReachedDir(files, es[name], if Hides(es, name) then [] else Merge(rest[1..], name)); }
  }

  lemma {:induction false} ReachedDir(files: seq<Node>, n: Node, next: seq<Node>)
    requires n.Dir?
    ensures Reached(files, [n] + Mergeable(next)) == Reached(files + [n], next)
  {
    assert files + ([n] + Mergeable(next)) == files + [n] + Mergeable(next);
    assert [] + [n] + Mergeable(next) == [n] + Mergeable(next);
  }

  method OpenFile(layers: seq<Node>, name: string, wantDir: bool) returns (r: Result<seq<Node>>)
    requires ValidHandle(layers)
    ensures r == Opened(layers, name, wantDir)
    ensures !IsWhiteout(name) ==> r.Map(View) == NodeOpen(View(layers), name, wantDir)
  {
    r := OpenLayers(layers, name, wantDir);
    if !IsWhiteout(name) { OpenAgrees(layers, name, wantDir); }
  }

  /** The loop over the layers. */
  method OpenLayers(layers: seq<Node>, name: string, wantDir: bool) returns (r: Result<seq<Node>>)
    requires ValidHandle(layers)
    ensures r == Opened(layers, name, wantDir)
  {
    if layers != [] && !layers[0].Dir? {
      assert NodeOpen(layers[0], name, wantDir) == Err(ENOTDIR);
    }
    var files: seq<Node> := [];
    var i := 0;
    while i < |layers|
      invariant i <= |layers|
      invariant AllDirs(files)
      invariant i > 0 ==> AllDirs(layers)
      invariant AllDirs(layers) ==> Reached(files, Merge(layers[i..], name)) == Merge(layers, name)
      invariant files != [] ==> i > 0
    {
      var f := NodeOpen(layers[i], name, wantDir);
      if AllDirs(layers) {
        LayerStep(files, layers[i..], name);
        assert layers[i..][1..] == layers[i + 1..];
      }
      if f.Err? {
        if f.error == ELOOP && files != [] {
          break;
        }
        if f.error == ENOTDIR && files != [] {
          break;
        }
        if f.error != ENOENT {
          return Err(f.error);
        }
      } else {
        if !f.value.Dir? && files != [] {
          break;
        }
        files := files + [f.value];
        if !f.value.Dir? {
          break;
        }
      }
      if Hides(EntriesOf(layers[i]), name) {
        break;
      }
      i := i + 1;
    }
    assert files == Merge(layers, name);
    if files == [] {
      return Err(ENOENT);
    }
    return Ok(files);
  }

  // ----- Stat and Readlink

  lemma {:induction false} FirstStep(layers: seq<Node>, name: string)
    requires layers != [] && layers[0].Dir?
    ensures var es, ns := layers[0].entries, Merge(layers, name);
      && (name in es ==> ns != [] && ns[0] == es[name])
      && (name !in es ==> ns == if Hides(es, name) then [] else Merge(layers[1..], name))
  {
  }

  method Stat(layers: seq<Node>, name: string) returns (r: Result<Info>)
    requires ValidHandle(layers)
    ensures !IsWhiteout(name) ==> r == NodeStat(View(layers), name)
  {
    if !IsWhiteout(name) { MergeIsFlattened(layers, name); }
    var i := 0;
    while i < |layers|
      invariant i <= |layers|
      invariant i > 0 ==> AllDirs(layers)
      invariant AllDirs(layers) ==> Merge(layers[i..], name) == Merge(layers, name)
    {
      var info := NodeStat(layers[i], name);
      if AllDirs(layers) {
        FirstStep(layers[i..], name);
        assert layers[i..][1..] == layers[i + 1..];
      }
      if info.Err? {
        if info.error != ENOENT {
          return Err(info.error);
        }
      } else {
        return info;
      }
      if Hides(EntriesOf(layers[i]), name) {
        break;
      }
      i := i + 1;
    }
    return Err(ENOENT);
  }

  method Readlink(layers: seq<Node>, name: string) returns (r: Result<string>)
    requires ValidHandle(layers)
    ensures !IsWhiteout(name) ==> r == NodeReadlink(View(layers), name)
  {
    if !IsWhiteout(name) { MergeIsFlattened(layers, name); }
    var i := 0;
    while i < |layers|
      invariant i <= |layers|
      invariant i > 0 ==> AllDirs(layers)
      invariant AllDirs(layers) ==> Merge(layers[i..], name) == Merge(layers, name)
    {
      var target := NodeReadlink(layers[i], name);
      if AllDirs(layers) {
        FirstStep(layers[i..], name);
        assert layers[i..][1..] == layers[i + 1..];
      }
      if target.Err? {
        if target.error != ENOENT {
          return Err(target.error);
        }
      } else {
        return target;
      }
      if Hides(EntriesOf(layers[i]), name) {
        break;
      }
      i := i + 1;
    }
    return Err(ENOENT);
  }

  // ----- whole paths

  /** Opening the components of a path one after the other, directories on the way. */
  function OverlayWalk(layers: seq<Node>, path: seq<string>, wantDir: bool): Result<seq<Node>>
    decreases |path|
  {
    if path == [] then Ok(layers)
    else match Opened(layers, path[0], wantDir || |path| > 1)
      case Err(e) => Err(e)
      case Ok(ls) => OverlayWalk(ls, path[1..], wantDir)
  }

  function TreeWalk(n: Node, path: seq<string>, wantDir: bool): Result<Node>
    decreases |path|
  {
    if path == [] then Ok(n)
    else match NodeOpen(n, path[0], wantDir || |path| > 1)
      case Err(e) => Err(e)
      case Ok(m) => TreeWalk(m, path[1..], wantDir)
  }

  ghost predicate OrdinaryNames(path: seq<string>) {
    forall i :: 0 <= i < |path| ==> !IsWhiteout(path[i])
  }

  /** For every stack and every path of ordinary names, the overlay reaches exactly the
      node that the flattened image has at that path, whole subtree included. */
  lemma {:induction false} WalkAgrees(layers: seq<Node>, path: seq<string>, wantDir: bool)
    requires ValidHandle(layers) && OrdinaryNames(path)
    ensures OverlayWalk(layers, path, wantDir).Ok? ==> ValidHandle(OverlayWalk(layers, path, wantDir).value)
    ensures OverlayWalk(layers, path, wantDir).Map(View) == TreeWalk(View(layers), path, wantDir)
    decreases |path|
  {
    if path != [] {
      OpenAgrees(layers, path[0], wantDir || |path| > 1);
      var step := Opened(layers, path[0], wantDir || |path| > 1);
      if step.Ok? { WalkAgrees(step.value, path[1..], wantDir); }
    }
  }

  /** Marker names are the only ones excluded, and rightly so: a name is opened as in the
      flattened image on every stack exactly when it is not a marker name. */
  lemma {:induction false} OrdinaryNamesExactly(name: string)
    ensures !IsWhiteout(name) <==>
      forall layers, wantDir :: ValidHandle(layers) ==>
        Opened(layers, name, wantDir).Map(View) == NodeOpen(View(layers), name, wantDir)
  {
    if IsWhiteout(name) {
      var layers := [Dir(map[name := File(0)])];
      assert ValidHandle(layers);
      FlattenUnmarked(Contents(layers));
      assert NodeOpen(View(layers), name, false) == Err(ENOENT);
      assert name in EntriesOf(layers[0]);
      assert Opened(layers, name, false) == Ok([File(0)]);
    } else {
      forall layers, wantDir | ValidHandle(layers)
        ensures Opened(layers, name, wantDir).Map(View) == NodeOpen(View(layers), name, wantDir)
      {
        OpenAgrees(layers, name, wantDir);
      }
    }
  }

  // ----- building the stack

  /** A layer file system, known by what opening its root answers. */
  type Layer = Result<Entries>

  method New(layers: seq<Layer>) returns (stack: array<Layer>)
    ensures stack[..] == Reverse(layers)
  {
    stack := new Layer[|layers|](_ => Err(ENOENT));
    for i := 0 to |layers|
      invariant forall k :: 0 <= k < i ==> stack[|layers| - 1 - k] == layers[k]
    {
      stack[|layers| - (i + 1)] := layers[i];
    }
    assert forall k :: 0 <= k < |layers| ==> stack[k] == layers[|layers| - 1 - k];
  }

  /** The layers that have a root, in order. */
  function Present(layers: seq<Layer>): seq<Entries> {
    if layers == [] then []
    else Present(layers[..|layers| - 1]) +
         (if layers[|layers| - 1].Ok? then [layers[|layers| - 1].value] else [])
  }

  lemma {:induction false} PresentAppend(a: seq<Layer>, b: seq<Layer>)
    ensures Present(a + b) == Present(a) + Present(b)
  {
    if b == [] {
      assert a + b == a;
    } else {
      assert (a + b)[..|a + b| - 1] == a + b[..|b| - 1];
      PresentAppend(a, b[..|b| - 1]);
    }
  }

  lemma {:induction false} PresentReversed(layers: seq<Layer>)
    ensures Present(Reverse(layers)) == Reverse(Present(layers))
  {
    if layers != [] {
      var init, last := layers[..|layers| - 1], layers[|layers| - 1];
      PresentReversed(init);
      assert Reverse(layers) == [last] + Reverse(init);
      PresentAppend([last], Reverse(init));
      assert Present([last]) == if last.Ok? then [last.value] else [];
    }
  }

  function Dirs(es: seq<Entries>): (ds: seq<Node>)
    ensures AllDirs(ds) && |ds| == |es|
    ensures Contents(ds) == es
  {
    if es == [] then [] else
      var ds := [Dir(es[0])] + Dirs(es[1..]);
      assert ds[1..] == Dirs(es[1..]);
      ds
  }

  ghost predicate Readable(layers: seq<Layer>) {
    forall i :: 0 <= i < |layers| ==> layers[i].Ok? || layers[i].error == ENOENT
  }

  lemma {:induction false} DirsAppend(a: seq<Entries>, e: Entries)
    ensures Dirs(a + [e]) == Dirs(a) + [Dir(e)]
  {
    if a != [] {
      assert (a + [e])[1..] == a[1..] + [e];
      DirsAppend(a[1..], e);
    }
  }

  method OpenRoot(stack: array<Layer>) returns (r: Result<seq<Node>>)
    ensures stack.Length == 0 ==> r == Err(ENOENT)
    ensures stack.Length > 0 ==> (r.Ok? <==> Readable(stack[..]))
    ensures r.Ok? ==> r.value == Dirs(Present(stack[..]))
  {
    if stack.Length == 0 {
      return Err(ENOENT);
    }
    var files: seq<Node> := [];
    for i := 0 to stack.Length
      invariant Readable(stack[..i])
      invariant files == Dirs(Present(stack[..i]))
    {
      assert stack[..i + 1][..i] == stack[..i];
      assert Present(stack[..i + 1]) == Present(stack[..i]) + (if stack[i].Ok? then [stack[i].value] else []);
      var f := stack[i];
      if f.Err? {
        if f.error != ENOENT {
          assert stack[..][i] == f;
          return Err(f.error);
        }
        assert Present(stack[..i]) + [] == Present(stack[..i]);
      } else {
        DirsAppend(Present(stack[..i]), f.value);
        files := files + [Dir(f.value)];
      }
    }
    assert stack[..stack.Length] == stack[..];
    return Ok(files);
  }

  /** Mounting layers, base first, gives a root handle that stands for the image built by
      applying the changesets in that order. */
  method Mount(layers: seq<Layer>) returns (r: Result<seq<Node>>)
    ensures layers == [] ==> r == Err(ENOENT)
    ensures layers != [] ==> (r.Ok? <==> Readable(layers))
    ensures r.Ok? ==> ValidHandle(r.value) && View(r.value) == Dir(ApplyAll(Present(layers)))
  {
    var stack := New(layers);
    r := OpenRoot(stack);
    assert Readable(stack[..]) <==> Readable(layers) by {
      assert forall i :: 0 <= i < |layers| ==> layers[i] == stack[..][|layers| - 1 - i];
    }
    PresentReversed(layers);
    FlattenReversed(Present(layers));
  }
}

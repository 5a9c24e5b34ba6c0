/** File trees, whiteouts, and the flattened image that an OCI layer stack denotes.

    A layer is a changeset: a directory tree whose entries starting with ".wh." are
    markers.  The image is obtained by applying the changesets one by one, bottom to
    top (OCI image-spec, layer.md, "Applying Changesets" and "Whiteouts"). */
module OciTree {

  /** The target of a symbolic link is never empty. */
  type Target = t: string | t != "" witness "."

  datatype Node = File(id: nat) | Link(target: Target) | Dir(entries: map<string, Node>)

  type Entries = map<string, Node>

  const WHITEOUT_PREFIX := ".wh."
  const WHITEOUT_OPAQUE := ".wh..wh..opq"

  function Whiteout(name: string): string { WHITEOUT_PREFIX + name }

  predicate IsWhiteout(name: string) { WHITEOUT_PREFIX <= name }

  /** Does this changeset directory remove what lower layers hold under `name`? */
  predicate Hides(layer: Entries, name: string) {
    Whiteout(name) in layer || WHITEOUT_OPAQUE in layer
  }

  function EntriesOf(n: Node): Entries {
    match n case Dir(es) => es case _ => map[]
  }

  /** One entry of a changeset put over what remains below it: directories merge,
      anything else replaces. */
  function Put(below: Entries, name: string, n: Node): Node
    decreases n, 1
  {
    match n
    case Dir(es) => Dir(Apply(if name in below then EntriesOf(below[name]) else map[], es))
    case _ => n
  }

  /** What a changeset directory leaves of the directory below it. */
  function Kept(below: Entries, layer: Entries): Entries {
    map x | x in below && !Hides(layer, x) :: below[x]
  }

  /** Applies one changeset directory to the directory built so far. */
  function Apply(below: Entries, layer: Entries): Entries
    decreases Dir(layer), 0
  {
    var kept := Kept(below, layer);
    map x | x in layer.Keys + kept.Keys && !IsWhiteout(x) ::
      if x in layer then Put(kept, x, layer[x]) else kept[x]
  }

  /** Applies changesets in the order they are given, the base layer first. */
  function ApplyAll(layers: seq<Entries>): Entries {
    if layers == [] then map[] else Apply(ApplyAll(layers[..|layers| - 1]), layers[|layers| - 1])
  }

  /** The same image, for a stack listed from the uppermost layer down. */
  function Flatten(stack: seq<Entries>): Entries {
    if stack == [] then map[] else Apply(Flatten(stack[1..]), stack[0])
  }

  function Reverse<T>(s: seq<T>): (r: seq<T>)
    ensures |r| == |s| && forall i :: 0 <= i < |s| ==> r[i] == s[|s| - 1 - i]
  {
    seq(|s|, i requires 0 <= i < |s| => s[|s| - 1 - i])
  }

  lemma {:induction false} FlattenReversed(layers: seq<Entries>)
    ensures Flatten(Reverse(layers)) == ApplyAll(layers)
  {
    if layers != [] {
      var init := layers[..|layers| - 1];
      assert Reverse(layers) == [layers[|layers| - 1]] + Reverse(init);
      FlattenReversed(init);
    }
  }

  /** No marker survives flattening, at any depth. */
  ghost predicate Unmarked(n: Node) {
    match n
    case Dir(es) => forall x :: x in es ==> !IsWhiteout(x) && Unmarked(es[x])
    case _ => true
  }

  lemma {:induction false} ApplyUnmarked(below: Entries, layer: Entries)
    requires Unmarked(Dir(below))
    ensures Unmarked(Dir(Apply(below, layer)))
    decreases Dir(layer)
  {
    forall x | x in Apply(below, layer) ensures Unmarked(Apply(below, layer)[x]) {
      if x in layer && layer[x].Dir? {
        var kept := Kept(below, layer);
        var under := if x in kept then EntriesOf(kept[x]) else map[];
        assert Unmarked(Dir(under));
        ApplyUnmarked(under, layer[x].entries);
      }
    }
  }

  lemma {:induction false} FlattenUnmarked(stack: seq<Entries>)
    ensures Unmarked(Dir(Flatten(stack)))
  {
    if stack != [] {
      FlattenUnmarked(stack[1..]);
      ApplyUnmarked(Flatten(stack[1..]), stack[0]);
    }
  }
}

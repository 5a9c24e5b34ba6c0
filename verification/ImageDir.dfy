/** Reading a directory of a layer stack to its end: the merged listing, its paging into bytes and
    the cookie protocol together give the children of the flattened image. */
module ImageDir {
  import opened Basics
  import opened Bytes
  import opened OciTree
  import Overlay
  import Listing
  import Dirents
  import ReadDir

  // ----- names as bytes

  /** A file name: characters are bytes, and none is null. */
  predicate IsFileName(x: string) { forall i :: 0 <= i < |x| ==> 0 < x[i] as int < 256 }

  function BytesOf(x: string): (b: bytes)
    requires IsFileName(x)
    ensures |b| == |x| && forall i :: 0 <= i < |x| ==> b[i] == x[i] as int
  {
    seq(|x|, i requires 0 <= i < |x| => x[i] as int)
  }

  lemma {:induction false} BytesInjective(x: string, y: string)
    requires IsFileName(x) && IsFileName(y) && BytesOf(x) == BytesOf(y)
    ensures x == y
  {
    forall i | 0 <= i < |x| ensures x[i] == y[i] { assert BytesOf(x)[i] == BytesOf(y)[i]; }
  }

  function ModeOf(k: Listing.Kind): Dirents.Mode {
    match k case Regular => Dirents.Regular case Symlink => Dirents.Symlink case Directory => Dirents.Directory
  }

  // ----- listings

  /** Names that a directory entry can hold, in a buffer. */
  ghost predicate Named(es: seq<Listing.Dirent>) {
    forall i :: 0 <= i < |es| ==> IsFileName(es[i].name) && Dirents.SIZE_OF_DIRENT + |es[i].name| + 1 <= ReadDir.DIRBUF_SIZE
  }

  function EntryOf(d: Listing.Dirent, inode: string -> nat): Dirents.Entry
    requires IsFileName(d.name)
  {
    Dirents.Entry(ModeOf(d.kind), inode(d.name) % TWO64, BytesOf(d.name))
  }

  function EntriesOf(es: seq<Listing.Dirent>, inode: string -> nat): (rs: seq<Dirents.Entry>)
    requires Named(es)
    ensures |rs| == |es| && forall i :: 0 <= i < |es| ==> rs[i] == EntryOf(es[i], inode)
  {
    seq(|es|, i requires 0 <= i < |es| => EntryOf(es[i], inode))
  }

  lemma {:induction false} EntriesFit(es: seq<Listing.Dirent>, inode: string -> nat)
    requires Named(es)
    ensures ReadDir.Sized(EntriesOf(es, inode)) && ReadDir.Fitting(EntriesOf(es, inode), |es|)
  {
  }

  /** The type the guest should be told for a node. */
  function TypeOfNode(n: Node): ReadDir.FileType {
    match n case File(_) => ReadDir.RegularFileType case Link(_) => ReadDir.SymbolicLinkType case Dir(_) => ReadDir.DirectoryType
  }

  lemma {:induction false} KindsTellTypes(n: Node)
    ensures ReadDir.TypeOf(ModeOf(Listing.KindOf(n))) == TypeOfNode(n)
  {
  }

  lemma {:induction false} EntryKept(es: seq<Listing.Dirent>, inode: string -> nat, i: nat)
    requires Named(es) && i < |es|
    ensures ReadDir.Told(EntriesOf(es, inode))[i]
      == ReadDir.Listed(BytesOf(es[i].name), ReadDir.TypeOf(ModeOf(es[i].kind)), inode(es[i].name) % TWO64)
  {
    assert 0 !in BytesOf(es[i].name);
  }

  /** An entry that tells name, type and inode number of a child. */
  ghost predicate IsChild(l: ReadDir.Listed, image: Entries, inode: string -> nat, x: string) {
    x in image && IsFileName(x) && l == ReadDir.Listed(BytesOf(x), TypeOfNode(image[x]), inode(x) % TWO64)
  }

  ghost predicate IsSomeChild(l: ReadDir.Listed, image: Entries, inode: string -> nat) { exists x :: IsChild(l, image, inode, x) }

  ghost predicate Lists(ls: seq<ReadDir.Listed>, image: Entries, inode: string -> nat, x: string) {
    exists i :: 0 <= i < |ls| && IsChild(ls[i], image, inode, x)
  }

  /** The entries tell the children of a directory, each once. */
  ghost predicate AreChildren(ls: seq<ReadDir.Listed>, image: Entries, inode: string -> nat) {
    && (forall i, j :: 0 <= i < j < |ls| ==> ls[i].name != ls[j].name)
    && (forall i :: 0 <= i < |ls| ==> IsSomeChild(ls[i], image, inode))
    && (forall x :: x in image ==> Lists(ls, image, inode, x))
  }

  lemma {:induction false} ListedEntries(es: seq<Listing.Dirent>, inode: string -> nat, image: Entries, ls: seq<ReadDir.Listed>)
    requires Named(es) && Listing.DistinctNames(es) && (forall x :: Listing.HasName(es, x) <==> x in image)
    requires forall i :: 0 <= i < |es| && es[i].name in image ==> es[i].kind == Listing.KindOf(image[es[i].name])
    requires ls == ReadDir.Told(EntriesOf(es, inode))
    ensures AreChildren(ls, image, inode)
  {
    forall i: nat | i < |es| ensures IsChild(ls[i], image, inode, es[i].name) {
      EntryKept(es, inode, i);
      assert Listing.HasName(es, es[i].name);
      KindsTellTypes(image[es[i].name]);
    }
    forall i, j | 0 <= i < j < |ls| ensures ls[i].name != ls[j].name {
      assert IsChild(ls[i], image, inode, es[i].name) && IsChild(ls[j], image, inode, es[j].name);
      if ls[i].name == ls[j].name { BytesInjective(es[i].name, es[j].name); }
    }
    forall i | 0 <= i < |ls| ensures IsSomeChild(ls[i], image, inode) { assert IsChild(ls[i], image, inode, es[i].name); }
    forall x | x in image ensures Lists(ls, image, inode, x) {
      var i :| 0 <= i < |es| && es[i].name == x;
      assert IsChild(ls[i], image, inode, x);
    }
  }

  /** For every stack whose listing is the image, calls with any slots and byte budgets, each going
      on after the last entry of the one before, tell the children of the flattened directory,
      each once, with its type. */
  method ListStack(raws: seq<seq<Listing.Dirent>>, ghost dirs: seq<Node>, inode: string -> nat, calls: seq<(nat, int)>)
    returns (listed: seq<ReadDir.Listed>)
    requires Listing.EnumeratesAll(raws, dirs) && Listing.NoneBeside(dirs) && Listing.NonePassed(dirs)
    requires Named(Listing.Merged(Listing.EMPTY, raws).entries)
    requires |calls| >= |Listing.Merged(Listing.EMPTY, raws).entries| && forall k :: 0 <= k < |calls| ==> calls[k].0 > 0
    ensures AreChildren(listed, Flatten(Overlay.Contents(dirs)), inode)
  {
    var es := Listing.Init(raws);
    Listing.ListingOfImage(raws, dirs);
    Listing.ListingIsImageExactly(raws, dirs);
    EntriesFit(es, inode);
    var file := new Dirents.Dirbuf(EntriesOf(es, inode));
    var dir := new ReadDir.WasiDir(file);
    listed := ReadDir.ReadAll(dir, calls);
    ListedEntries(es, inode, Flatten(Overlay.Contents(dirs)), listed);
  }
}

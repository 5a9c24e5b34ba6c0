/** Reading a directory through cookies (internal/sandbox/wasi.go, wasiDir.FDReadDir), over the
    paging of the overlay.  Names are returned as regions of the directory's buffer. */
module ReadDir {
  import opened Basics
  import opened Bytes
  import opened Dirents

  const DIRBUF_SIZE: nat := 8192
  const WASI_SIZE_OF_DIRENT: nat := 24

  datatype FileType = UnknownType | BlockDeviceType | CharacterDeviceType | DirectoryType | RegularFileType | SocketStreamType | SymbolicLinkType

  function FileTypeOf(code: byte): FileType {
    if code == 6 then BlockDeviceType else if code == 2 then CharacterDeviceType else if code == 4 then DirectoryType
    else if code == 10 then SymbolicLinkType else if code == 8 then RegularFileType else if code == 12 then SocketStreamType
    else UnknownType
  }

  /** The type the guest should be told for each mode. */
  function TypeOf(m: Mode): FileType {
    match m
    case Regular => RegularFileType
    case Directory => DirectoryType
    case Symlink => SymbolicLinkType
    case Socket => SocketStreamType
    case Device => BlockDeviceType
    case CharDevice => CharacterDeviceType
    case NamedPipe => UnknownType
    case Irregular => UnknownType
  }

  /** The code stored with an entry leads to that type. */
  lemma {:induction false} CodesTellTypes(m: Mode)
    ensures FileTypeOf(TypeCode(m)) == TypeOf(m)
  {
  }

  /** An entry handed to the guest; its name is `buffer[from..to]`. */
  datatype DirEntry = DirEntry(next: nat, ino: nat, typ: FileType, from: nat, to: nat)

  /** Entries as directories have them: sizes of 16 bits, inode numbers of 64. */
  ghost predicate Sized(es: seq<Entry>) { forall i :: 0 <= i < |es| ==> Fits(es[i]) }

  /** The buffer can hold each of the first `n` entries. */
  ghost predicate Fitting(es: seq<Entry>, n: nat) {
    forall i :: 0 <= i < n && i < |es| ==> SizeOfDirent(es[i]) <= DIRBUF_SIZE
  }

  /** The entry at index `i` of the directory, as the guest should see it in a buffer. */
  ghost predicate Shows(d: DirEntry, buffer: bytes, es: seq<Entry>, i: nat) {
    && i < |es| && d.next == i + 1 && d.ino == es[i].ino && d.typ == TypeOf(es[i].mode)
    && d.from <= d.to <= |buffer| && buffer[d.from..d.to] == CutAtNull(es[i].name)
  }

  /** What is left in the buffer: entries from `cookie` on, as a page; or nothing, when only the
      beginning of an entry was left. */
  ghost predicate Holding(es: seq<Entry>, buffer: bytes, offset: nat, length: nat, cookie: nat, at: nat) {
    && cookie <= |es| && offset <= length <= |buffer| == DIRBUF_SIZE
    && (|| (offset == length && at == cookie)
        || (buffer[offset..length] == Page(es, cookie, DIRBUF_SIZE - offset) && at == PageEnd(es, cookie, DIRBUF_SIZE - offset)))
  }

  /** The bytes that an entry takes from the budget of a call. */
  function Cost(d: DirEntry): nat { WASI_SIZE_OF_DIRENT + if d.from <= d.to then d.to - d.from else 0 }

  function Used(ds: seq<DirEntry>): nat { if ds == [] then 0 else Used(ds[..|ds| - 1]) + Cost(ds[|ds| - 1]) }

  lemma {:induction false} UsedNext(ds: seq<DirEntry>, d: DirEntry)
    ensures Used(ds + [d]) == Used(ds) + Cost(d)
  {
    assert (ds + [d])[..|ds|] == ds;
  }

  /** What is left of the budget, none of it negative while more is delivered. */
  ghost predicate Budgeted(ds: seq<DirEntry>, total: int, left: int) { left == total - Used(ds) && (ds != [] ==> left > 0) }

  /** Every entry but the last left some of the budget. */
  ghost predicate Within(ds: seq<DirEntry>, budget: int) { |ds| > 1 ==> Used(ds[..|ds| - 1]) < budget }

  lemma {:induction false} OneMore(ds: seq<DirEntry>, d: DirEntry, total: int, left: int)
    requires Budgeted(ds, total, left) && d.from <= d.to
    ensures Within(ds + [d], total) && Used(ds + [d]) == total - (left - WASI_SIZE_OF_DIRENT - (d.to - d.from))
  {
    UsedNext(ds, d);
    assert (ds + [d])[..|ds|] == ds;
  }

  // ----- what the bytes at the current offset are

  /** Bytes that begin with a stored entry, and read as one. */
  ghost predicate Front(p: bytes, e: Entry, off: nat) {
    && |p| >= SizeOfDirent(e) && p[..SizeOfDirent(e)] == Stored(e, off) && p[18] == TypeCode(e.mode)
    && ReadDirent(p) == Got(SizeOfDirent(e), e.mode, e.ino, FromLE(LE(off, 8)), CutAtNull(e.name))
  }

  /** The first entry of a page is there whole, or too short to be read. */
  lemma {:induction false} PageFront(es: seq<Entry>, i: nat, room: nat)
    requires Sized(es) && i <= |es|
    ensures var p := Page(es, i, room);
      if i < |es| && SizeOfDirent(es[i]) <= room then
        && Front(p, es[i], OffsetOf(es, i)) && p[SizeOfDirent(es[i])..] == Page(es, i + 1, room - SizeOfDirent(es[i]))
      else ReadDirent(p) == Short && PageEnd(es, i, room) == i
  {
    if i < |es| && room > 0 {
      var s := Stored(es[i], OffsetOf(es, i));
      if SizeOfDirent(es[i]) <= room {
        var rest := Page(es, i + 1, room - |s|);
        ReadStored(es[i], OffsetOf(es, i), rest);
        HeaderParts(es[i], OffsetOf(es, i));
        assert (s + rest)[|s|..] == rest && (s + rest)[..|s|] == s;
      } else {
        ReadTruncated(es[i], OffsetOf(es, i), room);
      }
    }
  }

  /** After an entry that lies whole in the buffer come the entries after it. */
  lemma {:induction false} PassOver(es: seq<Entry>, buffer: bytes, offset: nat, length: nat, cookie: nat, at: nat)
    requires Sized(es) && Holding(es, buffer, offset, length, cookie, at) && cookie < |es| && SizeOfDirent(es[cookie]) <= length - offset
    ensures Holding(es, buffer, offset + SizeOfDirent(es[cookie]), length, cookie + 1, at)
  {
    var size := SizeOfDirent(es[cookie]);
    PageFront(es, cookie, DIRBUF_SIZE - offset);
    assert buffer[offset + size..length] == buffer[offset..length][size..];
  }

  class WasiDir {
    const file: Dirbuf
    const buffer: array<byte>
    var open: bool
    var offset: nat
    var length: nat
    var cookie: nat

    ghost predicate Valid() reads this, file, buffer {
      && buffer.Length == DIRBUF_SIZE && Sized(file.listing) && file.Valid()
      && (open ==> Holding(file.listing, buffer[..], offset, length, cookie, file.At()))
    }

    constructor (file: Dirbuf)
      requires file.Valid() && file.At() == 0 && Sized(file.listing)
      ensures Valid() && this.file == file && fresh(buffer) && open && cookie == 0
    {
      this.file, open, offset, length, cookie := file, true, 0, 0, 0;
      buffer := new byte[DIRBUF_SIZE](_ => 0);
    }

    method FDCloseDir()
      requires Valid()
      modifies this`open
      ensures Valid() && !open
    {
      open := false;
    }

    /** Goes back to the start of the directory. */
    method Rewind()
      requires Valid() && open
      modifies this, file
      ensures Valid() && open && cookie == 0
    {
      file.Reset();
      offset, length, cookie := 0, 0, 0;
    }

    /** Reads the next page; `more` unless the directory is at its end. */
    method Refill() returns (more: bool)
      requires Valid() && open && file.At() == cookie && Fitting(file.listing, cookie + 1)
      modifies this`offset, this`length, file, buffer
      ensures Valid() && open
      ensures more == (cookie < |file.listing|)
      ensures more ==> HasEntry()
    {
      PageFront(file.listing, cookie, DIRBUF_SIZE);
      var n := file.ReadDirent(buffer);
      if n == 0 {
        return false;
      }
      offset, length := 0, n;
      return true;
    }

    /** The turn of the loop that reads a page when the next entry is larger than the buffer:
        something is read, no entry in it, and the directory stands where it stood before. */
    method RefillInVain() returns (n: nat)
      requires Valid() && open && offset == length && file.At() == cookie < |file.listing|
      requires SizeOfDirent(file.listing[cookie]) > DIRBUF_SIZE
      modifies this`offset, this`length, file, buffer
      ensures n > 0 && Valid() && open && offset == length && file.At() == cookie
    {
      PageFront(file.listing, cookie, DIRBUF_SIZE);
      PageAdvancesExactly(file.listing, cookie);
      n := file.ReadDirent(buffer);
      offset, length := 0, n;
      assert buffer[..n] == buffer[offset..length] && ReadDirent(buffer[offset..length]) == Short;
      offset := length;
    }

    /** A whole entry lies at the current offset. */
    ghost predicate HasEntry() reads this, file, buffer {
      && cookie < |file.listing| && offset <= length <= buffer.Length == DIRBUF_SIZE
      && SizeOfDirent(file.listing[cookie]) <= length - offset
      && buffer[offset..length] == Page(file.listing, cookie, DIRBUF_SIZE - offset)
    }

    /** Nothing to be read before the next page: the file stands at the same entry. */
    lemma {:induction false} Exhausted()
      requires Valid() && open && !HasEntry()
      ensures file.At() == cookie
      ensures length - offset >= SIZE_OF_DIRENT ==> ReadDirent(buffer[offset..length]) == Short
    {
      PageFront(file.listing, cookie, DIRBUF_SIZE - offset);
    }

    lemma {:induction false} EntryReads()
      requires Valid() && open && HasEntry()
      ensures Front(buffer[offset..length], file.listing[cookie], OffsetOf(file.listing, cookie))
    {
      PageFront(file.listing, cookie, DIRBUF_SIZE - offset);
    }

    /** The entry at the current offset, for the guest. */
    method Show() returns (d: DirEntry)
      requires Valid() && open && HasEntry()
      ensures Shows(d, buffer[..], file.listing, cookie)
    {
      EntryReads();
      ghost var all := buffer[..];
      assert buffer[offset..length] == all[offset..length];
      FrontParsed(buffer[offset..length], file.listing[cookie], OffsetOf(file.listing, cookie));
      RegionParsed(all, offset, length, file.listing[cookie]);
      var p := ReadDirent(buffer[offset..length]);
      ShownIs(all, offset + SIZE_OF_DIRENT, p.size - SIZE_OF_DIRENT, cookie, file.listing);
      d := Shown(buffer[..], offset + SIZE_OF_DIRENT, p.size - SIZE_OF_DIRENT, buffer[offset + 18], p.ino, cookie);
    }

    method Skip()
      requires Valid() && open && HasEntry()
      modifies this`offset, this`cookie
      ensures Valid() && cookie == old(cookie) + 1
    {
      EntryReads();
      PassOver(file.listing, buffer[..], offset, length, cookie, file.At());
      assert buffer[..][offset..length] == buffer[offset..length];
      var reclen := ReadDirent(buffer[offset..length]).size;
      offset := offset + reclen;
      cookie := cookie + 1;
    }

    /** Entries from index `from` on, as many as the caller's slots, the byte budget and the
        buffer allow, but at least one unless there is none; the names stay in the buffer.  It
        returns when no entry up to that one is larger than the buffer. */
    method FDReadDir(out: array<DirEntry>, from: nat, bufferSizeBytes: int) returns (n: nat)
      requires Valid() && (open && out.Length > 0 ==> Fitting(file.listing, from + 1))
      modifies this, file, buffer, out
      ensures Valid() && open == old(open) && n <= out.Length && out[n..] == old(out[n..])
      ensures Filled(out[..n], buffer[..], file.listing, from)
      ensures n == 0 <==> !open || out.Length == 0 || from >= |file.listing|
      ensures Within(out[..n], bufferSizeBytes)
      ensures open && n < out.Length ==> Used(out[..n]) >= bufferSizeBytes || !HasEntry()
    {
      n := 0;
      if !open {
        return;
      }
      if from < cookie {
        Rewind();
      }
      n := FillFrom(out, from, bufferSizeBytes);
    }

    method FillFrom(out: array<DirEntry>, from: nat, bufferSizeBytes: int) returns (n: nat)
      requires Valid() && open && cookie <= from && (out.Length > 0 ==> Fitting(file.listing, from + 1))
      modifies this`offset, this`length, this`cookie, file, buffer, out
      ensures Valid() && n <= out.Length && out[n..] == old(out[n..])
      ensures Filled(out[..n], buffer[..], file.listing, from)
      ensures n == 0 <==> out.Length == 0 || from >= |file.listing|
      ensures Within(out[..n], bufferSizeBytes)
      ensures n < out.Length ==> Used(out[..n]) >= bufferSizeBytes || !HasEntry()
    {
      n := 0;
      var budget, done := bufferSizeBytes, false;
      ghost var ds: seq<DirEntry> := [];
      while n < out.Length && !done
        invariant Valid() && n <= out.Length && out[n..] == old(out[n..]) && out[..n] == ds
        invariant !done ==> InStep(n, from)
        invariant done && n == 0 ==> from >= |file.listing|
        invariant Within(ds, bufferSizeBytes)
        invariant if done then Used(ds) >= bufferSizeBytes || !HasEntry() else Budgeted(ds, bufferSizeBytes, budget)
        invariant Filled(ds, buffer[..], file.listing, from)
        decreases !done, |file.listing| - cookie
      {
        var found := Locate(n == 0);
        assert out[..n] == ds;
        if found {
          ghost var before, k := out[..], n;
          n, budget, done := Deliver(out, n, from, budget, bufferSizeBytes);
          ds := out[..n];
          TailKept(old(out[..]), before, out[..], k, n);
        } else {
          done := true;
        }
      }
      assert n > 0 ==> Shows(ds[0], buffer[..], file.listing, from);
    }

    /** Where the directory stands when `n` entries from `from` on were delivered. */
    ghost predicate InStep(n: nat, from: nat) reads this { cookie <= from + n && (n > 0 ==> cookie == from + n) }

    /** Delivers the entry at the current offset, unless it lies before `from`, and passes over
        it unless the byte budget is used up. */
    method Deliver(out: array<DirEntry>, n: nat, from: nat, budget: int, ghost total: int) returns (m: nat, left: int, done: bool)
      requires Valid() && open && HasEntry() && n < out.Length && InStep(n, from) && Filled(out[..n], buffer[..], file.listing, from)
      requires Budgeted(out[..n], total, budget) && Within(out[..n], total)
      modifies this`offset, this`cookie, out
      ensures Valid() && n <= m <= out.Length && out[m..] == old(out[m..])
      ensures Filled(out[..m], buffer[..], file.listing, from)
      ensures !done ==> InStep(m, from) && cookie == old(cookie) + 1 <= |file.listing|
      ensures done ==> m > 0 && Used(out[..m]) >= total
      ensures !done ==> Budgeted(out[..m], total, left)
      ensures Within(out[..m], total)
    {
      m, left, done := n, budget, false;
      if cookie >= from {
        left := Put(out, n, from, budget, total);
        m := n + 1;
        if left <= 0 {
          done := true;
          return;
        }
      }
      Skip();
    }

    /** Puts the entry at the current offset into a slot. */
    method Put(out: array<DirEntry>, n: nat, from: nat, budget: int, ghost total: int) returns (left: int)
      requires Valid() && open && HasEntry() && n < out.Length && cookie == from + n && Filled(out[..n], buffer[..], file.listing, from)
      requires Budgeted(out[..n], total, budget)
      modifies out
      ensures Valid() && out[n + 1..] == old(out[n + 1..]) && Filled(out[..n + 1], buffer[..], file.listing, from)
      ensures left == total - Used(out[..n + 1]) && Within(out[..n + 1], total)
    {
      var d := Show();
      ghost var ds, tail := out[..n], out[n + 1..];
      FilledNext(ds, d, buffer[..], file.listing, from);
      OneMore(ds, d, total, budget);
      out[n] := d;
      assert out[..n + 1] == ds + [d] && out[n + 1..] == tail;
      left := budget - WASI_SIZE_OF_DIRENT;
      left := left - (d.to - d.from);
    }

    /** Makes sure that a whole entry lies at the current offset, reading the next page if that
        is allowed; what is left of an entry cut off at the end of the buffer is dropped. */
    method Locate(refill: bool) returns (found: bool)
      requires Valid() && open && (refill ==> Fitting(file.listing, cookie + 1))
      modifies this`offset, this`length, file, buffer
      ensures Valid() && (!refill ==> buffer[..] == old(buffer[..]))
      ensures found <==> HasEntry()
      ensures !found && refill ==> cookie >= |file.listing|
    {
      if HasEntry() { EntryReads(); } else { Exhausted(); }
      if length - offset >= SIZE_OF_DIRENT {
        if !ReadDirent(buffer[offset..length]).Short? {
          return true;
        }
        offset := length;
      }
      if !refill {
        return false;
      }
      found := Refill();
    }
  }

  lemma {:induction false} TailKept<T>(a: seq<T>, b: seq<T>, c: seq<T>, k: nat, n: nat)
    requires k <= n <= |a| == |b| == |c| && b[k..] == a[k..] && c[n..] == b[n..]
    ensures c[n..] == a[n..]
  {
    assert a[n..] == a[k..][n - k..] && b[n..] == b[k..][n - k..];
  }

  ghost predicate Filled(ds: seq<DirEntry>, buffer: bytes, es: seq<Entry>, from: nat) {
    forall i :: 0 <= i < |ds| ==> Shows(ds[i], buffer, es, from + i)
  }

  lemma {:induction false} FilledNext(ds: seq<DirEntry>, d: DirEntry, buffer: bytes, es: seq<Entry>, from: nat)
    requires Filled(ds, buffer, es, from) && Shows(d, buffer, es, from + |ds|)
    ensures Filled(ds + [d], buffer, es, from)
  {
  }

  /** What the guest gets for a name of `size` bytes that starts at `from`. */
  function Shown(buffer: bytes, from: nat, size: nat, code: byte, ino: nat, cookie: nat): DirEntry
    requires from + size <= |buffer|
  {
    DirEntry(cookie + 1, ino, FileTypeOf(code), from, from + |CutAtNull(buffer[from..from + size])|)
  }

  lemma {:induction false} ShownIs(buffer: bytes, from: nat, size: nat, cookie: nat, es: seq<Entry>)
    requires cookie < |es| && from + size <= |buffer|
    requires CutAtNull(buffer[from..from + size]) == CutAtNull(es[cookie].name)
    ensures Shows(Shown(buffer, from, size, TypeCode(es[cookie].mode), es[cookie].ino, cookie), buffer, es, cookie)
  {
    CodesTellTypes(es[cookie].mode);
    PrefixSlice(buffer, from, from + size, CutAtNull(buffer[from..from + size]));
  }

  lemma {:induction false} RegionParsed(buffer: bytes, offset: nat, length: nat, e: Entry)
    requires offset <= length <= |buffer| && Parsed(buffer[offset..length], e)
    ensures offset + SizeOfDirent(e) <= length && buffer[offset + 18] == TypeCode(e.mode)
    ensures CutAtNull(buffer[offset + SIZE_OF_DIRENT..offset + SizeOfDirent(e)]) == CutAtNull(e.name)
  {
    SliceOfSlice(buffer, offset, length, SIZE_OF_DIRENT, SizeOfDirent(e));
    assert buffer[offset..length][18] == buffer[offset + 18];
  }

  lemma {:induction false} PrefixSlice<T>(s: seq<T>, i: nat, j: nat, p: seq<T>)
    requires i <= j <= |s| && p <= s[i..j]
    ensures i + |p| <= |s| && s[i..i + |p|] == p
  {
    assert s[i..i + |p|] == s[i..j][..|p|];
  }

  /** What is used of a stored entry at the front of some bytes. */
  ghost predicate Parsed(q: bytes, e: Entry) {
    && |q| >= SizeOfDirent(e) && q[18] == TypeCode(e.mode)
    && CutAtNull(q[SIZE_OF_DIRENT..SizeOfDirent(e)]) == CutAtNull(e.name)
  }

  lemma {:induction false} FrontParsed(q: bytes, e: Entry, off: nat)
    requires Front(q, e, off)
    ensures Parsed(q, e)
  {
    var s, h := Stored(e, off), Header(e, off);
    assert s == h + (e.name + [0]);
    assert q[SIZE_OF_DIRENT..SizeOfDirent(e)] == q[..SizeOfDirent(e)][SIZE_OF_DIRENT..] == e.name + [0];
    CutTerminated(e.name);
  }

  lemma {:induction false} SliceOfSlice<T>(s: seq<T>, i: nat, j: nat, a: nat, b: nat)
    requires i <= j <= |s| && a <= b <= j - i
    ensures s[i..j][a..b] == s[i + a..i + b]
  {
    var t := s[i..j];
    assert forall k :: 0 <= k < |t| ==> t[k] == s[i + k];
    assert |t[a..b]| == |s[i + a..i + b]|;
    assert forall k :: 0 <= k < b - a ==> t[a..b][k] == t[a + k] == s[i + a..i + b][k];
  }

  /** A page moves the directory on exactly when its first entry is no larger than the buffer;
      otherwise every page from there on is the same beginning of that entry. */
  lemma {:induction false} PageAdvancesExactly(es: seq<Entry>, i: nat)
    requires i < |es| && Fits(es[i])
    ensures PageEnd(es, i, DIRBUF_SIZE) > i <==> SizeOfDirent(es[i]) <= DIRBUF_SIZE
    ensures SizeOfDirent(es[i]) > DIRBUF_SIZE ==> Page(es, i, DIRBUF_SIZE) != [] && ReadDirent(Page(es, i, DIRBUF_SIZE)) == Short
  {
    if SizeOfDirent(es[i]) > DIRBUF_SIZE { ReadTruncated(es[i], OffsetOf(es, i), DIRBUF_SIZE); }
  }

  // ----- a whole directory

  /** What the guest keeps of an entry. */
  datatype Listed = Listed(name: bytes, typ: FileType, ino: nat)

  function Told(es: seq<Entry>): (ls: seq<Listed>)
    ensures |ls| == |es|
  {
    seq(|es|, i requires 0 <= i < |es| => Listed(CutAtNull(es[i].name), TypeOf(es[i].mode), es[i].ino))
  }

  function Kept(ds: seq<DirEntry>, buffer: bytes): (ls: seq<Listed>)
    ensures |ls| == |ds|
  {
    seq(|ds|, i requires 0 <= i < |ds| =>
      Listed(if ds[i].from <= ds[i].to <= |buffer| then buffer[ds[i].from..ds[i].to] else [], ds[i].typ, ds[i].ino))
  }

  lemma {:induction false} FilledTold(ds: seq<DirEntry>, buffer: bytes, es: seq<Entry>, from: nat)
    requires Filled(ds, buffer, es, from) && from <= |es|
    ensures from + |ds| <= |es| && Kept(ds, buffer) == Told(es)[from..from + |ds|]
  {
    forall i | 0 <= i < |ds| ensures from + i < |es| && Kept(ds, buffer)[i] == Told(es)[from + i] {
      assert Shows(ds[i], buffer, es, from + i);
    }
    if ds != [] { assert Shows(ds[|ds| - 1], buffer, es, from + (|ds| - 1)); }
  }

  /** One call that goes on at `from`, with what it returns. */
  method ListFrom(dir: WasiDir, from: nat, slots: nat, budget: int) returns (listed: seq<Listed>)
    requires dir.Valid() && dir.open && from <= |dir.file.listing| && Fitting(dir.file.listing, from + 1)
    modifies dir, dir.file, dir.buffer
    ensures dir.Valid() && dir.open && from + |listed| <= |dir.file.listing|
    ensures listed == Told(dir.file.listing)[from..from + |listed|]
    ensures slots > 0 && from < |dir.file.listing| ==> listed != []
  {
    var out := new DirEntry[slots](_ => DirEntry(0, 0, UnknownType, 0, 0));
    var n := dir.FDReadDir(out, from, budget);
    listed := Kept(out[..n], dir.buffer[..]);
    FilledTold(out[..n], dir.buffer[..], dir.file.listing, from);
  }

  /** Calls in sequence, each going on after the last entry of the one before, with any number
      of slots and any byte budgets, list the entries of the directory in order, each once. */
  method ReadAll(dir: WasiDir, calls: seq<(nat, int)>) returns (listed: seq<Listed>)
    requires dir.Valid() && dir.open && Fitting(dir.file.listing, |dir.file.listing|)
    modifies dir, dir.file, dir.buffer
    ensures |listed| <= |dir.file.listing| && listed == Told(dir.file.listing)[..|listed|]
    ensures |calls| >= |dir.file.listing| && (forall k :: 0 <= k < |calls| ==> calls[k].0 > 0) ==> listed == Told(dir.file.listing)
  {
    ghost var all := Told(dir.file.listing);
    listed := [];
    for k := 0 to |calls|
      invariant dir.Valid() && dir.open && |listed| <= |all| && listed == all[..|listed|]
      invariant (forall j :: 0 <= j < |calls| ==> calls[j].0 > 0) ==> |listed| >= (if k < |all| then k else |all|)
    {
      var more := ListFrom(dir, |listed|, calls[k].0, calls[k].1);
      assert all[..|listed|] + all[|listed|..|listed| + |more|] == all[..|listed| + |more|];
      listed := listed + more;
    }
  }
}

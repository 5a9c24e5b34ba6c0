/** Directory entries in a byte buffer, in the Linux layout (internal/sandbox/syscall_unix.go
    and syscall_linux.go), and the paging of a merged listing into such buffers
    (internal/sandbox/ocifs/dir.go). */
module Dirents {
  import opened Basics
  import opened Bytes

  const SIZE_OF_DIRENT: nat := 19

  datatype Mode = Regular | Device | CharDevice | Directory | NamedPipe | Symlink | Socket | Irregular

  datatype Entry = Entry(mode: Mode, ino: nat, name: bytes)

  function TypeCode(m: Mode): byte {
    match m
    case Regular => 8 case Device => 6 case CharDevice => 2 case Directory => 4
    case NamedPipe => 1 case Symlink => 10 case Socket => 12 case Irregular => 0
  }

  function ModeOf(code: byte): Mode {
    if code == 8 then Regular else if code == 6 then Device else if code == 2 then CharDevice
    else if code == 4 then Directory else if code == 10 then Symlink else if code == 1 then NamedPipe
    else if code == 12 then Socket else Irregular
  }

  /** The size of an entry, as its 16-bit field has it. */
  function Reclen(e: Entry): nat { (SIZE_OF_DIRENT + |e.name| % 0x1_0000 + 1) % 0x1_0000 }

  function Header(e: Entry, off: nat): (h: bytes)
    ensures |h| == SIZE_OF_DIRENT
  {
    LE(e.ino, 8) + LE(off, 8) + LE(Reclen(e), 2) + [TypeCode(e.mode)]
  }

  function SizeOfDirent(e: Entry): nat { SIZE_OF_DIRENT + |e.name| + 1 }

  /** An entry as it is stored: header, name and a null byte. */
  function Stored(e: Entry, off: nat): (s: bytes)
    ensures |s| == SizeOfDirent(e)
  {
    Header(e, off) + e.name + [0]
  }

  /** The part of a name before its first null byte. */
  function CutAtNull(name: bytes): (r: bytes)
    ensures r <= name && 0 !in r && (|r| < |name| ==> name[|r|] == 0)
  {
    if name == [] || name[0] == 0 then [] else [name[0]] + CutAtNull(name[1..])
  }

  datatype Parsed = Short | Panic | Got(size: nat, mode: Mode, ino: nat, off: nat, name: bytes)

  function ReadDirent(buf: bytes): Parsed {
    if |buf| < SIZE_OF_DIRENT then Short
    else
      var reclen := FromLE(buf[16..18]);
      if reclen > |buf| then Short
      else if reclen < SIZE_OF_DIRENT then Panic
      else Got(reclen, ModeOf(buf[18]), FromLE(buf[..8]), FromLE(buf[8..16]), CutAtNull(buf[SIZE_OF_DIRENT..reclen]))
  }

  /** Whatever the bytes, an entry that is read ends where its size says, which the header is part
      of, and what follows it does not matter. */
  lemma {:induction false} ReadsOne(buf: bytes, more: bytes)
    ensures ReadDirent(buf).Short? <==> |buf| < SIZE_OF_DIRENT || FromLE(buf[16..18]) > |buf|
    ensures ReadDirent(buf).Panic? ==> FromLE(buf[16..18]) < SIZE_OF_DIRENT
    ensures ReadDirent(buf).Got? ==> SIZE_OF_DIRENT <= ReadDirent(buf).size == FromLE(buf[16..18]) <= |buf|
    ensures !ReadDirent(buf).Short? ==> ReadDirent(buf + more) == ReadDirent(buf)
  {
    if |buf| >= SIZE_OF_DIRENT {
      var b, reclen := buf + more, FromLE(buf[16..18]);
      assert b[16..18] == buf[16..18] && b[..8] == buf[..8] && b[8..16] == buf[8..16] && b[18] == buf[18];
      if SIZE_OF_DIRENT <= reclen <= |buf| { assert b[SIZE_OF_DIRENT..reclen] == buf[SIZE_OF_DIRENT..reclen]; }
    }
  }

  // ----- writing

  /** A buffer after bytes were copied into it from `at` on, as many as there is room for. */
  function Overlaid(buf: bytes, at: nat, src: bytes): (r: bytes)
    requires at <= |buf|
    ensures |r| == |buf|
    decreases |src|
  {
    if src == [] || at == |buf| then buf else Overlaid(buf[at := src[0]], at + 1, src[1..])
  }

  lemma {:induction false} OverlaidSlices(buf: bytes, at: nat, src: bytes)
    requires at <= |buf|
    ensures var n := Least(|src|, |buf| - at); Overlaid(buf, at, src) == buf[..at] + src[..n] + buf[at + n..]
    decreases |src|
  {
    if src != [] && at < |buf| { OverlaidSlices(buf[at := src[0]], at + 1, src[1..]); }
  }

  lemma {:induction false} OverlaidTwice(buf: bytes, at: nat, x: bytes, y: bytes)
    requires at <= |buf|
    ensures Overlaid(Overlaid(buf, at, x), at + Least(|x|, |buf| - at), y) == Overlaid(buf, at, x + y)
    decreases |x|
  {
    if x == [] {
      assert x + y == y;
    } else if at < |buf| {
      assert (x + y)[1..] == x[1..] + y;
      OverlaidTwice(buf[at := x[0]], at + 1, x[1..], y);
    }
  }

  method Copy(buf: array<byte>, at: nat, src: bytes) returns (n: nat)
    requires at <= buf.Length
    modifies buf
    ensures n == Least(|src|, buf.Length - at) && buf[..] == Overlaid(old(buf[..]), at, src)
  {
    n := 0;
    while n < |src| && at + n < buf.Length
      invariant n <= |src| && at + n <= buf.Length
      invariant Overlaid(buf[..], at + n, src[n..]) == Overlaid(old(buf[..]), at, src)
    {
      ghost var before := buf[..];
      assert src[n..][1..] == src[n + 1..];
      buf[at + n] := src[n];
      assert buf[..] == before[at + n := src[n]];
      n := n + 1;
    }
  }

  /** Writes as much of an entry as the buffer has room for after `at`. */
  method WriteDirent(buf: array<byte>, at: nat, e: Entry, off: nat) returns (n: nat)
    requires at <= buf.Length
    modifies buf
    ensures n == Least(SizeOfDirent(e), buf.Length - at) && buf[..] == Overlaid(old(buf[..]), at, Stored(e, off))
  {
    n := WriteParts(buf, at, Header(e, off), e.name);
  }

  method WriteParts(buf: array<byte>, at: nat, header: bytes, name: bytes) returns (n: nat)
    requires at <= buf.Length
    modifies buf
    ensures n == Least(|header| + |name| + 1, buf.Length - at) && buf[..] == Overlaid(old(buf[..]), at, header + name + [0])
  {
    OverlaidThrice(buf[..], at, header, name, [0]);
    n := Copy(buf, at, header);
    var m := Copy(buf, at + n, name);
    n := n + m;
    m := Terminate(buf, at + n);
    n := n + m;
  }

  /** Ends a name with a null byte, if there is room. */
  method Terminate(buf: array<byte>, at: nat) returns (n: nat)
    requires at <= buf.Length
    modifies buf
    ensures n == Least(1, buf.Length - at) && buf[..] == Overlaid(old(buf[..]), at, [0])
  {
    n := 0;
    ghost var before := buf[..];
    assert [0][1..] == [];
    if at < buf.Length {
      buf[at] := 0;
      assert buf[..] == before[at := 0];
      n := 1;
    }
  }

  lemma {:induction false} OverlaidThrice(buf: bytes, at: nat, x: bytes, y: bytes, z: bytes)
    requires at <= |buf|
    ensures var i := at + Least(|x|, |buf| - at);
      var j := i + Least(|y|, |buf| - i);
      Overlaid(Overlaid(Overlaid(buf, at, x), i, y), j, z) == Overlaid(buf, at, x + y + z) &&
      j + Least(|z|, |buf| - j) == at + Least(|x + y + z|, |buf| - at)
  {
    OverlaidTwice(buf, at, x, y);
    OverlaidTwice(buf, at, x + y, z);
  }

  // ----- reading back

  lemma {:induction false} HeaderParts(e: Entry, off: nat)
    ensures var h := Header(e, off);
      h[..8] == LE(e.ino, 8) && h[8..16] == LE(off, 8) && h[16..18] == LE(Reclen(e), 2) && h[18] == TypeCode(e.mode)
  {
  }

  predicate Fits(e: Entry) { SizeOfDirent(e) < 0x1_0000 && e.ino < TWO64 }

  lemma {:induction false} HeadSlices(h: bytes, t: bytes)
    requires |h| == SIZE_OF_DIRENT
    ensures (h + t)[..8] == h[..8] && (h + t)[8..16] == h[8..16] && (h + t)[16..18] == h[16..18] && (h + t)[18] == h[18]
  {
  }

  lemma {:induction false} NameSlice(h: bytes, name: bytes, rest: bytes)
    requires |h| == SIZE_OF_DIRENT
    ensures h + name + [0] + rest == h + (name + [0] + rest)
    ensures (h + name + [0] + rest)[SIZE_OF_DIRENT..SIZE_OF_DIRENT + |name| + 1] == name + [0]
  {
  }

  lemma {:induction false} ParseEntry(h: bytes, name: bytes, rest: bytes)
    requires |h| == SIZE_OF_DIRENT && FromLE(h[16..18]) == SIZE_OF_DIRENT + |name| + 1
    ensures ReadDirent(h + name + [0] + rest)
      == Got(SIZE_OF_DIRENT + |name| + 1, ModeOf(h[18]), FromLE(h[..8]), FromLE(h[8..16]), CutAtNull(name))
  {
    NameSlice(h, name, rest);
    HeadSlices(h, name + [0] + rest);
    CutTerminated(name);
  }

  lemma {:induction false} HeaderReads(e: Entry, off: nat)
    requires Fits(e)
    ensures var h := Header(e, off);
      && FromLE(h[..8]) == e.ino && FromLE(h[8..16]) == FromLE(LE(off, 8)) && FromLE(h[16..18]) == SizeOfDirent(e)
      && ModeOf(h[18]) == e.mode
  {
    HeaderParts(e, off);
    NumberReads(e.ino, 8);
    ReclenReads(e);
  }

  lemma {:induction false} NumberReads(x: nat, k: nat)
    requires (k == 8 && x < TWO64) || (k == 2 && x < 0x1_0000)
    ensures FromLE(LE(x, k)) == x
  {
    Powers();
    FromLEOfLE(x, k);
  }

  lemma {:induction false} ReclenReads(e: Entry)
    requires Fits(e)
    ensures FromLE(LE(Reclen(e), 2)) == SizeOfDirent(e)
  {
    NumberReads(Reclen(e), 2);
  }

  /** An entry followed by anything reads back, its name up to the first null byte. */
  lemma {:induction false} ReadStored(e: Entry, off: nat, rest: bytes)
    requires Fits(e)
    ensures ReadDirent(Stored(e, off) + rest) == Got(SizeOfDirent(e), e.mode, e.ino, FromLE(LE(off, 8)), CutAtNull(e.name))
    ensures off < TWO64 ==> FromLE(LE(off, 8)) == off
  {
    HeaderReads(e, off);
    ParseEntry(Header(e, off), e.name, rest);
    if off < TWO64 { NumberReads(off, 8); }
  }

  lemma {:induction false} CutTerminated(name: bytes)
    ensures CutAtNull(name + [0]) == CutAtNull(name)
  {
    if name != [] && name[0] != 0 {
      assert (name + [0])[1..] == name[1..] + [0];
      CutTerminated(name[1..]);
    }
  }

  /** A truncated entry is never taken for a whole one. */
  lemma {:induction false} ReadTruncated(e: Entry, off: nat, k: nat)
    requires Fits(e) && k < SizeOfDirent(e)
    ensures ReadDirent(Stored(e, off)[..k]) == Short
  {
    if k >= SIZE_OF_DIRENT {
      ReclenReads(e);
      HeaderParts(e, off);
      assert Stored(e, off)[..k][16..18] == Header(e, off)[16..18];
    }
  }

  // ----- paging

  function SizeSum(es: seq<Entry>): nat { if es == [] then 0 else SizeSum(es[..|es| - 1]) + SizeOfDirent(es[|es| - 1]) }

  /** The offset recorded with entry `i`. */
  function OffsetOf(es: seq<Entry>, i: nat): nat
    requires i <= |es|
  {
    SizeSum(es[..i])
  }

  lemma {:induction false} OffsetNext(es: seq<Entry>, i: nat)
    requires i < |es|
    ensures OffsetOf(es, i + 1) == OffsetOf(es, i) + SizeOfDirent(es[i])
  {
    assert es[..i + 1][..i] == es[..i];
  }

  /** What entries from `i` on look like in a buffer with given room: whole ones, and the
      beginning of the one that does not fit. */
  function Page(es: seq<Entry>, i: nat, room: nat): (s: bytes)
    requires i <= |es|
    ensures |s| <= room
    decreases |es| - i
  {
    if i == |es| || room == 0 then []
    else
      var s := Stored(es[i], OffsetOf(es, i));
      if |s| > room then s[..room] else s + Page(es, i + 1, room - |s|)
  }

  /** The first entry that is not whole in that page. */
  function PageEnd(es: seq<Entry>, i: nat, room: nat): (k: nat)
    requires i <= |es|
    ensures i <= k <= |es|
    decreases |es| - i
  {
    if i == |es| || room == 0 || SizeOfDirent(es[i]) > room then i else PageEnd(es, i + 1, room - SizeOfDirent(es[i]))
  }

  class Dirbuf {
    const listing: seq<Entry>   // the merged entries that init collects
    var index: int
    var offset: nat
    var entries: seq<Entry>

    ghost predicate Valid() reads this {
      index == -1 || (0 <= index <= |entries| && entries == listing && offset == OffsetOf(entries, index))
    }

    /** The next entry to be read. */
    ghost function At(): nat
      requires Valid()
      reads this
    {
      if index < 0 then 0 else index
    }

    constructor (listing: seq<Entry>)
      ensures Valid() && this.listing == listing && At() == 0
    {
      this.listing, index, offset, entries := listing, -1, 0, [];
    }

    method Reset()
      requires Valid()
      modifies this
      ensures Valid() && At() == 0
    {
      if index > 0 {
        index, offset := 0, 0;
      }
    }

    method ReadDirent(buf: array<byte>) returns (n: nat)
      requires Valid()
      modifies this, buf
      ensures Valid() && old(At()) <= |listing| && n <= buf.Length
      ensures buf[..n] == Page(listing, old(At()), buf.Length) && At() == PageEnd(listing, old(At()), buf.Length)
    {
      if index < 0 {
        index, entries, offset := 0, listing, 0;
      }
      ghost var start := index;
      n := 0;
      while index < |entries| && n < buf.Length
        invariant Valid() && index >= 0 && n <= buf.Length
        invariant Written(buf[..n], listing, start, index, buf.Length - n, buf.Length)
      {
        var whole;
        n, whole := WriteAfter(buf, n, start);
        if !whole {
          break;
        }
      }
    }

    method WriteAfter(buf: array<byte>, n: nat, ghost start: nat) returns (m: nat, whole: bool)
      requires Valid() && 0 <= index < |entries| && n < buf.Length
      requires Written(buf[..n], listing, start, index, buf.Length - n, buf.Length)
      modifies this, buf
      ensures Valid() && index >= 0 && n < m <= buf.Length && entries == old(entries)
      ensures whole ==> index == old(index) + 1 && Written(buf[..m], listing, start, index, buf.Length - m, buf.Length)
      ensures !whole ==> m == buf.Length && start <= |listing| && buf[..] == Page(listing, start, buf.Length) && index == PageEnd(listing, start, buf.Length)
    {
      ghost var before, i := buf[..], index;
      assert before[..n] == buf[..n];
      m, whole := WriteNext(buf, n);
      ghost var after := buf[..];
      if whole {
        WrittenWhole(before, after, n, listing, start, i, buf.Length);
        assert after[..m] == buf[..m];
      } else {
        WrittenCut(before, after, n, listing, start, i, buf.Length);
      }
    }

    /** Writes the next entry; `whole` when there was room for all of it. */
    method WriteNext(buf: array<byte>, n: nat) returns (m: nat, whole: bool)
      requires Valid() && 0 <= index < |entries| && n < buf.Length
      modifies this, buf
      ensures Valid() && index >= 0 && entries == old(entries) && index == old(index) + (if whole then 1 else 0)
      ensures whole == (SizeOfDirent(entries[old(index)]) <= buf.Length - n)
      ensures m == n + Least(SizeOfDirent(entries[old(index)]), buf.Length - n)
      ensures buf[..] == Overlaid(old(buf[..]), n, Stored(entries[old(index)], old(offset)))
    {
      OffsetNext(listing, index);
      var e := entries[index];
      var wn := WriteDirent(buf, n, e, offset);
      m := n + wn;
      whole := wn >= SizeOfDirent(e);
      if whole {
        index := index + 1;
        offset := offset + wn;
      }
    }
  }

  /** `done` is the page from `start` on, up to entry `i` with some room left. */
  ghost predicate Written(done: bytes, es: seq<Entry>, start: nat, i: nat, left: nat, room: nat) {
    && start <= |es| && i <= |es|
    && done + Page(es, i, left) == Page(es, start, room) && PageEnd(es, i, left) == PageEnd(es, start, room)
  }

  lemma {:induction false} WrittenWhole(buf: bytes, buf': bytes, n: nat, es: seq<Entry>, start: nat, i: nat, room: nat)
    requires n < |buf| == room && i < |es| && Written(buf[..n], es, start, i, room - n, room) && SizeOfDirent(es[i]) <= room - n
    requires buf' == Overlaid(buf, n, Stored(es[i], OffsetOf(es, i)))
    ensures Written(buf'[..n + SizeOfDirent(es[i])], es, start, i + 1, room - n - SizeOfDirent(es[i]), room)
  {
    var s, size := Stored(es[i], OffsetOf(es, i)), SizeOfDirent(es[i]);
    OverlaidSlices(buf, n, s);
    assert s[..size] == s;
    assert buf'[..n + size] == buf[..n] + s;
    ConcatAssoc(buf[..n], s, Page(es, i + 1, room - n - size));
  }

  lemma {:induction false} WrittenCut(buf: bytes, buf': bytes, n: nat, es: seq<Entry>, start: nat, i: nat, room: nat)
    requires n < |buf| == room && i < |es| && Written(buf[..n], es, start, i, room - n, room) && SizeOfDirent(es[i]) > room - n
    requires buf' == Overlaid(buf, n, Stored(es[i], OffsetOf(es, i)))
    ensures buf' == Page(es, start, room) && PageEnd(es, start, room) == i
  {
    var s := Stored(es[i], OffsetOf(es, i));
    OverlaidSlices(buf, n, s);
    assert buf' == buf[..n] + s[..room - n];
  }
}

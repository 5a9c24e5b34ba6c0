/** Reading a log (internal/timemachine/log.go and record_batch.go): batch headers are read
    one after the other, the records of a batch only when they are asked for. */
module LogReader {
  import opened Basics
  import opened Bytes
  import opened LogFormat

  datatype Status = Ok | Eof | UnexpectedEof | TooLarge | BadChecksum | Undecodable | Panic | BadSeek

  /** How many of `n` bytes can be read at a position. */
  function Available(data: bytes, pos: nat, n: nat): (k: nat)
    ensures k <= n && (k > 0 ==> pos + k <= |data|)
  {
    if pos >= |data| then 0 else if pos + n <= |data| then n else |data| - pos
  }

  /** The bytes to read and where reading stopped. */
  class Input {
    const data: bytes
    var pos: nat

    constructor (data: bytes)
      ensures this.data == data && pos == 0
    {
      this.data, pos := data, 0;
    }

    /** Reads `n` bytes: at the end of the data there is nothing to read, and running into it
        is an error. */
    method ReadFull(n: nat) returns (b: bytes, st: Status)
      modifies this
      ensures pos == old(pos) + |b| && |b| == Available(data, old(pos), n)
      ensures |b| > 0 ==> b == data[old(pos)..pos]
      ensures st == if |b| == n then Ok else if |b| == 0 then Eof else UnexpectedEof
    {
      var k := Available(data, pos, n);
      b := if k == 0 then [] else data[pos..pos + k];
      pos := pos + k;
      st := if k == n then Ok else if k == 0 then Eof else UnexpectedEof;
    }

    method Seek(offset: nat)
      modifies this
      ensures pos == offset
    {
      pos := offset;
    }
  }

  /** A buffer of a given size after bytes were put at its front. */
  function Filled(b: bytes, size: nat): (r: bytes)
    ensures |r| == size && (|b| == size ==> r == b)
  {
    if |b| >= size then b[..size] else b + seq(size - |b|, _ => 0)
  }

  lemma {:induction false} EntryCut(s: bytes, o: nat, e: Entry)
    requires EntryFits(e) && o + 16 + |e.call| <= |s| && s[o..][..16 + |e.call|] == EntryBytes(e)
    ensures FromLE(s[o..o + 4]) == 12 + |e.call| && s[o + 4..o + 16 + |e.call|] == EntryBody(e)
  {
    Powers();
    var n := 12 + |e.call|;
    FromLEOfLE(n, 4);
    assert s[o..o + 4 + n] == LE(n, 4) + EntryBody(e);
    assert s[o..o + 4] == s[o..o + 4 + n][..4] == LE(n, 4);
    assert s[o + 4..o + 4 + n] == s[o..o + 4 + n][4..] == EntryBody(e);
  }

  class RecordBatch {
    const lib: Library
    const input: Input
    var limit: nat           // bytes of the batch still unread in the input
    var startTime: int
    var header: Header
    var offset: nat
    var index: nat
    var compressed: bytes
    var uncompressed: bytes
    ghost var compression: Compression
    ghost var content: Batch

    constructor (lib: Library, input: Input, start: int)
      ensures this.lib == lib && this.input == input && limit == 0 && header == NoHeader && uncompressed == [] && startTime == start
      ensures offset == 0 && index == 0
    {
      this.lib, this.input, limit, header, uncompressed, startTime, offset, index := lib, input, 0, NoHeader, [], start, 0, 0;
    }

    /** The records have not been asked for, and lie ahead in the input. */
    ghost predicate Unread(p: bytes) reads this, input {
      && uncompressed == [] && offset == 0 && index == 0 && limit == |p|
      && input.pos + limit <= |input.data| && input.data[input.pos..input.pos + limit] == p
    }

    /** The records are in memory, `index` of them read. */
    ghost predicate Loaded() reads this {
      && uncompressed == Section(content.entries) && limit == 0
      && index <= |content.entries| && offset == |Section(content.entries[..index])|
    }

    ghost predicate Readable() reads this {
      Lawful(lib) && compression <= ZSTD && BatchFits(lib, compression, content) && header == BatchHeader(lib, compression, content)
    }

    ghost predicate Valid() reads this, input { Readable() && (Unread(Payload(lib, compression, content.entries)) || Loaded()) }

    method Reset(start: int, frame: bytes)
      modifies this
      ensures startTime == start && offset == 0 && index == 0 && uncompressed == []
      ensures header == (if frame == [] then NoHeader else HeaderOf(frame)) && limit == header.compressedSize
    {
      if frame == [] {
        header, limit := NoHeader, 0;
      } else {
        header := HeaderOf(frame);
        limit := header.compressedSize;
      }
      startTime, offset, index, compressed, uncompressed := start, 0, 0, [], [];
    }

    /** Notes which batch lies ahead. */
    ghost method Adopt(c: Compression, b: Batch)
      requires Lawful(lib) && c <= ZSTD && BatchFits(lib, c, b) && header == BatchHeader(lib, c, b)
      requires Unread(Payload(lib, c, b.entries))
      modifies this`compression, this`content
      ensures Valid() && compression == c && content == b
    {
      compression, content := c, b;
    }

    /** Reads from the part of the input that belongs to the batch. */
    method Fetch(size: nat) returns (b: bytes, st: Status)
      modifies this`limit, input
      ensures |b| == Available(input.data, old(input.pos), if size < old(limit) then size else old(limit))
      ensures input.pos == old(input.pos) + |b| && limit == old(limit) - |b|
      ensures |b| > 0 ==> b == input.data[old(input.pos)..input.pos]
      ensures st == if |b| == size then Ok else if |b| == 0 then Eof else UnexpectedEof
    {
      b, st := input.ReadFull(if size < limit then size else limit);
      limit := limit - |b|;
      st := if |b| == size then Ok else if |b| == 0 then Eof else UnexpectedEof;
    }

    predicate Plain() reads this { header.compression == UNCOMPRESSED }

    /** The bytes to ask the input for. */
    function Wanted(): nat reads this { if Plain() then header.uncompressedSize else header.compressedSize }

    /** The records' bytes, read and decompressed the first time.  Bytes that do not have the
        header's checksum are refused, but those of a plain batch stay in the buffer, as does
        whatever a failed decompression left there. */
    method ReadRecords() returns (batch: bytes, st: Status)
      modifies this`limit, this`compressed, this`uncompressed, input
      ensures input.pos + limit == old(input.pos + limit)
      ensures old(uncompressed) != [] ==> st == Ok && batch == uncompressed == old(uncompressed) && limit == old(limit)
      ensures old(uncompressed) == [] ==>
        && input.pos - old(input.pos) == Available(input.data, old(input.pos), Least(Wanted(), old(limit)))
        && |uncompressed| == (if Plain() || st == Ok || st == Undecodable then header.uncompressedSize else 0)
        && (st == Ok || st == BadChecksum || st == Undecodable <==> input.pos == old(input.pos) + Wanted())
        && (st == Undecodable ==> !Plain())
        && (input.pos > old(input.pos) ==> input.pos <= |input.data| && Explains(input.data[old(input.pos)..input.pos], st))
        && (input.pos == old(input.pos) ==> Explains([], st))
        && (Plain() && input.pos > old(input.pos) ==> input.data[old(input.pos)..input.pos] <= uncompressed)
      ensures old(Valid()) ==> st == Ok && Loaded() && batch == uncompressed
    {
      if old(Valid()) { PayloadReads(lib, compression, content); }
      if |uncompressed| > 0 { return uncompressed, Ok; }
      var plain := header.compression == UNCOMPRESSED;
      var size := if plain then header.uncompressedSize else header.compressedSize;
      var data: bytes;
      data, st := Fetch(size);
      assert old(Valid()) ==> st == Ok && data == Payload(lib, compression, content.entries) && limit == 0;
      if plain { uncompressed := Filled(data, size); } else { compressed := Filled(data, size); }
      if st != Ok { return [], st; }
      if lib.checksum(data) != header.checksum { return [], BadChecksum; }
      if plain { return data, Ok; }
      var x := Decompress(lib, header.compression, data);
      uncompressed := Filled(if x.Some? then x.value else [], header.uncompressedSize);
      if x.None? { return [], Undecodable; }
      return x.value, Ok;
    }

    /** The bytes read explain a status that is not a read error. */
    ghost predicate Explains(data: bytes, st: Status) reads this {
      && (st == Ok || st == Undecodable ==> lib.checksum(data) == header.checksum)
      && (st == BadChecksum ==> lib.checksum(data) != header.checksum)
      && (st == Ok && !Plain() ==> Decompress(lib, header.compression, data).Some?)
      && (st == Undecodable ==> Decompress(lib, header.compression, data).None?)
    }

    /** After a failure the next call succeeds exactly when the buffer was left with something
        in it: a plain batch, or one that could not be decompressed, whose header promises
        bytes.  Of a plain batch it gives the very bytes that were refused. */
    method ReadTwice() returns (first: Status, second: Status, batch: bytes)
      requires uncompressed == [] && limit == header.compressedSize
      modifies this`limit, this`compressed, this`uncompressed, input
      ensures first != Ok ==> (second == Ok <==> header.uncompressedSize > 0 && (Plain() || first == Undecodable))
      ensures first != Ok && second == Ok ==> |batch| == header.uncompressedSize
      ensures first == BadChecksum && second == Ok ==>
        input.pos == old(input.pos) + |batch| <= |input.data| && batch == input.data[old(input.pos)..input.pos] && lib.checksum(batch) != header.checksum
    {
      batch, first := ReadRecords();
      batch, second := ReadRecords();
    }

    ghost predicate Ready(batch: bytes) reads this { Readable() && Loaded() && batch == uncompressed && |batch| < TWO32 }

    /** The record at the current offset, if there is one. */
    method ReadNext(batch: bytes) returns (record: Record, st: Status)
      requires Ready(batch)
      modifies this`offset, this`index
      ensures Ready(batch)
      ensures st == if old(index) == |content.entries| then Eof else Ok
      ensures st == Ok ==> record == RecordOf(startTime, content.first + old(index), content.entries[old(index)])
      ensures index == if st == Ok then old(index) + 1 else old(index)
    {
      CutReads(lib, compression, content, index);
      if index < |content.entries| { IndexFits(content.entries, index); }
      record := Record(0, 0, 0, []);
      match CutAt(batch, offset)
      case End => st := Eof;
      case Short => st := UnexpectedEof;
      case Outside => st := Panic;
      case Got(entry, next) =>
        record := RecordOf(startTime, header.firstOffset + index, entry);
        offset, index, st := next, U32(index + 1), Ok;
    }

    method Fill(batch: bytes, records: array<Record>) returns (n: nat, st: Status)
      requires Ready(batch)
      modifies this`offset, this`index, records
      ensures Ready(batch)
      ensures n == Least(records.Length, |content.entries| - old(index)) && index == old(index) + n
      ensures st == if n < records.Length then Eof else Ok
      ensures records[..n] == RecordsOf(startTime, content, old(index), n) && records[n..] == old(records[n..])
    {
      n, st := 0, Ok;
      while n < records.Length
        invariant n <= records.Length && st == Ok && Ready(batch) && index == old(index) + n
        invariant records[..n] == RecordsOf(startTime, content, old(index), n) && records[n..] == old(records[n..])
      {
        var record;
        record, st := ReadNext(batch);
        if st != Ok { break; }
        RecordsSnoc(startTime, content, old(index), n);
        records[n] := record;
        assert records[..n + 1] == records[..n] + [record];
        n := n + 1;
      }
    }

    /** Fills the caller's slots with the next records of the batch, as many as there are. */
    method Read(records: array<Record>) returns (n: nat, st: Status)
      requires Valid()
      modifies this, input, records
      ensures Valid() && content == old(content) && compression == old(compression) && startTime == old(startTime)
      ensures input.pos + limit == old(input.pos + limit)
      ensures n == Least(records.Length, |content.entries| - old(index)) && index == old(index) + n
      ensures st == if n < records.Length then Eof else Ok
      ensures records[..n] == RecordsOf(startTime, content, old(index), n) && records[n..] == old(records[n..])
    {
      var batch;
      batch, st := ReadRecords();
      n := 0;
      if st == Ok { n, st := Fill(batch, records); }
    }
  }

  /** What lies at an offset of the records: their end, a record, or not enough bytes. */
  datatype Cut = End | Short | Outside | Got(entry: Entry, next: nat)

  function CutAt(batch: bytes, offset: nat): Cut {
    var n := U32(|batch|);
    if offset == n then End
    else if U32(offset + 4) > n then Short
    else if offset + 4 > |batch| then Outside
    else
      var size := FromLE(batch[offset..offset + 4]);
      if U32(offset + size) < offset || U32(offset + size) > n then Short
      else
        var i, j := U32(4 + offset), U32(4 + offset + size);
        if i <= j <= |batch| then Got(EntryOf(batch[i..j]), U32(offset + size + 4)) else Outside
  }

  /** The 32-bit sums decide as unbounded ones would, for whatever bytes: a size that exceeds what is
      left, its own four bytes included, is refused, and one that only reaches into these is not. */
  lemma {:induction false} CutIs(batch: bytes, offset: nat)
    requires offset + 4 < TWO32 && |batch| + 4 < TWO32
    ensures var left := |batch| - offset;
      CutAt(batch, offset) ==
        if left == 0 then End
        else if left < 4 then Short
        else
          var size := FromLE(batch[offset..offset + 4]);
          if size > left then Short
          else if size + 4 > left then Outside
          else Got(EntryOf(batch[offset + 4..][..size]), offset + 4 + size)
  {
    U32Small(|batch|);
    U32Small(offset + 4);
    if |batch| - offset >= 4 {
      var size := FromLE(batch[offset..offset + 4]);
      LEOfFromLE(batch[offset..offset + 4]);
      Powers();
      if size <= |batch| - offset {
        U32Small(offset + size);
        U32Small(offset + size + 4);
        if size + 4 <= |batch| - offset { assert batch[offset + 4..][..size] == batch[offset + 4..offset + 4 + size]; }
      }
    }
  }

  lemma {:induction false} CutAtEntry(s: bytes, o: nat, e: Entry)
    requires EntryFits(e) && o + 16 + |e.call| <= |s| < TWO32 && s[o..][..16 + |e.call|] == EntryBytes(e)
    ensures CutAt(s, o) == Got(e, o + 16 + |e.call|)
  {
    var n := 12 + |e.call|;
    U32Small(|s|);
    U32Small(o + 4);
    U32Small(o + n);
    U32Small(4 + o + n);
    EntryRoundTrip(e);
    EntryCut(s, o, e);
  }

  lemma {:induction false} CutAtEnd(s: bytes)
    requires |s| < TWO32
    ensures CutAt(s, |s|) == End
  {
    U32Small(|s|);
  }

  lemma {:induction false} CutInside(es: seq<Entry>, i: nat)
    requires i < |es| && EntryFits(es[i]) && |Section(es)| < TWO32
    ensures CutAt(Section(es), |Section(es[..i])|) == Got(es[i], |Section(es[..i + 1])|)
  {
    FlatMapAt(EntryBytes, es, i);
    CutAtEntry(Section(es), |Section(es[..i])|, es[i]);
  }

  lemma {:induction false} IndexFits(es: seq<Entry>, i: nat)
    requires |Section(es)| < TWO32 && i < |es|
    ensures U32(i + 1) == i + 1
  {
    SectionLength(es);
    U32Small(i + 1);
  }

  /** Records are cut from their section one by one, and then it ends. */
  lemma {:induction false} CutReads(lib: Library, c: Compression, b: Batch, i: nat)
    requires Lawful(lib) && c <= ZSTD && BatchFits(lib, c, b) && i <= |b.entries|
    ensures var es := b.entries;
      CutAt(Section(es), |Section(es[..i])|) == if i == |es| then End else Got(es[i], |Section(es[..i + 1])|)
  {
    if i == |b.entries| {
      assert b.entries[..i] == b.entries;
      CutAtEnd(Section(b.entries));
    } else {
      assert b.entries[i] in b.entries;
      CutInside(b.entries, i);
    }
  }

  /** `n` records of a batch from its record `j` on. */
  function RecordsOf(start: int, b: Batch, j: nat, n: nat): (rs: seq<Record>)
    requires j + n <= |b.entries|
    ensures |rs| == n
  {
    seq(n, k requires 0 <= k < n => RecordOf(start, b.first + j + k, b.entries[j + k]))
  }

  lemma {:induction false} RecordsSnoc(start: int, b: Batch, j: nat, n: nat)
    requires j + n < |b.entries|
    ensures RecordsOf(start, b, j, n + 1) == RecordsOf(start, b, j, n) + [RecordOf(start, b.first + (j + n), b.entries[j + n])]
  {
  }

  /** What the header says of a batch that fits is enough to read its records back. */
  lemma {:induction false} PayloadReads(lib: Library, c: Compression, b: Batch)
    requires Lawful(lib) && c <= ZSTD && BatchFits(lib, c, b)
    ensures var h, payload, section := BatchHeader(lib, c, b), Payload(lib, c, b.entries), Section(b.entries);
      && h.compressedSize == |payload| && h.uncompressedSize == |section| > 0 && h.checksum == lib.checksum(payload)
      && h.compression == c && (c == UNCOMPRESSED ==> payload == section)
      && (c != UNCOMPRESSED ==> Decompress(lib, c, payload) == Some(section))
      && Section(b.entries[..0]) == []
  {
    SectionLength(b.entries);
  }

  // ----- frames

  const MAX_FRAME_SIZE: nat := 128 * 1024 - 4
  const FRAME_BUFFER: nat := 256

  /** What reading a frame at a position gives, and how many bytes it consumes. */
  function FrameAt(data: bytes, pos: nat): (r: (Status, nat))
    ensures r.0 == Ok ==> pos + r.1 <= |data| && r.1 >= 4
  {
    var got := Available(data, pos, 4);
    if got < 4 then (if got == 0 then Eof else UnexpectedEof, got)
    else
      var size := FromLE(data[pos..pos + 4]);
      if size > MAX_FRAME_SIZE then (TooLarge, 4)
      else if size == 0 then (Ok, 4)
      else if 4 + size > FRAME_BUFFER then (Panic, 4)
      else
        var more := Available(data, pos + 4, size);
        (if more == size then Ok else UnexpectedEof, 4 + more)
  }

  /** Which frames are refused for the size that they announce, and which are read. */
  lemma {:induction false} FrameSizes(data: bytes, pos: nat)
    requires pos + 4 <= |data|
    ensures var size, r := FromLE(data[pos..pos + 4]), FrameAt(data, pos);
      && (r.0 == TooLarge <==> size > 131068)
      && (r.0 == Panic <==> 252 < size <= 131068)
      && (r.0 == Ok <==> size <= 252 && pos + 4 + size <= |data|)
      && (r.0 == Ok ==> r.1 == 4 + size)
  {
  }

  method ReadFrame(input: Input) returns (frame: bytes, st: Status)
    modifies input
    ensures (st, input.pos - old(input.pos)) == FrameAt(input.data, old(input.pos))
    ensures frame == if st == Ok then input.data[old(input.pos)..input.pos] else []
  {
    var prefix;
    prefix, st := input.ReadFull(4);
    if st != Ok { return [], st; }
    var size := FromLE(prefix);
    if size > MAX_FRAME_SIZE { return [], TooLarge; }
    if 4 + size <= 4 { return prefix, Ok; }
    if 4 + size > FRAME_BUFFER { return [], Panic; }
    var body;
    body, st := input.ReadFull(size);
    if st != Ok { return [], UnexpectedEof; }
    frame := prefix + body;
  }

  lemma {:induction false} FrameReads(data: bytes, pos: nat, h: Header)
    requires HeaderFits(h) && pos + 4 + HEADER_SIZE <= |data| && data[pos..pos + 4 + HEADER_SIZE] == Frame(h)
    ensures FrameAt(data, pos) == (Ok, 4 + HEADER_SIZE)
  {
    Powers();
    FrameLength(h);
    FromLEOfLE(HEADER_SIZE, 4);
    assert data[pos..pos + 4] == Frame(h)[..4] == LE(HEADER_SIZE, 4);
  }

  // ----- a whole log

  ghost predicate FitsAt(lib: Library, c: Compression, bs: seq<Batch>, i: nat)
    requires i < |bs|
  {
    BatchFits(lib, c, bs[i])
  }

  ghost predicate LogFits(lib: Library, c: Compression, bs: seq<Batch>) {
    Lawful(lib) && c <= ZSTD && Chained(bs) && forall i: nat :: i < |bs| ==> FitsAt(lib, c, bs, i)
  }

  function NextOffset(b: Batch): nat { b.first + |b.entries| }

  /** Where the frame of batch `i` starts. */
  ghost function Start(lib: Library, c: Compression, bs: seq<Batch>, i: nat): nat
    requires i <= |bs|
  {
    |LogBytes(lib, c, bs[..i])|
  }

  ghost predicate StartsAt(lib: Library, c: Compression, bs: seq<Batch>, starts: seq<nat>, i: nat) {
    i <= |bs| && i < |starts| && starts[i] == Start(lib, c, bs, i)
  }

  ghost predicate AllStarts(lib: Library, c: Compression, bs: seq<Batch>, starts: seq<nat>) {
    |starts| == |bs| + 1 && forall i: nat :: i <= |bs| ==> StartsAt(lib, c, bs, starts, i)
  }

  lemma {:induction false} FindStarts(lib: Library, c: Compression, bs: seq<Batch>) returns (r: seq<nat>)
    ensures AllStarts(lib, c, bs, r) && r[0] == 0
  {
    r := seq(|bs| + 1, i requires 0 <= i <= |bs| => Start(lib, c, bs, i));
    LogStart(lib, c, bs);
  }

  lemma {:induction false} SplitSlice<T>(s: seq<T>, o: nat, a: seq<T>, b: seq<T>)
    requires o + |a| + |b| <= |s| && s[o..][..|a + b|] == a + b
    ensures s[o..o + |a|] == a && s[o + |a|..o + |a| + |b|] == b
  {
    assert s[o..o + |a|] == s[o..][..|a + b|][..|a|];
    assert s[o + |a|..o + |a| + |b|] == s[o..][..|a + b|][|a|..];
  }

  /** A frame at a position and records right after it. */
  ghost predicate Placed(data: bytes, o: nat, h: Header, p: bytes) {
    var f := o + 4 + HEADER_SIZE;
    HeaderFits(h) && h.compressedSize == |p| && f + |p| <= |data| && data[o..f] == Frame(h) && data[f..f + |p|] == p
  }

  lemma {:induction false} PlacedReads(data: bytes, o: nat, h: Header, p: bytes)
    requires Placed(data, o, h, p)
    ensures FrameAt(data, o) == (Ok, 4 + HEADER_SIZE) && HeaderOf(data[o..o + 4 + HEADER_SIZE]) == h
  {
    FrameReads(data, o, h);
    HeaderRoundTrip(h);
  }

  /** A batch stored at a position. */
  ghost predicate Stored(lib: Library, c: Compression, data: bytes, o: nat, b: Batch) {
    && Lawful(lib) && c <= ZSTD && BatchFits(lib, c, b)
    && Placed(data, o, BatchHeader(lib, c, b), Payload(lib, c, b.entries))
  }

  function BatchLength(lib: Library, c: Compression, b: Batch): nat { 4 + HEADER_SIZE + |Payload(lib, c, b.entries)| }

  lemma {:induction false} PlacedParts(data: bytes, o: nat, h: Header, p: bytes)
    requires HeaderFits(h) && h.compressedSize == |p|
    requires o + |Frame(h) + p| <= |data| && data[o..][..|Frame(h) + p|] == Frame(h) + p
    ensures Placed(data, o, h, p)
  {
    FrameLength(h);
    SplitSlice(data, o, Frame(h), p);
  }

  lemma {:induction false} StoredIn(lib: Library, c: Compression, data: bytes, o: nat, b: Batch)
    requires Lawful(lib) && c <= ZSTD && BatchFits(lib, c, b)
    requires o + |BatchBytes(lib, c, b)| <= |data| && data[o..][..|BatchBytes(lib, c, b)|] == BatchBytes(lib, c, b)
    ensures Stored(lib, c, data, o, b)
  {
    BatchHeaderFits(lib, c, b);
    PlacedParts(data, o, BatchHeader(lib, c, b), Payload(lib, c, b.entries));
  }

  lemma {:induction false} BatchIn(lib: Library, c: Compression, bs: seq<Batch>, i: nat)
    requires LogFits(lib, c, bs) && i < |bs|
    ensures var o := Start(lib, c, bs, i);
      Stored(lib, c, LogBytes(lib, c, bs), o, bs[i]) && Start(lib, c, bs, i + 1) == o + BatchLength(lib, c, bs[i])
  {
    assert FitsAt(lib, c, bs, i);
    FrameLength(BatchHeader(lib, c, bs[i]));
    FlatMapAt(BatchCoder(lib, c), bs, i);
    StoredIn(lib, c, LogBytes(lib, c, bs), Start(lib, c, bs, i), bs[i]);
  }

  lemma {:induction false} LogStart(lib: Library, c: Compression, bs: seq<Batch>)
    ensures Start(lib, c, bs, 0) == 0
  {
    assert bs[..0] == [];
  }

  lemma {:induction false} LogEnd(lib: Library, c: Compression, bs: seq<Batch>)
    ensures Start(lib, c, bs, |bs|) == |LogBytes(lib, c, bs)| && FrameAt(LogBytes(lib, c, bs), |LogBytes(lib, c, bs)|) == (Eof, 0)
  {
    assert bs[..|bs|] == bs;
  }

  /** The first batch from `from` on whose next offset is not before `target`, if any. */
  function FirstReaching(bs: seq<Batch>, from: nat, target: int): (i: nat)
    requires from <= |bs|
    ensures from <= i <= |bs| && (i < |bs| ==> NextOffset(bs[i]) >= target)
    ensures forall j :: from <= j < i ==> NextOffset(bs[j]) < target
    decreases |bs| - from
  {
    if from == |bs| || NextOffset(bs[from]) >= target then from else FirstReaching(bs, from + 1, target)
  }

  /** The place a seek from batch `i` starts to look at. */
  function SeekFrom(bs: seq<Batch>, i: nat, target: int): nat
    requires i <= |bs|
  {
    if i > 0 && target < NextOffset(bs[i - 1]) then 0 else i
  }

  datatype Whence = SeekStart | SeekCurrent | SeekEnd | OtherWhence

  /** The offset a seek asks for, if that is not an error. */
  function SeekTarget(current: int, seek: int, whence: Whence): Option<int> {
    if whence == OtherWhence then None
    else
      var offset := match whence case SeekStart => seek case SeekCurrent => current + seek case _ => TWO63 - 1 - seek;
      if offset < 0 then None else if offset > TWO63 - 1 then Some(TWO63 - 1) else Some(offset)
  }

  /** Seeking from the start goes to that offset; from the current one, as far on or back; from the
      end, as far back from the largest offset there is.  Only offsets before the start are
      refused, and those past the largest one lead there. */
  lemma {:induction false} SeekTargets(current: int, n: int, d: int)
    requires 0 <= current < TWO63 && 0 <= n < TWO63
    ensures SeekTarget(current, n, SeekStart) == Some(n)
    ensures SeekTarget(n, d, SeekCurrent) == SeekTarget(current, n + d, SeekStart)
    ensures SeekTarget(current, 0, SeekEnd) == Some(TWO63 - 1) && SeekTarget(current, d, SeekEnd) == SeekTarget(TWO63 - 1, -d, SeekCurrent)
    ensures SeekTarget(current, d, SeekStart).None? <==> d < 0
    ensures d >= TWO63 ==> SeekTarget(current, d, SeekStart) == Some(TWO63 - 1)
    ensures SeekTarget(current, d, OtherWhence).None?
  {
  }

  class LogReader {
    const lib: Library
    const input: Input
    const startTime: int
    const batch: RecordBatch
    var nextByteOffset: nat
    var nextRecordOffset: int
    ghost const compression: Compression
    ghost const batches: seq<Batch>
    ghost const starts: seq<nat>   // where the frame of each batch starts, and where the log ends
    ghost var next: nat       // batches passed
    ghost var current: bool   // the last of them may be read

    ghost predicate Sound() {
      && LogFits(lib, compression, batches) && input.data == LogBytes(lib, compression, batches) && batch.input == input && batch.lib == lib
      && AllStarts(lib, compression, batches, starts)
    }

    ghost predicate Positioned() reads this`next, this`nextByteOffset {
      Sound() && next <= |batches| && nextByteOffset == starts[next]
    }

    ghost predicate Opened() reads this`next, batch, input {
      && batch.input == input && batch.Valid()
      && 0 < next <= |batches| && batch.content == batches[next - 1]
      && batch.compression == compression && batch.startTime == startTime
    }

    ghost predicate Between() reads this`next, this`nextByteOffset, batch, input {
      && Positioned() && input.pos + batch.limit == nextByteOffset
      && NextAfter(batch.header) == (if next == 0 then 0 else NextOffset(batches[next - 1]))
    }

    ghost predicate Valid() reads this, batch, input { Between() && (current ==> Opened()) }

    constructor (lib: Library, ghost c: Compression, ghost bs: seq<Batch>, data: bytes, start: int)
      requires LogFits(lib, c, bs) && data == LogBytes(lib, c, bs)
      ensures Between() && fresh(input) && fresh(batch) && next == 0 && !current && nextRecordOffset == 0
      ensures batches == bs && compression == c && this.lib == lib && startTime == start
    {
      this.lib, startTime, compression, batches := lib, start, c, bs;
      ghost var found := FindStarts(lib, c, bs);
      starts := found;
      var source := new Input(data);
      input := source;
      batch := new RecordBatch(lib, source, start);
      nextByteOffset, nextRecordOffset, next, current := 0, 0, 0, false;
    }

    method ReadFrameOf(ghost there: bool, ghost h: Header, ghost p: bytes) returns (frame: bytes, st: Status)
      requires if there then Placed(input.data, input.pos, h, p) else FrameAt(input.data, input.pos) == (Eof, 0)
      modifies input
      ensures st == if there then Ok else Eof
      ensures input.pos == old(input.pos) + if there then 4 + HEADER_SIZE else 0
      ensures there ==> |frame| == 4 + HEADER_SIZE && HeaderOf(frame) == h
    {
      ghost var o := input.pos;
      frame, st := ReadFrame(input);
      if there { PlacedReads(input.data, o, h, p); }
      assert (st, input.pos - o) == if there then (Ok, 4 + HEADER_SIZE) else (Eof, 0);
    }

    /** Reads the frame at `nextByteOffset`, whatever was read of the records before it. */
    method NextFrame(ghost there: bool, ghost h: Header, ghost p: bytes) returns (st: Status)
      requires batch.input == input && input.pos + batch.limit == nextByteOffset
      requires if there then Placed(input.data, nextByteOffset, h, p) else FrameAt(input.data, nextByteOffset) == (Eof, 0)
      modifies this`nextByteOffset, batch, input
      ensures st == if there then Ok else Eof
      ensures input.pos + batch.limit == nextByteOffset == old(nextByteOffset) + if there then 4 + HEADER_SIZE + |p| else 0
      ensures st == Eof ==> batch.header == old(batch.header)
      ensures st == Ok ==> batch.header == h && batch.startTime == startTime && batch.Unread(p)
    {
      if batch.limit > 0 {
        input.Seek(nextByteOffset);
        batch.limit := 0;
      }
      var frame;
      frame, st := ReadFrameOf(there, h, p);
      if st == Ok {
        batch.Reset(startTime, frame);
        nextByteOffset := nextByteOffset + |frame|;
        nextByteOffset := nextByteOffset + batch.header.compressedSize;
      }
    }

    method Enter(ghost there: bool, ghost c: Compression, ghost b: Batch) returns (st: Status)
      requires batch.input == input && batch.lib == lib && input.pos + batch.limit == nextByteOffset
      requires if there then Stored(lib, c, input.data, nextByteOffset, b) else FrameAt(input.data, nextByteOffset) == (Eof, 0)
      modifies this`nextByteOffset, batch, input
      ensures st == if there then Ok else Eof
      ensures input.pos + batch.limit == nextByteOffset == old(nextByteOffset) + if there then BatchLength(lib, c, b) else 0
      ensures st == Eof ==> batch.header == old(batch.header)
      ensures st == Ok ==> batch.Valid() && batch.content == b && batch.compression == c && batch.startTime == startTime && batch.index == 0
      ensures st == Ok ==> NextAfter(batch.header) == NextOffset(b)
    {
      if there { BatchHeaderFits(lib, c, b); }
      st := NextFrame(there, BatchHeader(lib, c, b), Payload(lib, c, b.entries));
      if st == Ok { batch.Adopt(c, b); }
    }

    /** Reads the frame of the batch that comes next in the log. */
    method EnterNext(ghost i: nat) returns (st: Status)
      requires Sound() && i <= |batches| && nextByteOffset == starts[i]
      requires input.pos + batch.limit == nextByteOffset
      modifies this`nextByteOffset, batch, input
      ensures st == if i < |batches| then Ok else Eof
      ensures input.pos + batch.limit == nextByteOffset
      ensures st == Eof ==> batch.header == old(batch.header) && nextByteOffset == old(nextByteOffset)
      ensures st == Ok ==> nextByteOffset == starts[i + 1]
      ensures st == Ok ==> batch.Valid() && batch.content == batches[i] && batch.compression == compression && batch.startTime == startTime && batch.index == 0
      ensures st == Ok ==> NextAfter(batch.header) == NextOffset(batches[i])
    {
      ghost var b := Ahead(lib, compression, batches, i);
      assert StartsAt(lib, compression, batches, starts, i) && (i < |batches| ==> StartsAt(lib, compression, batches, starts, i + 1));
      st := Enter(i < |batches|, compression, b);
    }

    /** Moves to the next batch. */
    method Advance() returns (st: Status)
      requires Between()
      modifies this`nextByteOffset, this`next, this`current, batch, input
      ensures Between() && current == (st == Ok) && (st == Ok ==> Opened())
      ensures st == if old(next) < |batches| then Ok else Eof
      ensures next == if st == Ok then old(next) + 1 else old(next)
      ensures st == Ok ==> batch.index == 0 && NextAfter(batch.header) == NextOffset(batches[old(next)])
    {
      ghost var i := next;
      current := i < |batches|;
      next := if current then i + 1 else i;
      st := EnterNext(i);
    }

    /** Passes over batches until one whose next offset is not before `nextRecordOffset`. */
    method Reach() returns (st: Status)
      requires Between()
      modifies this`nextByteOffset, this`next, this`current, batch, input
      ensures Between() && current == (st == Ok) && (st == Ok ==> Opened())
      ensures var i := FirstReaching(batches, old(next), nextRecordOffset);
        if i < |batches| then st == Ok && next == i + 1 && batch.index == 0 else st == Eof && next == i
    {
      ghost var goal := FirstReaching(batches, next, nextRecordOffset);
      while true
        invariant Between()
        invariant FirstReaching(batches, next, nextRecordOffset) == goal
        decreases |batches| - next
      {
        st := Advance();
        if st != Ok || NextAfter(batch.header) >= nextRecordOffset { return; }
      }
    }

    /** The next batch whose next offset is not before `nextRecordOffset`. */
    method ReadRecordBatch() returns (st: Status)
      requires Between()
      modifies this, batch, input
      ensures Between() && current == (st == Ok) && (st == Ok ==> Opened())
      ensures var i := FirstReaching(batches, old(next), old(nextRecordOffset));
        if i < |batches| then st == Ok && next == i + 1 && nextRecordOffset == NextOffset(batches[i]) && batch.index == 0
        else st == Eof && next == i && nextRecordOffset == old(nextRecordOffset)
    {
      st := Reach();
      if st == Ok { nextRecordOffset := NextAfter(batch.header); }
    }

    /** Goes back to the start of the log. */
    method Rewind()
      requires Sound()
      modifies this`nextByteOffset, this`next, this`current, batch, input
      ensures Between() && next == 0 && !current
    {
      LogStart(lib, compression, batches);
      assert StartsAt(lib, compression, batches, starts, 0);
      input.Seek(0);
      batch.Reset(startTime, []);
      nextByteOffset := 0;
      next, current := 0, false;
    }

    /** Goes to a record offset: back to the start of the log when it lies before the end of
        the last batch read. */
    method Seek(offset: int, whence: Whence) returns (r: int, st: Status)
      requires Valid()
      modifies this, batch, input
      ensures Between() && (old(current) && next == old(next) && next != 0 ==> Valid()) && (next == 0 ==> !current)
      ensures match SeekTarget(old(nextRecordOffset), offset, whence)
        case None => r == -1 && st == BadSeek && next == old(next) && nextRecordOffset == old(nextRecordOffset)
        case Some(target) => r == target == nextRecordOffset && st == Ok && next == SeekFrom(batches, old(next), target)
    {
      var target := SeekTarget(nextRecordOffset, offset, whence);
      if target.None? { return -1, BadSeek; }
      if target.value < NextAfter(batch.header) {
        Rewind();
      }
      nextRecordOffset := target.value;
      return target.value, Ok;
    }
  }

  lemma {:induction false} Ahead(lib: Library, c: Compression, bs: seq<Batch>, i: nat) returns (b: Batch)
    requires LogFits(lib, c, bs) && i <= |bs|
    ensures var o := Start(lib, c, bs, i);
      if i < |bs| then b == bs[i] && Stored(lib, c, LogBytes(lib, c, bs), o, b) && Start(lib, c, bs, i + 1) == o + BatchLength(lib, c, b)
      else FrameAt(LogBytes(lib, c, bs), o) == (Eof, 0)
  {
    if i < |bs| {
      BatchIn(lib, c, bs, i);
      b := bs[i];
    } else {
      LogEnd(lib, c, bs);
      b := Batch(0, []);
    }
  }
}

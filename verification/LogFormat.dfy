/** The format of a time machine log: record batches, each a size-prefixed header frame
    followed by the records, possibly compressed (internal/timemachine/record_batch.go and
    record.go).  Header and record tables have a fixed layout here. */
module LogFormat {
  import opened Basics
  import opened Bytes

  type Compression = nat
  const UNCOMPRESSED: Compression := 0
  const SNAPPY: Compression := 1
  const ZSTD: Compression := 2

  /** Code from other libraries: the two compressors and the checksum. */
  datatype Library = Library(
    pack: (Compression, bytes) -> bytes,
    unpack: (Compression, bytes) -> Option<bytes>,
    checksum: bytes -> nat)

  ghost predicate Lawful(lib: Library) {
    && (forall c, x :: lib.unpack(c, lib.pack(c, x)) == Some(x))
    && (forall x :: lib.checksum(x) < TWO32)
  }

  function Compress(lib: Library, c: Compression, x: bytes): bytes {
    if c == SNAPPY || c == ZSTD then lib.pack(c, x) else x
  }

  function Decompress(lib: Library, c: Compression, x: bytes): Option<bytes> {
    if c == SNAPPY || c == ZSTD then lib.unpack(c, x) else None
  }

  // ----- records

  /** A record as it is stored: time relative to the start, 32-bit function id. */
  datatype Entry = Entry(timestamp: int, functionId: nat, call: bytes)

  predicate EntryFits(e: Entry) { -TWO63 <= e.timestamp < TWO63 && e.functionId < TWO32 && 12 + |e.call| < TWO32 }

  function EntryBody(e: Entry): bytes { LE(U64(e.timestamp), 8) + (LE(e.functionId, 4) + e.call) }

  function EntryBytes(e: Entry): (s: bytes)
    ensures |s| == 16 + |e.call|
  {
    LE(12 + |e.call|, 4) + EntryBody(e)
  }

  function EntryOf(body: bytes): Entry {
    var (timestamp, s1) := TakeLE(body, 8);
    var (functionId, call) := TakeLE(s1, 4);
    Entry(S64(timestamp), functionId, call)
  }

  lemma {:induction false} EntryRoundTrip(e: Entry)
    requires EntryFits(e)
    ensures EntryOf(EntryBody(e)) == e
  {
    Powers();
    SignedUnsigned(e.timestamp);
    TakeLEOfLE(U64(e.timestamp), 8, LE(e.functionId, 4) + e.call);
    TakeLEOfLE(e.functionId, 4, e.call);
  }

  /** The records of a batch before compression. */
  function Section(es: seq<Entry>): bytes { FlatMap(EntryBytes, es) }

  lemma {:induction false} SectionLength(es: seq<Entry>)
    ensures |Section(es)| >= 16 * |es|
  {
    if es != [] { SectionLength(es[..|es| - 1]); }
  }

  // ----- batches

  datatype Header = Header(
    firstOffset: int, firstTimestamp: int, lastTimestamp: int,
    compressedSize: nat, uncompressedSize: nat, checksum: nat, numRecords: nat, compression: Compression)

  const NoHeader := Header(0, 0, 0, 0, 0, 0, 0, UNCOMPRESSED)

  /** The offset after the last record of a batch. */
  function NextAfter(h: Header): int { h.firstOffset + h.numRecords }

  const HEADER_SIZE: nat := 44

  predicate HeaderFits(h: Header) {
    && -TWO63 <= h.firstOffset < TWO63 && -TWO63 <= h.firstTimestamp < TWO63 && -TWO63 <= h.lastTimestamp < TWO63
    && h.compressedSize < TWO32 && h.uncompressedSize < TWO32 && h.checksum < TWO32 && h.numRecords < TWO32 && h.compression < TWO32
  }

  const HEADER_WIDTHS: seq<nat> := [8, 8, 8, 4, 4, 4, 4, 4]

  function HeaderValues(h: Header): seq<nat> {
    [U64(h.firstOffset), U64(h.firstTimestamp), U64(h.lastTimestamp),
     h.compressedSize, h.uncompressedSize, h.checksum, h.numRecords, h.compression]
  }

  function Frame(h: Header): bytes { LE(HEADER_SIZE, 4) + Pack(HeaderValues(h), HEADER_WIDTHS) }

  lemma {:induction false} FrameLength(h: Header)
    ensures |Frame(h)| == 4 + HEADER_SIZE
  {
    PackLength(HeaderValues(h), HEADER_WIDTHS);
    assert Sum([4, 4, 4, 4, 4]) == 20 by {
      assert Sum([4, 4, 4]) == 12 by { assert Sum([4]) == 4; assert [4, 4, 4][1..][1..] == [4]; }
      assert [4, 4, 4, 4, 4][1..][1..] == [4, 4, 4];
    }
    assert HEADER_WIDTHS[1..][1..][1..] == [4, 4, 4, 4, 4];
    assert Sum(HEADER_WIDTHS) == 8 + Sum(HEADER_WIDTHS[1..]) == 16 + Sum(HEADER_WIDTHS[1..][1..]);
  }

  function HeaderOf(frame: bytes): Header {
    var v := Unpack(TakeLE(frame, 4).1, HEADER_WIDTHS);
    Header(S64(v[0]), S64(v[1]), S64(v[2]), v[3], v[4], v[5], v[6], v[7])
  }

  lemma {:induction false} HeaderRoundTrip(h: Header)
    requires HeaderFits(h)
    ensures HeaderOf(Frame(h)) == h
  {
    Powers();
    TakeLEOfLE(HEADER_SIZE, 4, Pack(HeaderValues(h), HEADER_WIDTHS));
    UnpackOfPack(HeaderValues(h), HEADER_WIDTHS);
    SignedUnsigned(h.firstOffset);
    SignedUnsigned(h.firstTimestamp);
    SignedUnsigned(h.lastTimestamp);
  }

  /** A batch: the offset of its first record, and its records. */
  datatype Batch = Batch(first: nat, entries: seq<Entry>)

  function Payload(lib: Library, c: Compression, es: seq<Entry>): bytes { Compress(lib, c, Section(es)) }

  function FirstTime(es: seq<Entry>): int { if es == [] then 0 else es[0].timestamp }

  function LastTime(es: seq<Entry>): int { if es == [] then 0 else es[|es| - 1].timestamp }

  /** The frame keeps the low 32 bits of the sizes. */
  function BatchHeader(lib: Library, c: Compression, b: Batch): Header {
    var payload := Payload(lib, c, b.entries);
    Header(b.first, FirstTime(b.entries), LastTime(b.entries),
      |payload|, |Section(b.entries)|, lib.checksum(payload), |b.entries|, c)
  }

  /** What the header of a batch tells of its records. */
  lemma {:induction false} HeaderTells(lib: Library, c: Compression, b: Batch)
    requires b.entries != []
    ensures var h, last := BatchHeader(lib, c, b), b.entries[|b.entries| - 1];
      && h.firstOffset == b.first && NextAfter(h) == b.first + |b.entries| && h.compression == c
      && h.firstTimestamp == b.entries[0].timestamp && h.lastTimestamp == last.timestamp
      && h.uncompressedSize == |Section(b.entries)| && h.compressedSize == |Payload(lib, c, b.entries)|
      && h.checksum == lib.checksum(Payload(lib, c, b.entries))
  {
  }

  function BatchBytes(lib: Library, c: Compression, b: Batch): bytes {
    Frame(BatchHeader(lib, c, b)) + Payload(lib, c, b.entries)
  }

  function BatchCoder(lib: Library, c: Compression): Batch -> bytes { b => BatchBytes(lib, c, b) }

  /** The batches of a log: their frames and records one after the other. */
  function LogBytes(lib: Library, c: Compression, bs: seq<Batch>): bytes { FlatMap(BatchCoder(lib, c), bs) }

  // ----- records with absolute times and offsets

  datatype Record = Record(offset: int, time: int, functionId: int, call: bytes)

  function RecordOf(start: int, offset: int, e: Entry): Record {
    Record(offset, start + e.timestamp, e.functionId, e.call)
  }

  /** The records a log stands for. */
  function Records(start: int, es: seq<Entry>): (rs: seq<Record>)
    ensures |rs| == |es|
  {
    seq(|es|, i requires 0 <= i < |es| => RecordOf(start, i, es[i]))
  }

  function EntriesOf(b: Batch): seq<Entry> { b.entries }

  function Entries(bs: seq<Batch>): seq<Entry> { FlatMap(EntriesOf, bs) }

  /** Batches whose offsets follow each other from zero. */
  ghost predicate Chained(bs: seq<Batch>) { forall i: nat :: i < |bs| ==> ChainedAt(bs, i) }

  ghost predicate ChainedAt(bs: seq<Batch>, i: nat)
    requires i < |bs|
  {
    bs[i].entries != [] && bs[i].first == |Entries(bs[..i])|
  }

  lemma {:induction false} ChainedSnoc(bs: seq<Batch>, b: Batch)
    requires Chained(bs) && b.entries != [] && b.first == |Entries(bs)|
    ensures Chained(bs + [b])
  {
    var cs := bs + [b];
    forall i: nat | i < |cs| ensures ChainedAt(cs, i) {
      if i < |bs| { assert cs[..i] == bs[..i] && ChainedAt(bs, i); } else { assert cs[..i] == bs; }
    }
  }

  lemma {:induction false} SlicePoint<T>(s: seq<T>, i: nat, part: seq<T>, j: nat)
    requires i + |part| <= |s| && s[i..][..|part|] == part && j < |part|
    ensures s[i + j] == part[j]
  {
    assert s[i..][..|part|][j] == part[j];
  }

  /** Entry `j` of batch `i` is the entry of the log at that batch's first offset plus `j`. */
  lemma {:induction false} EntryAt(bs: seq<Batch>, i: nat, j: nat)
    requires Chained(bs) && i < |bs| && j < |bs[i].entries|
    ensures bs[i].first + j < |Entries(bs)| && Entries(bs)[bs[i].first + j] == bs[i].entries[j]
  {
    assert ChainedAt(bs, i);
    FlatMapAt(EntriesOf, bs, i);
    SlicePoint(Entries(bs), |Entries(bs[..i])|, bs[i].entries, j);
  }

  /** A batch whose sizes the header's 32-bit fields can hold. */
  ghost predicate BatchFits(lib: Library, c: Compression, b: Batch) {
    && b.entries != [] && b.first < TWO63
    && (forall e :: e in b.entries ==> EntryFits(e))
    && |Section(b.entries)| < TWO32 && |Payload(lib, c, b.entries)| < TWO32
  }

  lemma {:induction false} BatchHeaderFits(lib: Library, c: Compression, b: Batch)
    requires Lawful(lib) && c <= ZSTD && BatchFits(lib, c, b)
    ensures HeaderFits(BatchHeader(lib, c, b)) && |b.entries| < TWO32
  {
    SectionLength(b.entries);
    assert b.entries[0] in b.entries && b.entries[|b.entries| - 1] in b.entries;
  }
}

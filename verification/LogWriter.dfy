/** Writing a log (internal/timemachine/record.go, record_batch.go and log.go): records are
    built one by one, gathered in batches, and each full batch is appended to the output. */
module LogWriter {
  import opened Basics
  import opened Bytes
  import opened LogFormat

  const MAX_DURATION: int := TWO63 - 1
  const MIN_DURATION: int := -TWO63

  /** The difference of two times, kept within 64 bits. */
  function Sub(t: int, start: int): int {
    if t - start > MAX_DURATION then MAX_DURATION else if t - start < MIN_DURATION then MIN_DURATION else t - start
  }

  /** It is the difference that 64 bits can hold that is nearest to the true one. */
  lemma {:induction false} SubNearest(t: int, start: int, d: int)
    requires MIN_DURATION <= d <= MAX_DURATION
    ensures MIN_DURATION <= Sub(t, start) <= MAX_DURATION
    ensures (if d < t - start then t - start - d else d - (t - start)) >=
      if Sub(t, start) < t - start then t - start - Sub(t, start) else Sub(t, start) - (t - start)
  {
  }

  class RecordBuilder {
    var startTime: int
    var timestamp: int
    var functionID: nat
    var functionCall: bytes
    var finished: bool
    var finishedBytes: bytes

    ghost function Value(): Entry reads this { Entry(timestamp, functionID, functionCall) }

    ghost predicate Valid() reads this {
      functionID < TWO32 && MIN_DURATION <= timestamp <= MAX_DURATION && (finished ==> finishedBytes == EntryBytes(Value()))
    }

    constructor ()
      ensures Valid() && !finished
    {
      startTime, timestamp, functionID, functionCall, finished := 0, 0, 0, [], false;
    }

    method Reset(start: int)
      modifies this
      ensures Valid() && !finished && startTime == start && Value() == Entry(0, 0, [])
    {
      startTime := start;
      timestamp, functionID, functionCall, finished := 0, 0, [], false;
    }

    method SetTimestamp(t: int)
      requires Valid() && !finished
      modifies this
      ensures Valid() && !finished && startTime == old(startTime)
      ensures Value() == old(Value()).(timestamp := Sub(t, startTime))
    {
      timestamp := Sub(t, startTime);
    }

    method SetFunctionID(id: int)
      requires Valid() && !finished
      modifies this
      ensures Valid() && !finished && startTime == old(startTime)
      ensures Value() == old(Value()).(functionId := U32(id))
    {
      functionID := U32(id);
    }

    method SetFunctionCall(call: bytes)
      requires Valid() && !finished
      modifies this
      ensures Valid() && !finished && startTime == old(startTime)
      ensures Value() == old(Value()).(call := call)
    {
      functionCall := call;
    }

    method Bytes() returns (r: bytes)
      requires Valid()
      modifies this
      ensures Valid() && finished && startTime == old(startTime) && Value() == old(Value()) && r == EntryBytes(Value())
    {
      if !finished {
        finishedBytes := EntryBytes(Entry(timestamp, functionID, functionCall));
        finished := true;
      }
      r := finishedBytes;
    }
  }

  /** What the builder keeps of a batch. */
  ghost predicate Gathers(es: seq<Entry>, uncompressed: bytes, count: nat, first: int, last: int) {
    uncompressed == Section(es) && count == |es| && first == FirstTime(es) && last == LastTime(es)
  }

  lemma {:induction false} GathersOneMore(es: seq<Entry>, uncompressed: bytes, count: nat, first: int, last: int, e: Entry)
    requires Gathers(es, uncompressed, count, first, last)
    ensures Gathers(es + [e], uncompressed + EntryBytes(e), count + 1, if count == 0 then e.timestamp else first, e.timestamp)
  {
    FlatMapSnoc(EntryBytes, es, e);
  }

  class RecordBatchBuilder {
    const lib: Library
    var compression: Compression
    var firstOffset: int
    var firstTimestamp: int
    var lastTimestamp: int
    var recordCount: nat
    var uncompressed: bytes
    var compressed: bytes
    var records: bytes
    var header: bytes
    var result: bytes
    var finished: bool
    var concatenated: bool
    ghost var entries: seq<Entry>

    /** Not built yet. */
    ghost predicate Open() reads this {
      && 0 <= firstOffset && Gathers(entries, uncompressed, recordCount, firstTimestamp, lastTimestamp)
      && !finished && !concatenated && result == []
    }

    ghost predicate Valid() reads this {
      && 0 <= firstOffset && Gathers(entries, uncompressed, recordCount, firstTimestamp, lastTimestamp)
      && (finished ==> header + records == Built())
      && (concatenated ==> finished && result == Built())
      && (!concatenated ==> result == [])
    }

    /** The batch as it goes to the log. */
    ghost function Built(): bytes
      requires 0 <= firstOffset
      reads this
    {
      BatchBytes(lib, compression, Batch(firstOffset, entries))
    }

    constructor (lib: Library, c: Compression, first: nat)
      ensures Open() && entries == [] && compression == c && firstOffset == first && this.lib == lib
    {
      this.lib, compression, firstOffset := lib, c, first;
      firstTimestamp, lastTimestamp, recordCount, uncompressed, result, finished, concatenated := 0, 0, 0, [], [], false, false;
      entries := [];
    }

    method Reset(c: Compression, first: nat)
      modifies this
      ensures Open() && entries == [] && compression == c && firstOffset == first
    {
      compression, firstOffset := c, first;
      uncompressed, compressed, result, records := [], [], [], [];
      firstTimestamp, lastTimestamp, recordCount, finished, concatenated := 0, 0, 0, false, false;
      entries := [];
    }

    method AddRecord(record: RecordBuilder)
      requires Open() && record.Valid()
      modifies this, record
      ensures Open() && compression == old(compression) && firstOffset == old(firstOffset)
      ensures entries == old(entries) + [record.Value()] && record.Valid() && record.Value() == old(record.Value())
    {
      var b := record.Bytes();
      GathersOneMore(entries, uncompressed, recordCount, firstTimestamp, lastTimestamp, record.Value());
      uncompressed := uncompressed + b;
      if recordCount == 0 { firstTimestamp := record.timestamp; }
      lastTimestamp := record.timestamp;
      recordCount := recordCount + 1;
      entries := entries + [record.Value()];
    }

    method Build()
      requires Valid()
      modifies this`records, this`compressed, this`header
      ensures header + records == Built()
    {
      records := uncompressed;
      var uncompressedSize := |uncompressed|;
      var compressedSize := uncompressedSize;
      if compression != UNCOMPRESSED {
        compressed := Compress(lib, compression, uncompressed);
        records := compressed;
        compressedSize := |compressed|;
      }
      header := Frame(Header(firstOffset, firstTimestamp, lastTimestamp, compressedSize, uncompressedSize, lib.checksum(records), recordCount, compression));
    }

    /** What is written is the batch, whether or not it was built before. */
    method Write(output: bytes) returns (output': bytes)
      requires Valid()
      modifies this
      ensures Valid() && finished && entries == old(entries) && compression == old(compression) && firstOffset == old(firstOffset)
      ensures output' == output + Built()
    {
      if !finished {
        Build();
        finished := true;
      }
      ConcatAssoc(output, header, records);
      output' := (output + header) + records;
    }

    method Bytes() returns (r: bytes)
      requires Valid()
      modifies this
      ensures Valid() && finished && entries == old(entries) && compression == old(compression) && firstOffset == old(firstOffset)
      ensures r == Built()
    {
      if !finished {
        Build();
        finished := true;
      }
      if !concatenated {
        result := result + header;
        assert result == header;
        result := result + records;
        concatenated := true;
      }
      r := result;
    }
  }

  /** The batches in the log and the records still to be written, after one more record. */
  function Push(size: int, done: seq<Batch>, pending: seq<Entry>, e: Entry): (seq<Batch>, seq<Entry>) {
    var p := pending + [e];
    if |p| >= size then (Flushed(done, p), []) else (done, p)
  }

  function Flushed(done: seq<Batch>, pending: seq<Entry>): seq<Batch> {
    if pending == [] then done else done + [Batch(|Entries(done)|, pending)]
  }

  lemma {:induction false} LogSnoc(lib: Library, c: Compression, done: seq<Batch>, b: Batch)
    requires Chained(done) && b.entries != [] && b.first == |Entries(done)|
    ensures Chained(done + [b]) && LogBytes(lib, c, done + [b]) == LogBytes(lib, c, done) + BatchBytes(lib, c, b)
    ensures |Entries(done + [b])| == |Entries(done)| + |b.entries|
  {
    FlatMapSnoc(BatchCoder(lib, c), done, b);
    FlatMapSnoc(EntriesOf, done, b);
    ChainedSnoc(done, b);
  }

  class LogRecordWriter {
    const lib: Library
    const batchSize: int
    const compression: Compression
    const batch: RecordBatchBuilder
    var output: bytes
    var firstOffset: int
    var count: int
    ghost var done: seq<Batch>

    ghost predicate Valid() reads this, batch {
      && batch.Open() && batch.lib == lib && batch.compression == compression
      && Chained(done) && output == LogBytes(lib, compression, done)
      && firstOffset == batch.firstOffset == |Entries(done)| && count == |batch.entries|
    }

    constructor (lib: Library, batchSize: int, c: Compression)
      ensures Valid() && fresh(batch) && done == [] && batch.entries == [] && output == []
      ensures this.lib == lib && this.batchSize == batchSize && compression == c
    {
      this.lib, this.batchSize, compression := lib, batchSize, c;
      batch := new RecordBatchBuilder(lib, c, 0);
      output, firstOffset, count, done := [], 0, 0, [];
    }

    method WriteRecord(record: RecordBuilder)
      requires Valid() && record.Valid()
      modifies this, batch, record
      ensures Valid() && record.Valid() && record.Value() == old(record.Value())
      ensures (done, batch.entries) == Push(batchSize, old(done), old(batch.entries), record.Value())
    {
      batch.AddRecord(record);
      count := count + 1;
      if count >= batchSize { Flush(); }
    }

    method Flush()
      requires Valid()
      modifies this, batch
      ensures Valid() && batch.entries == [] && done == Flushed(old(done), old(batch.entries))
    {
      if count == 0 { return; }
      ghost var b := Batch(firstOffset, batch.entries);
      output := batch.Write(output);
      LogSnoc(lib, compression, done, b);
      firstOffset := firstOffset + count;
      count := 0;
      batch.Reset(compression, firstOffset);
      done := done + [b];
    }
  }

  // ----- where the batches are cut

  /** The state after writing records in order with no flush in between. */
  function Batched(size: int, es: seq<Entry>): (seq<Batch>, seq<Entry>) {
    if es == [] then ([], [])
    else
      var (done, pending) := Batched(size, es[..|es| - 1]);
      Push(size, done, pending, es[|es| - 1])
  }

  lemma {:induction false} FlushedKeeps(done: seq<Batch>, pending: seq<Entry>)
    requires Chained(done)
    ensures Chained(Flushed(done, pending)) && Entries(Flushed(done, pending)) == Entries(done) + pending
  {
    if pending != [] {
      ChainedSnoc(done, Batch(|Entries(done)|, pending));
      FlatMapSnoc(EntriesOf, done, Batch(|Entries(done)|, pending));
    }
  }

  /** No record is lost or moved by the batching; all batches before the last hold the same
      number of records, at least one, and what is pending is less than that. */
  lemma {:induction false} BatchedKeeps(size: int, es: seq<Entry>)
    ensures var (done, pending) := Batched(size, es);
      Cut(size, es, done, pending)
  {
    if es != [] {
      var front, e := es[..|es| - 1], es[|es| - 1];
      assert es == front + [e];
      BatchedKeeps(size, front);
      var (done, pending) := Batched(size, front);
      CutPush(size, front, done, pending, e);
    }
  }

  ghost predicate Cut(size: int, es: seq<Entry>, done: seq<Batch>, pending: seq<Entry>) {
    && Chained(done) && Entries(done) + pending == es
    && |pending| < (if size < 1 then 1 else size)
    && forall b :: b in done ==> |b.entries| == if size < 1 then 1 else size
  }

  lemma {:induction false} CutPush(size: int, es: seq<Entry>, done: seq<Batch>, pending: seq<Entry>, e: Entry)
    requires Cut(size, es, done, pending)
    ensures var (done', pending') := Push(size, done, pending, e); Cut(size, es + [e], done', pending')
  {
    ConcatAssoc(Entries(done), pending, [e]);
    FlushedKeeps(done, pending + [e]);
  }

  // ----- flushes at any point

  /** A record is written, or what is pending is flushed. */
  datatype Op = Append(entry: Entry) | FlushNow

  function Performed(size: int, ops: seq<Op>): (seq<Batch>, seq<Entry>) {
    if ops == [] then ([], [])
    else
      var (done, pending) := Performed(size, ops[..|ops| - 1]);
      match ops[|ops| - 1]
      case Append(e) => Push(size, done, pending, e)
      case FlushNow => (Flushed(done, pending), [])
  }

  function Appended(ops: seq<Op>): seq<Entry> {
    if ops == [] then []
    else Appended(ops[..|ops| - 1]) + match ops[|ops| - 1] case Append(e) => [e] case FlushNow => []
  }

  function Appends(es: seq<Entry>): (ops: seq<Op>)
    ensures |ops| == |es|
  {
    seq(|es|, i requires 0 <= i < |es| => Append(es[i]))
  }

  lemma {:induction false} BatchedIsPerformed(size: int, es: seq<Entry>)
    ensures Performed(size, Appends(es)) == Batched(size, es)
  {
    if es != [] {
      assert Appends(es)[..|es| - 1] == Appends(es[..|es| - 1]);
      BatchedIsPerformed(size, es[..|es| - 1]);
    }
  }

  /** The batches of the log after a last flush. */
  function FinalBatches(size: int, ops: seq<Op>): seq<Batch> {
    var (done, pending) := Performed(size, ops);
    Flushed(done, pending)
  }

  ghost predicate Gathered(size: int, es: seq<Entry>, done: seq<Batch>, pending: seq<Entry>) {
    var most := if size < 1 then 1 else size;
    && Chained(done) && Entries(done) + pending == es && |pending| < most
    && forall b :: b in done ==> 1 <= |b.entries| <= most
  }

  lemma {:induction false} FlushGathered(size: int, es: seq<Entry>, done: seq<Batch>, pending: seq<Entry>)
    requires Chained(done) && Entries(done) + pending == es && |pending| <= (if size < 1 then 1 else size)
    requires forall b :: b in done ==> 1 <= |b.entries| <= if size < 1 then 1 else size
    ensures Gathered(size, es, Flushed(done, pending), [])
  {
    FlushedKeeps(done, pending);
    assert Entries(done) + pending + [] == es;
  }

  /** Wherever it is flushed, no record is lost or moved, and batches hold at least one record
      and at most the batch size. */
  lemma {:induction false} PerformedKeeps(size: int, ops: seq<Op>)
    ensures var (done, pending) := Performed(size, ops); Gathered(size, Appended(ops), done, pending)
  {
    if ops != [] {
      var front := ops[..|ops| - 1];
      PerformedKeeps(size, front);
      var (done, pending) := Performed(size, front);
      match ops[|ops| - 1]
      case Append(e) =>
        ConcatAssoc(Entries(done), pending, [e]);
        if |pending + [e]| >= size { FlushGathered(size, Appended(ops), done, pending + [e]); }
      case FlushNow =>
        assert Appended(ops) == Appended(front);
        FlushGathered(size, Appended(ops), done, pending);
    }
  }

  lemma {:induction false} FinalBatchesKeep(size: int, ops: seq<Op>)
    ensures Chained(FinalBatches(size, ops)) && Entries(FinalBatches(size, ops)) == Appended(ops)
  {
    PerformedKeeps(size, ops);
    var (done, pending) := Performed(size, ops);
    FlushedKeeps(done, pending);
  }
}

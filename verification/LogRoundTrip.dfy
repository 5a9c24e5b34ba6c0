/** Reading a log record by record (internal/timemachine/log.go), and the round trip: what was
    written and flushed is read back in order. */
module LogRoundTrip {
  import opened Basics
  import opened Bytes
  import opened LogFormat
  import opened LogWriter
  import opened LogReader

  /** Reading without seeking passes over no batch. */
  lemma {:induction false} NextReached(bs: seq<Batch>, i: nat, target: int)
    requires Chained(bs) && i <= |bs| && target <= |Entries(bs[..i])|
    ensures FirstReaching(bs, i, target) == i
  {
    if i < |bs| { assert ChainedAt(bs, i); }
  }

  lemma {:induction false} OffsetsFollow(bs: seq<Batch>, i: nat)
    requires Chained(bs) && i < |bs|
    ensures NextOffset(bs[i]) == |Entries(bs[..i + 1])| && bs[i].first == |Entries(bs[..i])|
  {
    assert ChainedAt(bs, i);
    FlatMapAt(EntriesOf, bs, i);
  }

  lemma {:induction false} AllEntries(bs: seq<Batch>)
    ensures Entries(bs[..|bs|]) == Entries(bs)
  {
    assert bs[..|bs|] == bs;
  }

  class LogRecordReader {
    const reader: LogReader
    var inBatch: bool    // a batch is being read
    var offset: int

    ghost predicate Valid() reads this, reader, reader.batch, reader.input {
      && reader.Between() && reader.nextRecordOffset <= |Entries(reader.batches[..reader.next])|
      && (inBatch ==> reader.Opened() && offset == reader.batch.content.first + reader.batch.index)
    }

    /** How many records of the log have been read. */
    ghost function Position(): int
      requires reader.next <= |reader.batches|
      reads this, reader
    {
      if inBatch then offset else |Entries(reader.batches[..reader.next])|
    }

    constructor (r: LogReader)
      requires r.Between() && r.next == 0 && r.nextRecordOffset == 0
      ensures reader == r && Valid() && Position() == 0
    {
      reader, inBatch, offset := r, false, 0;
      assert r.batches[..0] == [];
    }

    /** Goes on to the next batch. */
    method OpenBatch() returns (st: Status)
      requires Valid() && !inBatch
      modifies this, reader, reader.batch, reader.input
      ensures Valid() && inBatch == (st == Ok) && Position() == old(Position())
      ensures st == if old(reader.next) < |reader.batches| then Ok else Eof
      ensures reader.next == old(reader.next) + if st == Ok then 1 else 0
      ensures st == Eof ==> Position() == |Entries(reader.batches)|
    {
      NextReached(reader.batches, reader.next, reader.nextRecordOffset);
      if reader.next < |reader.batches| { OffsetsFollow(reader.batches, reader.next); } else { AllEntries(reader.batches); }
      st := reader.ReadRecordBatch();
      if st == Ok {
        inBatch := true;
        offset := reader.batch.header.firstOffset;
      }
    }

    /** The records of the log. */
    ghost function All(): seq<Record> { Records(reader.startTime, Entries(reader.batches)) }

    /** Reads from the batch at hand. */
    method ReadBatch(records: array<Record>) returns (n: nat, st: Status)
      requires Valid() && inBatch
      modifies this`offset, reader.batch, reader.input, records
      ensures Valid() && offset == old(offset) + n && n <= records.Length && offset <= |Entries(reader.batches[..reader.next])|
      ensures n == records.Length || offset == |Entries(reader.batches[..reader.next])|
      ensures st == if n < records.Length then Eof else Ok
      ensures 0 <= old(offset) && offset <= |All()| && records[..n] == All()[old(offset)..offset]
      ensures n == 0 ==> records[..] == old(records[..])
    {
      ghost var bs, i := reader.batches, reader.next - 1;
      OffsetsFollow(bs, i);
      BatchWithin(bs, i);
      n, st := reader.batch.Read(records);
      BatchRecords(reader.startTime, bs, i, old(reader.batch.index), n);
      offset := offset + n;
    }

    /** Reads from the batch at hand or the next one; `more` when that batch had no more. */
    method ReadSome(records: array<Record>) returns (n: nat, st: Status, more: bool)
      requires Valid()
      modifies this, reader, reader.batch, reader.input, records
      ensures Valid() && Position() == old(Position()) + n && n <= records.Length
      ensures 0 <= old(Position()) && Position() <= |All()| && records[..n] == All()[old(Position())..Position()]
      ensures n == 0 ==> records[..] == old(records[..])
      ensures more ==> n == 0 && !inBatch && reader.next + (if old(inBatch) then 0 else -1) == old(reader.next)
      ensures !more ==> (st == Ok && (n > 0 || records.Length == 0)) || (st == Eof && n == 0 && Position() == |All()|)
    {
      more := false;
      if !inBatch {
        st := OpenBatch();
        if st != Ok { return 0, st, false; }
      }
      n, st := ReadBatch(records);
      if n > 0 { st := Ok; }
      else if st == Eof {
        inBatch := false;
        more := true;
      }
    }

    /** The next records of the log, or its end. */
    method Read(records: array<Record>) returns (n: nat, st: Status)
      requires Valid()
      modifies this, reader, reader.batch, reader.input, records
      ensures Valid() && Position() == old(Position()) + n && n <= records.Length
      ensures 0 <= old(Position()) && Position() <= |All()| && records[..n] == All()[old(Position())..Position()]
      ensures n == 0 ==> records[..] == old(records[..])
      ensures (st == Ok && (n > 0 || records.Length == 0)) || (st == Eof && n == 0 && Position() == |All()|)
    {
      while true
        invariant Valid() && Position() == old(Position()) && records[..] == old(records[..])
        decreases |reader.batches| - reader.next, if inBatch then 1 else 0
      {
        var more;
        n, st, more := ReadSome(records);
        if !more { return; }
      }
    }
  }

  /** Records of batch `i` from its record `j` on are records of the log. */
  lemma {:induction false} BatchRecords(start: int, bs: seq<Batch>, i: nat, j: nat, n: nat)
    requires Chained(bs) && i < |bs| && j + n <= |bs[i].entries|
    ensures var o := bs[i].first + j;
      o + n <= |Entries(bs)| && RecordsOf(start, bs[i], j, n) == Records(start, Entries(bs))[o..o + n]
  {
    BatchWithin(bs, i);
    var o, all, out := bs[i].first + j, Records(start, Entries(bs)), RecordsOf(start, bs[i], j, n);
    forall k | 0 <= k < n ensures out[k] == all[o..o + n][k] { EntryAt(bs, i, j + k); }
  }

  lemma {:induction false} BatchWithin(bs: seq<Batch>, i: nat)
    requires Chained(bs) && i < |bs|
    ensures NextOffset(bs[i]) <= |Entries(bs)|
  {
    assert ChainedAt(bs, i);
    FlatMapAt(EntriesOf, bs, i);
  }

  // ----- the round trip

  /** A host function call as it is recorded. */
  datatype Call = Call(time: int, functionId: int, call: bytes)

  function EntryFor(start: int, c: Call): Entry { Entry(Sub(c.time, start), U32(c.functionId), c.call) }

  /** A call is recorded, or the log is flushed. */
  datatype Event = Recorded(call: Call) | Flush

  function CallsOf(events: seq<Event>): seq<Call> {
    if events == [] then []
    else CallsOf(events[..|events| - 1]) + match events[|events| - 1] case Recorded(c) => [c] case Flush => []
  }

  function OpFor(start: int, e: Event): Op {
    match e case Recorded(c) => Append(EntryFor(start, c)) case Flush => FlushNow
  }

  function OpsFor(start: int, events: seq<Event>): (ops: seq<Op>)
    ensures |ops| == |events|
  {
    seq(|events|, i requires 0 <= i < |events| => OpFor(start, events[i]))
  }

  function EntriesFor(start: int, calls: seq<Call>): (es: seq<Entry>)
    ensures |es| == |calls|
  {
    seq(|calls|, i requires 0 <= i < |calls| => EntryFor(start, calls[i]))
  }

  /** The records written are those of the calls. */
  lemma {:induction false} AppendedCalls(start: int, events: seq<Event>)
    ensures Appended(OpsFor(start, events)) == EntriesFor(start, CallsOf(events))
  {
    if events != [] {
      var front := events[..|events| - 1];
      AppendedCalls(start, front);
      assert OpsFor(start, events)[..|events| - 1] == OpsFor(start, front);
      match events[|events| - 1]
      case Recorded(c) => assert EntriesFor(start, CallsOf(front) + [c]) == EntriesFor(start, CallsOf(front)) + [EntryFor(start, c)];
      case Flush => assert CallsOf(front) + [] == CallsOf(front);
    }
  }

  /** What should be read back: the calls in order, numbered from zero. */
  function Expected(start: int, calls: seq<Call>): (rs: seq<Record>)
    ensures |rs| == |calls|
  {
    seq(|calls|, i requires 0 <= i < |calls| =>
      Record(i, start + Sub(calls[i].time, start), U32(calls[i].functionId), calls[i].call))
  }

  /** Record `i` is the call itself exactly when its time is within 64 bits of the start and
      its function id has 32 bits. */
  lemma {:induction false} ExpectedIsExact(start: int, calls: seq<Call>, i: nat)
    requires i < |calls|
    ensures Expected(start, calls)[i] == Record(i, calls[i].time, calls[i].functionId, calls[i].call) <==>
      -TWO63 <= calls[i].time - start < TWO63 && 0 <= calls[i].functionId < TWO32
  {
    var id := calls[i].functionId;
    assert 0 <= U32(id) < TWO32;
    if 0 <= id < TWO32 { U32Small(id); }
  }

  lemma {:induction false} ExpectedRecords(start: int, calls: seq<Call>)
    ensures Records(start, EntriesFor(start, calls)) == Expected(start, calls)
  {
  }

  /** Sizes that 32-bit lengths can tell. */
  ghost predicate Small(lib: Library, c: Compression, b: Batch) {
    b.first < TWO63 && |Section(b.entries)| < TWO32 && |Payload(lib, c, b.entries)| < TWO32
  }

  predicate Bounded(e: Entry) { -TWO63 <= e.timestamp < TWO63 && e.functionId < TWO32 }

  lemma {:induction false} SmallFits(lib: Library, c: Compression, b: Batch)
    requires Small(lib, c, b) && b.entries != [] && forall e :: e in b.entries ==> Bounded(e)
    ensures BatchFits(lib, c, b)
  {
    forall e | e in b.entries ensures EntryFits(e) {
      var i :| 0 <= i < |b.entries| && b.entries[i] == e;
      FlatMapAt(EntryBytes, b.entries, i);
    }
  }

  ghost predicate AllSmall(lib: Library, c: Compression, bs: seq<Batch>) {
    forall i :: 0 <= i < |bs| ==> Small(lib, c, bs[i])
  }

  lemma {:induction false} LogOfCallsFits(lib: Library, c: Compression, bs: seq<Batch>)
    requires Lawful(lib) && c <= ZSTD && Chained(bs) && AllSmall(lib, c, bs) && forall e :: e in Entries(bs) ==> Bounded(e)
    ensures LogFits(lib, c, bs)
  {
    forall i: nat | i < |bs| ensures FitsAt(lib, c, bs, i) {
      assert ChainedAt(bs, i);
      forall e | e in bs[i].entries ensures Bounded(e) {
        var j :| 0 <= j < |bs[i].entries| && bs[i].entries[j] == e;
        EntryAt(bs, i, j);
      }
      SmallFits(lib, c, bs[i]);
    }
  }

  method WriteAll(lib: Library, size: int, c: Compression, start: int, events: seq<Event>) returns (data: bytes)
    ensures data == LogBytes(lib, c, FinalBatches(size, OpsFor(start, events)))
  {
    var writer := new LogRecordWriter(lib, size, c);
    var record := new RecordBuilder();
    var i := 0;
    while i < |events|
      invariant 0 <= i <= |events| && writer.Valid() && record.Valid()
      invariant writer.lib == lib && writer.compression == c && writer.batchSize == size && fresh(writer) && fresh(writer.batch) && fresh(record)
      invariant (writer.done, writer.batch.entries) == Performed(size, OpsFor(start, events[..i]))
    {
      PerformedNext(size, start, events, i);
      match events[i] {
        case Recorded(call) =>
          record.Reset(start);
          record.SetTimestamp(call.time);
          record.SetFunctionID(call.functionId);
          record.SetFunctionCall(call.call);
          writer.WriteRecord(record);
        case Flush => writer.Flush();
      }
      i := i + 1;
    }
    assert events[..i] == events;
    writer.Flush();
    data := writer.output;
  }

  lemma {:induction false} PerformedNext(size: int, start: int, events: seq<Event>, i: nat)
    requires i < |events|
    ensures var (done, pending) := Performed(size, OpsFor(start, events[..i]));
      Performed(size, OpsFor(start, events[..i + 1])) == match events[i]
        case Recorded(c) => Push(size, done, pending, EntryFor(start, c))
        case Flush => (Flushed(done, pending), [])
  {
    var ops := OpsFor(start, events[..i + 1]);
    assert ops[..i] == OpsFor(start, events[..i]);
  }

  /** Writing any calls with any batch size and compression, flushing at any points and at the
      end, and reading with buffers of any lengths gives the calls back in order; the end is
      reported only when all were read, and it is reached when every buffer has room. */
  method WriteThenRead(lib: Library, size: int, c: Compression, start: int, events: seq<Event>, lens: seq<nat>)
    returns (got: seq<Record>, eof: bool)
    requires Lawful(lib) && c <= ZSTD && AllSmall(lib, c, FinalBatches(size, OpsFor(start, events)))
    ensures var calls := CallsOf(events);
      && |got| <= |calls| && got == Expected(start, calls)[..|got|]
      && (eof ==> got == Expected(start, calls))
      && (|lens| > |calls| && (forall k :: 0 <= k < |lens| ==> lens[k] > 0) ==> eof)
  {
    ghost var bs := FinalBatches(size, OpsFor(start, events));
    var data := WriteAll(lib, size, c, start, events);
    FinalBatchesKeep(size, OpsFor(start, events));
    AppendedCalls(start, events);
    LogOfCallsFits(lib, c, bs);
    ExpectedRecords(start, CallsOf(events));
    var log := new LogReader(lib, c, bs, data, start);
    var reader := new LogRecordReader(log);
    got, eof := ReadAll(reader, lens);
  }

  method ReadWith(reader: LogRecordReader, length: nat) returns (out: seq<Record>, eof: bool)
    requires reader.Valid()
    modifies reader, reader.reader, reader.reader.batch, reader.reader.input
    ensures reader.Valid() && 0 <= old(reader.Position()) <= reader.Position() <= |reader.All()|
    ensures out == reader.All()[old(reader.Position())..reader.Position()]
    ensures if eof then reader.Position() == |reader.All()| else length > 0 ==> out != []
  {
    var records := new Record[length](_ => Record(0, 0, 0, []));
    var n, st := reader.Read(records);
    out, eof := records[..n], st == Eof;
  }

  /** Reads with buffers of given lengths until the end of the log or of the lengths. */
  method ReadAll(reader: LogRecordReader, lens: seq<nat>) returns (got: seq<Record>, eof: bool)
    requires reader.Valid() && reader.Position() == 0
    modifies reader, reader.reader, reader.reader.batch, reader.reader.input
    ensures |got| <= |reader.All()| && got == reader.All()[..|got|]
    ensures eof ==> got == reader.All()
    ensures |lens| > |reader.All()| && (forall k :: 0 <= k < |lens| ==> lens[k] > 0) ==> eof
  {
    ghost var all := reader.All();
    got, eof := [], false;
    var i := 0;
    while i < |lens| && !eof
      invariant 0 <= i <= |lens| && reader.Valid() && reader.Position() == |got| <= |all| && got == all[..|got|]
      invariant if eof then got == all else (forall k :: 0 <= k < |lens| ==> lens[k] > 0) ==> |got| >= i
    {
      var out;
      out, eof := ReadWith(reader, lens[i]);
      SliceJoins(all, |got|, |got| + |out|);
      got := got + out;
      i := i + 1;
    }
  }

  lemma {:induction false} SliceJoins<T>(s: seq<T>, i: nat, j: nat)
    requires i <= j <= |s|
    ensures s[..i] + s[i..j] == s[..j]
  {
  }
}

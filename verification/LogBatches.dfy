/** Batch headers read one after the other, whatever is read of the records in between, and
    the batch that a seek leads to (internal/timemachine/log.go). */
module LogBatches {
  import opened Basics
  import opened Bytes
  import opened LogFormat
  import opened LogReader

  /** Reads records of the batch at hand; the reader keeps its place. */
  method Peek(reader: LogReader, length: nat)
    requires reader.Between() && reader.Opened()
    modifies reader.batch, reader.input
    ensures reader.Between() && reader.Opened()
  {
    ghost var b := reader.batch;
    assert b.Readable();
    BatchHeaderFits(reader.lib, reader.compression, b.content);
    var records := new Record[length](_ => Record(0, 0, 0, []));
    var n, st := reader.batch.Read(records);
    assert b.Readable();
  }

  method PeekAll(reader: LogReader, lengths: seq<nat>)
    requires reader.Between() && reader.Opened()
    modifies reader.batch, reader.input
    ensures reader.Between() && reader.Opened()
  {
    for k := 0 to |lengths|
      invariant reader.Between() && reader.Opened()
    {
      Peek(reader, lengths[k]);
    }
  }

  ghost function HeaderAt(lib: Library, c: Compression, bs: seq<Batch>, i: nat): Header
    requires i < |bs|
  {
    BatchHeader(lib, c, bs[i])
  }

  lemma {:induction false} NextHere(bs: seq<Batch>, i: nat, target: int)
    requires Chained(bs) && i <= |bs| && target <= if i == 0 then 0 else NextOffset(bs[i - 1])
    ensures FirstReaching(bs, i, target) == i
  {
    if i < |bs| {
      assert ChainedAt(bs, i);
      if i > 0 {
        assert ChainedAt(bs, i - 1);
        FlatMapAt(EntriesOf, bs, i - 1);
      }
    }
  }

  /** Nothing ahead is passed over. */
  ghost predicate InOrder(reader: LogReader) reads reader, reader.batch, reader.input {
    reader.Between() && reader.nextRecordOffset <= if reader.next == 0 then 0 else NextOffset(reader.batches[reader.next - 1])
  }

  method NextHeader(reader: LogReader) returns (h: Header, st: Status)
    requires InOrder(reader)
    modifies reader, reader.batch, reader.input
    ensures InOrder(reader) && (st == Ok ==> reader.Opened())
    ensures st == if old(reader.next) < |reader.batches| then Ok else Eof
    ensures reader.next == old(reader.next) + if st == Ok then 1 else 0
    ensures st == Ok ==> h == HeaderAt(reader.lib, reader.compression, reader.batches, old(reader.next))
  {
    NextHere(reader.batches, reader.next, reader.nextRecordOffset);
    st := reader.ReadRecordBatch();
    h := reader.batch.header;
  }

  method HeaderThenRecords(reader: LogReader, lengths: seq<nat>) returns (h: Header, st: Status)
    requires InOrder(reader)
    modifies reader, reader.batch, reader.input
    ensures InOrder(reader)
    ensures st == if old(reader.next) < |reader.batches| then Ok else Eof
    ensures reader.next == old(reader.next) + if st == Ok then 1 else 0
    ensures st == Ok ==> h == HeaderAt(reader.lib, reader.compression, reader.batches, old(reader.next))
  {
    h, st := NextHeader(reader);
    if st == Ok { PeekAll(reader, lengths); }
  }

  /** For any choice of what is read of each batch, the headers are those of the batches in
      order, and `nextByteOffset` ends where the frame of the next batch starts. */
  method ReadHeaders(reader: LogReader, choices: seq<seq<nat>>) returns (hs: seq<Header>)
    requires reader.Between() && reader.next == 0 && reader.nextRecordOffset == 0
    modifies reader, reader.batch, reader.input
    ensures |hs| == Least(|choices|, |reader.batches|)
    ensures forall i: nat :: i < |hs| ==> hs[i] == HeaderAt(reader.lib, reader.compression, reader.batches, i)
    ensures reader.nextByteOffset == Start(reader.lib, reader.compression, reader.batches, |hs|)
  {
    hs := [];
    for k := 0 to |choices|
      invariant InOrder(reader) && reader.next == |hs| == Least(k, |reader.batches|)
      invariant forall i: nat :: i < |hs| ==> hs[i] == HeaderAt(reader.lib, reader.compression, reader.batches, i)
    {
      var h, st := HeaderThenRecords(reader, choices[k]);
      if st == Ok { hs := hs + [h]; }
    }
    assert StartsAt(reader.lib, reader.compression, reader.batches, reader.starts, |hs|);
  }

  // ----- seeking

  predicate Contains(b: Batch, offset: int) { b.first <= offset < NextOffset(b) }

  lemma {:induction false} EndsGrow(bs: seq<Batch>, i: nat)
    requires Chained(bs) && 0 < i < |bs|
    ensures bs[i].first == NextOffset(bs[i - 1]) && NextOffset(bs[i - 1]) < NextOffset(bs[i])
  {
    assert ChainedAt(bs, i) && ChainedAt(bs, i - 1);
    FlatMapAt(EntriesOf, bs, i - 1);
  }

  lemma {:induction false} EndsOrdered(bs: seq<Batch>, i: nat, j: nat)
    requires Chained(bs) && i <= j < |bs|
    ensures NextOffset(bs[i]) <= NextOffset(bs[j])
    decreases j
  {
    if i < j {
      EndsOrdered(bs, i, j - 1);
      EndsGrow(bs, j);
    }
  }

  /** The batch returned after a seek holds the offset exactly when that offset is not the end
      of a batch from there on; at such an end it is the batch before. */
  lemma {:induction false} SeekFindsExactly(bs: seq<Batch>, at: nat, target: nat)
    requires Chained(bs) && at <= |bs|
    ensures var from := SeekFrom(bs, at, target);
      var i := FirstReaching(bs, from, target);
      i < |bs| ==>
        && bs[i].first <= target <= NextOffset(bs[i])
        && (Contains(bs[i], target) <==> forall j :: from <= j < |bs| ==> NextOffset(bs[j]) != target)
  {
    var from := SeekFrom(bs, at, target);
    var i := FirstReaching(bs, from, target);
    if i < |bs| {
      assert ChainedAt(bs, i);
      if i > 0 { EndsGrow(bs, i); }
      if i == 0 { assert bs[..0] == []; }
      forall j | i < j < |bs| ensures target < NextOffset(bs[j]) {
        EndsGrow(bs, j);
        EndsOrdered(bs, i, j - 1);
      }
    }
  }
}

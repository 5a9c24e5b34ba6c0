/** The vectors of a read are recorded only as far as bytes were read into them
    (encodeIOVecsPrefix, internal/timemachine/wasicall/codec.go). */
module IOVecs {
  import opened Basics
  import opened Bytes
  import opened Codec
  import Calls

  function Concat(iovs: seq<bytes>): bytes { if iovs == [] then [] else iovs[0] + Concat(iovs[1..]) }

  /** The vectors needed for the first `size` bytes, the last one cut. */
  function Prefix(iovs: seq<bytes>, size: nat): (p: seq<bytes>)
    ensures |p| <= |iovs|
  {
    if iovs == [] then []
    else if size <= |iovs[0]| then [iovs[0][..size]]
    else [iovs[0]] + Prefix(iovs[1..], size - |iovs[0]|)
  }

  function Raws(iovs: seq<bytes>): (vs: seq<Value>)
    ensures |vs| == |iovs|
  {
    if iovs == [] then [] else [Raw(iovs[0])] + Raws(iovs[1..])
  }

  /** Together they are the first bytes of all vectors. */
  lemma {:induction false} PrefixConcat(iovs: seq<bytes>, size: nat)
    ensures Concat(Prefix(iovs, size)) == Concat(iovs)[..Least(size, |Concat(iovs)|)]
  {
    if iovs != [] {
      var rest := Concat(iovs[1..]);
      if size <= |iovs[0]| {
        assert Prefix(iovs, size)[1..] == [];
        assert Concat(Prefix(iovs, size)) == iovs[0][..size] + [];
        assert (iovs[0] + rest)[..size] == iovs[0][..size];
      } else {
        var more := Prefix(iovs[1..], size - |iovs[0]|);
        PrefixConcat(iovs[1..], size - |iovs[0]|);
        assert ([iovs[0]] + more)[1..] == more;
        assert (iovs[0] + rest)[..Least(size, |iovs[0] + rest|)] == iovs[0] + rest[..Least(size - |iovs[0]|, |rest|)];
      }
    }
  }

  /** None is there beyond the last one needed: all but the last hold fewer than `size` bytes. */
  lemma {:induction false} PrefixNeeded(iovs: seq<bytes>, size: nat)
    requires size > 0 && iovs != []
    ensures var p := Prefix(iovs, size); p != [] && |Concat(p[..|p| - 1])| < size
  {
    var p := Prefix(iovs, size);
    if size <= |iovs[0]| {
      assert p[..|p| - 1] == [];
    } else {
      var more := Prefix(iovs[1..], size - |iovs[0]|);
      if iovs[1..] == [] {
        assert p[..|p| - 1] == [];
      } else {
        PrefixNeeded(iovs[1..], size - |iovs[0]|);
        assert p[..|p| - 1] == [iovs[0]] + more[..|more| - 1];
        assert ([iovs[0]] + more[..|more| - 1])[1..] == more[..|more| - 1];
      }
    }
  }

  // ----- the two loops

  /** Where the first loop stops: it adds up lengths, and compares the sum in 32 bits. */
  function Counted(iovs: seq<bytes>, size: nat, total: nat): (n: nat)
    ensures n <= |iovs| && (iovs != [] ==> n > 0)
  {
    if iovs == [] then 0
    else if U32(total + |iovs[0]|) >= size then 1
    else 1 + Counted(iovs[1..], size, total + |iovs[0]|)
  }

  /** What the second loop writes: it takes lengths away, cut to 32 bits. */
  function Written(iovs: seq<bytes>, remaining: nat): seq<bytes> {
    if iovs == [] then []
    else if remaining <= U32(|iovs[0]|) then
      U32Below(|iovs[0]|);
      [iovs[0][..remaining]]
    else [iovs[0]] + Written(iovs[1..], remaining - U32(|iovs[0]|))
  }

  method CountPrefix(iovs: seq<bytes>, size: nat) returns (count: nat)
    ensures count == Counted(iovs, size, 0)
  {
    count := 0;
    var total: nat := 0;
    for i := 0 to |iovs|
      invariant count == i && count + Counted(iovs[i..], size, total) == Counted(iovs, size, 0)
    {
      assert iovs[i..][1..] == iovs[i + 1..];
      count := count + 1;
      total := total + |iovs[i]|;
      if U32(total) >= size {
        break;
      }
    }
  }

  method AppendPrefix(buffer: bytes, iovs: seq<bytes>, size: nat) returns (b: bytes)
    ensures b == buffer + EncodeEach(Blob, Raws(Written(iovs, size)))
  {
    b := buffer;
    var remaining: nat := size;
    for i := 0 to |iovs|
      invariant b + EncodeEach(Blob, Raws(Written(iovs[i..], remaining))) == buffer + EncodeEach(Blob, Raws(Written(iovs, size)))
    {
      U32Below(|iovs[i]|);
      OneVector(iovs[i..], remaining);
      assert iovs[i..][1..] == iovs[i + 1..];
      if remaining <= U32(|iovs[i]|) {
        b := b + EncodeBlob(iovs[i][..remaining]);
        return;
      }
      remaining := remaining - U32(|iovs[i]|);
      ConcatAssoc(b, EncodeBlob(iovs[i]), EncodeEach(Blob, Raws(Written(iovs[i + 1..], remaining))));
      b := b + EncodeBlob(iovs[i]);
    }
    assert b + [] == b;
  }

  lemma {:induction false} OneVector(iovs: seq<bytes>, size: nat)
    requires iovs != []
    ensures EncodeEach(Blob, Raws(Written(iovs, size))) ==
      if size <= U32(|iovs[0]|) then EncodeBlob(iovs[0][..size])
      else EncodeBlob(iovs[0]) + EncodeEach(Blob, Raws(Written(iovs[1..], size - U32(|iovs[0]|))))
  {
    var p := Written(iovs, size);
    U32Below(|iovs[0]|);
    assert Raws(p)[1..] == Raws(p[1..]);
    if size <= U32(|iovs[0]|) {
      assert EncodeBlob(p[0]) + [] == EncodeBlob(p[0]);
    } else {
      assert p[1..] == Written(iovs[1..], size - U32(|iovs[0]|));
    }
  }

  /** The count written first is worked out by one loop, the vectors after it by another. */
  method EncodeIOVecsPrefix(buffer: bytes, iovs: seq<bytes>, size: nat) returns (b: bytes)
    requires size < TWO32
    ensures b == buffer +
      if 0 < size < TWO31 then LE(U32(Counted(iovs, size, 0)), 4) + EncodeEach(Blob, Raws(Written(iovs, size))) else LE(0, 4)
    ensures Agree(iovs, size) ==> b == buffer + Encode(Vector(Blob), List(Raws(Recorded(iovs, size))))
  {
    AgreeEncodes(iovs, size);
    if size >= TWO31 || size == 0 {
      return buffer + LE(0, 4);
    }
    var count := CountPrefix(iovs, size);
    b := buffer + LE(U32(count), 4);
    ConcatAssoc(buffer, LE(U32(count), 4), EncodeEach(Blob, Raws(Written(iovs, size))));
    b := AppendPrefix(b, iovs, size);
  }

  // ----- when they agree

  /** What a read of `size` bytes should record of its vectors. */
  function Recorded(iovs: seq<bytes>, size: nat): seq<bytes> { if 0 < size < TWO31 then Prefix(iovs, size) else [] }

  /** The vector that completes `size` bytes is the last, or the sum, cut to 32 bits, tells so. */
  predicate CountStops(iovs: seq<bytes>, size: nat, total: nat) {
    iovs == [] ||
    var sum := total + |iovs[0]|;
    if sum >= size then |iovs| == 1 || U32(sum) >= size else CountStops(iovs[1..], size, sum)
  }

  /** The length of the vector that completes `size` bytes, cut to 32 bits, tells so. */
  predicate WriteStops(iovs: seq<bytes>, size: nat) {
    iovs == [] || if |iovs[0]| >= size then size <= U32(|iovs[0]|) else WriteStops(iovs[1..], size - |iovs[0]|)
  }

  predicate Agree(iovs: seq<bytes>, size: nat) { 0 < size < TWO31 ==> CountStops(iovs, size, 0) && WriteStops(iovs, size) }

  /** The count is the number of vectors needed if and only if the sum does not wrap at the last
      of them. */
  lemma {:induction false} CountExactly(iovs: seq<bytes>, size: nat, total: nat)
    requires total < size < TWO32
    ensures Counted(iovs, size, total) == |Prefix(iovs, size - total)| <==> CountStops(iovs, size, total)
  {
    if iovs != [] {
      var sum := total + |iovs[0]|;
      if sum < size {
        U32Small(sum);
        CountExactly(iovs[1..], size, sum);
      }
    }
  }

  /** The vectors written are those needed if and only if the length of the last of them does
      not wrap. */
  lemma {:induction false} WriteExactly(iovs: seq<bytes>, size: nat)
    requires 0 < size < TWO32
    ensures Written(iovs, size) == Prefix(iovs, size) <==> WriteStops(iovs, size)
  {
    if iovs != [] {
      var n := |iovs[0]|;
      U32Below(n);
      if n < size {
        U32Small(n);
        WriteExactly(iovs[1..], size - n);
        assert Written(iovs, size)[1..] == Written(iovs[1..], size - n) && Prefix(iovs, size)[1..] == Prefix(iovs[1..], size - n);
      } else if U32(n) < size {
        if n == size { U32Small(n); }
        assert Written(iovs, size)[0] == iovs[0] && Prefix(iovs, size)[0] == iovs[0][..size];
      }
    }
  }

  lemma {:induction false} AgreeEncodes(iovs: seq<bytes>, size: nat)
    ensures Agree(iovs, size) ==>
      Encode(Vector(Blob), List(Raws(Recorded(iovs, size)))) ==
        if 0 < size < TWO31 then LE(U32(Counted(iovs, size, 0)), 4) + EncodeEach(Blob, Raws(Written(iovs, size))) else LE(0, 4)
  {
    if 0 < size < TWO31 {
      CountExactly(iovs, size, 0);
      WriteExactly(iovs, size);
    } else {
      assert LE(0, 4) + [] == LE(0, 4);
    }
  }

  /** Both hold when the vectors together have fewer than 2^32 bytes. */
  lemma {:induction false} ShortAgree(iovs: seq<bytes>, size: nat, total: nat)
    requires total + |Concat(iovs)| < TWO32 && total < size
    ensures CountStops(iovs, size, total) && WriteStops(iovs, size - total)
  {
    if iovs != [] {
      U32Small(total + |iovs[0]|);
      U32Small(|iovs[0]|);
      if total + |iovs[0]| < size { ShortAgree(iovs[1..], size, total + |iovs[0]|); }
    }
  }

  /** With more they may not: here three vectors are counted and two written. */
  lemma {:induction false} SumWraps(big: bytes)
    requires |big| == TWO32 - 1
    ensures Counted([[0], big, [0]], 2, 0) == 3 && |Written([[0], big, [0]], 2)| == 2
  {
    var iovs: seq<bytes> := [[0], big, [0]];
    assert iovs[1..] == [big, [0]] && iovs[1..][1..] == [[0]];
    assert Counted([[0]], 2, TWO32) == 1;
    assert Counted(iovs[1..], 2, 1) == 2;
    assert Written(iovs[1..], 1) == [big[..1]];
  }

  lemma {:induction false} RawsFit(iovs: seq<bytes>, n: nat)
    requires |Concat(iovs)| <= n
    ensures forall i :: 0 <= i < |iovs| ==> Raws(iovs)[i] == Raw(iovs[i]) && |iovs[i]| <= n
  {
    if iovs != [] {
      RawsFit(iovs[1..], n);
      forall i | 0 < i < |iovs| ensures Raws(iovs)[i] == Raw(iovs[i]) && |iovs[i]| <= n { assert iovs[i] == iovs[1..][i - 1]; }
    }
  }

  /** Decoding gives vectors that are together exactly the first `size` bytes of the input,
      for every size that is not negative as a signed number. */
  lemma {:induction false} PrefixRoundTrip(iovs: seq<bytes>, size: nat, rest: bytes)
    requires size <= |Concat(iovs)| && |iovs| < TWO32 && size < TWO31
    requires |Encode(Vector(Blob), List(Raws(Recorded(iovs, size))))| + |rest| < TWO32
    ensures var p := Recorded(iovs, size);
      && Decode(Vector(Blob), Encode(Vector(Blob), List(Raws(p))) + rest) == Ok(List(Raws(p)), rest)
      && Concat(p) == Concat(iovs)[..size]
  {
    var p := Recorded(iovs, size);
    if size > 0 { PrefixConcat(iovs, size); }
    RawsFit(p, size);
    RoundTrip(Vector(Blob), List(Raws(p)), rest);
  }

  /** A size of 2^31 or more is taken for an error: nothing is recorded, so the record holds the
      bytes that were read exactly when there were none or the size is below that. */
  lemma {:induction false} RecordedExactly(iovs: seq<bytes>, size: nat)
    requires size <= |Concat(iovs)|
    ensures Concat(Recorded(iovs, size)) == Concat(iovs)[..size] <==> size < TWO31
  {
    if 0 < size < TWO31 { PrefixConcat(iovs, size); }
  }

  // ----- whole calls

  /** Calls that record only what was read into their vectors, which are their third field. */
  predicate Reads(c: Calls.Syscall) { c.FDRead? || c.FDPread? || c.SockRecv? || c.SockRecvFrom? }

  const VECTORS: nat := 2

  /** The field with the number of bytes read. */
  function SizeField(c: Calls.Syscall): nat { if c.FDRead? then 3 else 4 }

  /** The fields of such a call, its vectors replaced by what should be recorded of them. */
  function RecordedFields(vs: seq<Value>, iovs: seq<bytes>, size: nat): seq<Value>
    requires |vs| > VECTORS
  {
    vs[VECTORS := List(Raws(Recorded(iovs, size)))]
  }

  lemma {:induction false} FieldsAppend(fs: seq<Layout>, gs: seq<Layout>, vs: seq<Value>, ws: seq<Value>)
    requires |fs| == |vs| && |gs| == |ws|
    ensures EncodeFields(fs + gs, vs + ws) == EncodeFields(fs, vs) + EncodeFields(gs, ws)
    decreases |fs|
  {
    if fs == [] {
      assert fs + gs == gs && vs + ws == ws;
    } else {
      assert (fs + gs)[1..] == fs[1..] + gs && (vs + ws)[1..] == vs[1..] + ws;
      FieldsAppend(fs[1..], gs, vs[1..], ws);
      ConcatAssoc(Encode(fs[0], vs[0]), EncodeFields(fs[1..], vs[1..]), EncodeFields(gs, ws));
    }
  }

  lemma {:induction false} OneFieldEncodes(l: Layout, v: Value)
    ensures EncodeFields([l], [v]) == Encode(l, v)
  {
    assert [l][1..] == [] && [v][1..] == [];
    assert Encode(l, v) + [] == Encode(l, v);
  }

  lemma {:induction false} FieldsAround(fs: seq<Layout>, vs: seq<Value>)
    requires |fs| == |vs| > VECTORS
    ensures EncodeFields(fs, vs) ==
      EncodeFields(fs[..VECTORS], vs[..VECTORS]) + Encode(fs[VECTORS], vs[VECTORS]) + EncodeFields(fs[VECTORS + 1..], vs[VECTORS + 1..])
  {
    assert fs == fs[..VECTORS + 1] + fs[VECTORS + 1..] && vs == vs[..VECTORS + 1] + vs[VECTORS + 1..];
    assert fs[..VECTORS + 1] == fs[..VECTORS] + [fs[VECTORS]] && vs[..VECTORS + 1] == vs[..VECTORS] + [vs[VECTORS]];
    FieldsAppend(fs[..VECTORS + 1], fs[VECTORS + 1..], vs[..VECTORS + 1], vs[VECTORS + 1..]);
    FieldsAppend(fs[..VECTORS], [fs[VECTORS]], vs[..VECTORS], [vs[VECTORS]]);
    OneFieldEncodes(fs[VECTORS], vs[VECTORS]);
  }

  /** Encodes the fields before the vectors, the vectors as far as they were read into, and the
      fields after them. */
  method EncodeAround(before: seq<Layout>, after: seq<Layout>, vs: seq<Value>, iovs: seq<bytes>, size: nat) returns (b: bytes)
    requires |before| == VECTORS && |vs| == VECTORS + 1 + |after| && size < TWO32
    ensures Agree(iovs, size) ==> b == EncodeFields(before + [Vector(Blob)] + after, RecordedFields(vs, iovs, size))
  {
    ghost var ls, ws := before + [Vector(Blob)] + after, RecordedFields(vs, iovs, size);
    assert ls[..VECTORS] == before && ls[VECTORS] == Vector(Blob) && ls[VECTORS + 1..] == after;
    assert ws[..VECTORS] == vs[..VECTORS] && ws[VECTORS + 1..] == vs[VECTORS + 1..];
    FieldsAround(ls, ws);
    b := EncodeFields(before, vs[..VECTORS]);
    b := EncodeIOVecsPrefix(b, iovs, size);
    b := b + EncodeFields(after, vs[VECTORS + 1..]);
  }

  function ReadLayouts(abi: Calls.Abi, c: Calls.Syscall): seq<Layout> { Calls.Layouts(abi, Calls.Encoder(c)) }

  lemma {:induction false} ReadShape(abi: Calls.Abi, c: Calls.Syscall)
    requires Reads(c)
    ensures var ls := ReadLayouts(abi, c);
      |ls| > SizeField(c) > VECTORS && ls == ls[..VECTORS] + [Vector(Blob)] + ls[VECTORS + 1..]
  {
    var ls := ReadLayouts(abi, c);
    assert ls[VECTORS] == Vector(Blob);
  }

  method EncodeRead(abi: Calls.Abi, c: Calls.Syscall, vs: seq<Value>, iovs: seq<bytes>, size: nat) returns (b: bytes)
    requires Reads(c) && |vs| == |ReadLayouts(abi, c)| > VECTORS && size < TWO32
    ensures Agree(iovs, size) ==> b == Calls.EncodeCall(abi, c, RecordedFields(vs, iovs, size))
  {
    ReadShape(abi, c);
    var ls := ReadLayouts(abi, c);
    b := EncodeAround(ls[..VECTORS], ls[VECTORS + 1..], vs, iovs, size);
  }

  /** The record of a read decodes to the same call, with vectors that are together exactly the
      bytes that were read. */
  lemma {:induction false} ReadRoundTrip(abi: Calls.Abi, c: Calls.Syscall, vs: seq<Value>, iovs: seq<bytes>, size: nat, rest: bytes)
    requires Reads(c) && |vs| > SizeField(c) && vs[SizeField(c)] == Num(size) && size <= |Concat(iovs)| && size < TWO31
    requires var ws := RecordedFields(vs, iovs, size); Calls.Sensible(abi) && Calls.CallHolds(abi, c, ws) && |Calls.EncodeCall(abi, c, ws)| + |rest| < TWO32
    ensures var ws := RecordedFields(vs, iovs, size);
      && Calls.DecodeCall(abi, c, Calls.EncodeCall(abi, c, ws) + rest) == Ok(List(ws), rest)
      && ws[SizeField(c)] == Num(size) && ws[VECTORS] == List(Raws(Recorded(iovs, size)))
      && Concat(Recorded(iovs, size)) == Concat(iovs)[..size]
  {
    RecordedExactly(iovs, size);
    Calls.CallRoundTrip(abi, c, RecordedFields(vs, iovs, size), rest);
  }
}

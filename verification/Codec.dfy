/** The binary codec of system calls (internal/timemachine/wasicall/codec.go).

    A layout says how a value is written: numbers, byte strings, vectors, fields one after the
    other, and a tag that selects the rest.  Every type and every call of the codec is such a
    layout, and what holds of encoding and decoding is proved for all of them at once. */
module Codec {
  import opened Basics
  import opened Bytes

  /** The width of a type that is written in 32 bits. */
  type Bits = n: nat | n <= 32

  datatype Layout =
    | Word | Long | Int                      // 32 bits, 64 bits, 64 bits signed
    | Narrow(bits: Bits)                     // written in 32 bits, of which reading keeps the low ones
    | Blob                                   // encodeBytes, encodeString
    | Fixed(size: nat)
    | Vector(elem: Layout)
    | Fields(fields: seq<Layout>)
    | Tagged(tag: Layout, cases: map<int, Layout>)

  datatype Value =
    | Num(num: int)
    | Raw(raw: bytes)
    | List(items: seq<Value>)
    | Case(tag: int, item: Value)

  datatype Error = ShortBuffer | Invalid

  datatype Result<+T> = Ok(value: T, rest: bytes) | Err(error: Error) {
    predicate IsFailure() { Err? }
    function PropagateFailure<U>(): Result<U>
      requires Err?
    {
      Err(error)
    }
    function Extract(): (T, bytes)
      requires Ok?
    {
      (value, rest)
    }
  }

  // ----- which values a layout is for

  predicate NumFits(l: Layout, x: int) {
    match l
    case Word => 0 <= x < TWO32
    case Narrow(n) => 0 <= x < Pow2(n)
    case Long => 0 <= x < TWO64
    case Int => -TWO63 <= x < TWO63
    case _ => false
  }

  ghost predicate Fits(l: Layout, v: Value)
    decreases l, 0
  {
    match l
    case Word => v.Num? && NumFits(l, v.num)
    case Narrow(_) => v.Num? && NumFits(l, v.num)
    case Long => v.Num? && NumFits(l, v.num)
    case Int => v.Num? && NumFits(l, v.num)
    case Blob => v.Raw? && |v.raw| < TWO32
    case Fixed(n) => v.Raw? && |v.raw| == n
    case Vector(e) => v.List? && |v.items| < TWO32 && forall i :: 0 <= i < |v.items| ==> Fits(e, v.items[i])
    case Fields(fs) => v.List? && |v.items| == |fs| && forall i :: 0 <= i < |fs| ==> Fits(fs[i], v.items[i])
    case Tagged(t, cs) => v.Case? && NumFits(t, v.tag) && v.tag in cs && Fits(cs[v.tag], v.item)
  }

  // ----- encoding

  function NumSize(l: Layout): nat { if l.Word? || l.Narrow? then 4 else 8 }

  function EncodeNum(l: Layout, x: int): bytes { if NumSize(l) == 4 then LE(U32(x), 4) else LE(U64(x), 8) }

  function EncodeBlob(b: bytes): bytes { LE(U32(|b|), 4) + b }

  function Encode(l: Layout, v: Value): bytes
    decreases l, 0, 0
  {
    match l
    case Blob => if v.Raw? then EncodeBlob(v.raw) else []
    case Fixed(_) => if v.Raw? then v.raw else []
    case Vector(e) => if v.List? then LE(U32(|v.items|), 4) + EncodeEach(e, v.items) else []
    case Fields(fs) => if v.List? then EncodeFields(fs, v.items) else []
    case Tagged(t, cs) => if v.Case? && v.tag in cs then EncodeNum(t, v.tag) + Encode(cs[v.tag], v.item) else []
    case _ => if v.Num? then EncodeNum(l, v.num) else []
  }

  function EncodeEach(e: Layout, vs: seq<Value>): bytes
    decreases e, 1, |vs|
  {
    if vs == [] then [] else Encode(e, vs[0]) + EncodeEach(e, vs[1..])
  }

  function EncodeFields(fs: seq<Layout>, vs: seq<Value>): bytes
    decreases fs, 1, |vs|
  {
    if fs == [] || vs == [] then [] else Encode(fs[0], vs[0]) + EncodeFields(fs[1..], vs[1..])
  }

  // ----- decoding

  function DecodeNum(l: Layout, b: bytes): (r: Result<int>)
    ensures r.Ok? && !l.Int? ==> r.value >= 0
  {
    var k := NumSize(l);
    if |b| < k then Err(ShortBuffer)
    else
      var x := FromLE(b[..k]);
      Ok(match l case Int => S64(x) case Narrow(n) => x % Pow2(n) case _ => x, b[k..])
  }

  lemma {:induction false} U32Below(x: nat)
    ensures U32(x) <= x
  {
  }

  /** The length of what is left is compared in 32 bits. */
  function DecodeBlob(b: bytes): Result<bytes> {
    var (n, b1) :- DecodeNum(Word, b);
    if U32(|b1|) < n then Err(ShortBuffer)
    else
      U32Below(|b1|);
      Ok(b1[..n], b1[n..])
  }

  function Decode(l: Layout, b: bytes): Result<Value>
    decreases l, 0, 0
  {
    match l
    case Blob => var (x, rest) :- DecodeBlob(b); Ok(Raw(x), rest)
    case Fixed(n) => if |b| < n then Err(Invalid) else Ok(Raw(b[..n]), b[n..])
    case Vector(e) =>
      var (n, b1) :- DecodeNum(Word, b);
      var (vs, rest) :- DecodeEach(e, n, b1);
      Ok(List(vs), rest)
    case Fields(fs) => var (vs, rest) :- DecodeFields(fs, b); Ok(List(vs), rest)
    case Tagged(t, cs) =>
      var (tag, b1) :- DecodeNum(t, b);
      if tag !in cs then Err(Invalid)
      else
        var (w, rest) :- Decode(cs[tag], b1);
        Ok(Case(tag, w), rest)
    case _ => var (x, rest) :- DecodeNum(l, b); Ok(Num(x), rest)
  }

  function DecodeEach(e: Layout, n: nat, b: bytes): Result<seq<Value>>
    decreases e, 1, n
  {
    if n == 0 then Ok([], b)
    else
      var (v, b1) :- Decode(e, b);
      var (vs, rest) :- DecodeEach(e, n - 1, b1);
      Ok([v] + vs, rest)
  }

  function DecodeFields(fs: seq<Layout>, b: bytes): Result<seq<Value>>
    decreases fs, 1, 0
  {
    if fs == [] then Ok([], b)
    else
      var (v, b1) :- Decode(fs[0], b);
      var (vs, rest) :- DecodeFields(fs[1..], b1);
      Ok([v] + vs, rest)
  }

  // ----- decoding gives back what was encoded, and what follows it

  lemma {:induction false} NarrowBound(n: Bits)
    ensures Pow2(n) <= TWO32
  {
    Pow2s();
    Pow2Monotone(n, 32);
  }

  lemma {:induction false} WordRoundTrip(x: nat, rest: bytes)
    requires x < TWO32
    ensures var b := LE(U32(x), 4) + rest; |b| >= 4 && FromLE(b[..4]) == x && b[4..] == rest
  {
    Powers();
    U32Small(x);
    TakeLEOfLE(x, 4, rest);
  }

  lemma {:induction false} LongRoundTrip(x: int, rest: bytes)
    requires -TWO63 <= x < TWO64
    ensures var b := LE(U64(x), 8) + rest; |b| >= 8 && FromLE(b[..8]) == U64(x) && b[8..] == rest
  {
    Powers();
    TakeLEOfLE(U64(x), 8, rest);
  }

  lemma {:induction false} NarrowRoundTrip(n: Bits, x: nat, rest: bytes)
    requires x < Pow2(n)
    ensures var b := LE(U32(x), 4) + rest; |b| >= 4 && FromLE(b[..4]) % Pow2(n) == x && b[4..] == rest
  {
    NarrowBound(n);
    WordRoundTrip(x, rest);
    SmallMod(x, Pow2(n));
  }

  lemma {:induction false} NumRoundTrip(l: Layout, x: int, rest: bytes)
    requires NumFits(l, x)
    ensures DecodeNum(l, EncodeNum(l, x) + rest) == Ok(x, rest)
  {
    match l
    case Word => WordRoundTrip(x, rest);
    case Narrow(n) => NarrowRoundTrip(n, x, rest);
    case Int =>
      LongRoundTrip(x, rest);
      SignedUnsigned(x);
    case Long => LongRoundTrip(x, rest);
  }

  /** Numbers are written lowest byte first, in four bytes or in eight. */
  lemma {:induction false} NumOnWire(l: Layout, x: int, i: nat)
    requires NumFits(l, x) && i < |EncodeNum(l, x)|
    ensures |EncodeNum(l, x)| == if l.Word? || l.Narrow? then 4 else 8
    ensures EncodeNum(l, x)[i] == x / Pow256(i) % 256
  {
    match l
    case Word => WordOnWire(x, i);
    case Narrow(n) =>
      NarrowBound(n);
      WordOnWire(x, i);
    case Long =>
      assert U64(x) == x;
      LEByte(U64(x), 8, i);
    case Int =>
      LEByte(U64(x), 8, i);
      SignedByte(x, i);
  }

  lemma {:induction false} WordOnWire(x: nat, i: nat)
    requires x < TWO32 && i < 4
    ensures LE(U32(x), 4)[i] == x / Pow256(i) % 256
  {
    U32Small(x);
    LEByte(x, 4, i);
  }

  /** The bytes of a negative number are those of its pattern. */
  lemma {:induction false} SignedByte(x: int, i: nat)
    requires -TWO63 <= x < TWO63 && i < 8
    ensures U64(x) / Pow256(i) % 256 == x / Pow256(i) % 256
  {
    if x < 0 {
      assert U64(x) == x + TWO64;
      Pow256Sum(i, 8 - i);
      Pow256Sum(1, 7 - i);
      Powers();
      var p, m := Pow256(i), Pow256(7 - i);
      assert TWO64 == p * (256 * m);
      ShiftDiv(x, p, 256 * m);
      ShiftMod(x / p, 256, m);
    }
  }

  lemma {:induction false} ShiftDiv(x: int, p: nat, k: nat)
    requires p > 0
    ensures (x + p * k) / p == x / p + k
  {
    assert (x / p + k) * p == x / p * p + p * k;
    DivIs(x + p * k, p, x / p + k);
  }

  lemma {:induction false} ShiftMod(x: int, p: nat, k: nat)
    requires p > 0
    ensures (x + p * k) % p == x % p
  {
    assert (x / p + k) * p == x / p * p + p * k;
    DivIs(x + p * k, p, x / p + k);
  }

  lemma {:induction false} BlobRoundTrip(x: bytes, rest: bytes)
    requires |x| + |rest| < TWO32
    ensures DecodeBlob(EncodeBlob(x) + rest) == Ok(x, rest)
  {
    U32Small(|x|);
    U32Small(|x + rest|);
    ConcatAssoc(LE(|x|, 4), x, rest);
    NumRoundTrip(Word, |x|, x + rest);
    assert (x + rest)[..|x|] == x && (x + rest)[|x|..] == rest;
  }

  lemma {:induction false} RoundTrip(l: Layout, v: Value, rest: bytes)
    requires Fits(l, v) && |Encode(l, v)| + |rest| < TWO32
    ensures Decode(l, Encode(l, v) + rest) == Ok(v, rest)
    decreases l, 0, 0
  {
    match l
    case Blob => BlobRoundTrip(v.raw, rest);
    case Fixed(n) => assert (v.raw + rest)[..n] == v.raw && (v.raw + rest)[n..] == rest;
    case Vector(e) =>
      NumRoundTrip(Word, |v.items|, EncodeEach(e, v.items) + rest);
      ConcatAssoc(LE(U32(|v.items|), 4), EncodeEach(e, v.items), rest);
      EachRoundTrip(e, v.items, rest);
    case Fields(fs) => FieldsRoundTrip(fs, v.items, rest);
    case Tagged(t, cs) =>
      NumRoundTrip(t, v.tag, Encode(cs[v.tag], v.item) + rest);
      ConcatAssoc(EncodeNum(t, v.tag), Encode(cs[v.tag], v.item), rest);
      RoundTrip(cs[v.tag], v.item, rest);
    case _ => NumRoundTrip(l, v.num, rest);
  }

  lemma {:induction false} EachRoundTrip(e: Layout, vs: seq<Value>, rest: bytes)
    requires (forall i :: 0 <= i < |vs| ==> Fits(e, vs[i])) && |EncodeEach(e, vs)| + |rest| < TWO32
    ensures DecodeEach(e, |vs|, EncodeEach(e, vs) + rest) == Ok(vs, rest)
    decreases e, 1, |vs|
  {
    if vs != [] {
      var more := EncodeEach(e, vs[1..]);
      ConcatAssoc(Encode(e, vs[0]), more, rest);
      RoundTrip(e, vs[0], more + rest);
      EachRoundTrip(e, vs[1..], rest);
      EachCons(e, vs, EncodeEach(e, vs) + rest, more + rest, rest);
    }
  }

  lemma {:induction false} EachCons(e: Layout, vs: seq<Value>, b: bytes, b1: bytes, rest: bytes)
    requires vs != [] && Decode(e, b) == Ok(vs[0], b1) && DecodeEach(e, |vs| - 1, b1) == Ok(vs[1..], rest)
    ensures DecodeEach(e, |vs|, b) == Ok(vs, rest)
  {
    assert [vs[0]] + vs[1..] == vs;
  }

  lemma {:induction false} FieldsRoundTrip(fs: seq<Layout>, vs: seq<Value>, rest: bytes)
    requires |fs| == |vs| && (forall i :: 0 <= i < |fs| ==> Fits(fs[i], vs[i])) && |EncodeFields(fs, vs)| + |rest| < TWO32
    ensures DecodeFields(fs, EncodeFields(fs, vs) + rest) == Ok(vs, rest)
    decreases fs, 1, |vs|
  {
    if fs != [] {
      var more := EncodeFields(fs[1..], vs[1..]);
      ConcatAssoc(Encode(fs[0], vs[0]), more, rest);
      RoundTrip(fs[0], vs[0], more + rest);
      FieldsRoundTrip(fs[1..], vs[1..], rest);
      assert [vs[0]] + vs[1..] == vs;
    }
  }

  /** A byte string reads back exactly when its length has 32 bits and the length of what is
      left to read, cut to 32 bits, still reaches it. */
  lemma {:induction false} BlobRoundTripExactly(x: bytes, rest: bytes)
    ensures DecodeBlob(EncodeBlob(x) + rest) == Ok(x, rest) <==> |x| < TWO32 && |x| <= U32(|x| + |rest|)
  {
    var n := U32(|x|);
    ConcatAssoc(LE(n, 4), x, rest);
    NumRoundTrip(Word, n, x + rest);
    assert EncodeNum(Word, n) == LE(n, 4) by { U32Small(n); }
    U32Below(|x + rest|);
    if |x| < TWO32 {
      U32Small(|x|);
      assert (x + rest)[..|x|] == x && (x + rest)[|x|..] == rest;
    }
  }

  /** How decoding fails at the first thing it reads: buffers too short for a number or a string are
      told from addresses of the wrong length and from unknown tags. */
  lemma {:induction false} Failures(l: Layout, b: bytes)
    ensures l.Word? || l.Narrow? ==> (Decode(l, b).Err? <==> |b| < 4)
    ensures l.Long? || l.Int? ==> (Decode(l, b).Err? <==> |b| < 8)
    ensures l.Word? || l.Narrow? || l.Long? || l.Int? || l.Blob? ==> Decode(l, b).Err? ==> Decode(l, b) == Err(ShortBuffer)
    ensures l.Fixed? ==> (Decode(l, b).Err? <==> |b| < l.size) && (Decode(l, b).Err? ==> Decode(l, b) == Err(Invalid))
    ensures l.Tagged? && DecodeNum(l.tag, b).Ok? && DecodeNum(l.tag, b).value !in l.cases ==> Decode(l, b) == Err(Invalid)
  {
  }

  // ----- what decodes was encoded

  /** Layouts whose tags are numbers. */
  ghost predicate Proper(l: Layout) {
    match l
    case Vector(e) => Proper(e)
    case Fields(fs) => forall i :: 0 <= i < |fs| ==> Proper(fs[i])
    case Tagged(t, cs) => (t.Word? || t.Narrow? || t.Long? || t.Int?) && forall c :: c in cs ==> Proper(cs[c])
    case _ => true
  }

  /** The bits that reading a narrow number drops are zero. */
  predicate NumClean(l: Layout, b: bytes) { l.Narrow? && |b| >= 4 ==> FromLE(b[..4]) < Pow2(l.bits) }

  /** So are those of all narrow numbers in the bytes that a value is decoded from. */
  predicate Clean(l: Layout, b: bytes)
    decreases l, 0, 0
  {
    match l
    case Vector(e) => (match DecodeNum(Word, b) case Ok(n, b1) => CleanEach(e, n, b1) case Err(_) => true)
    case Fields(fs) => CleanFields(fs, b)
    case Tagged(t, cs) =>
      NumClean(t, b) && (match DecodeNum(t, b) case Ok(tag, b1) => tag in cs ==> Clean(cs[tag], b1) case Err(_) => true)
    case _ => NumClean(l, b)
  }

  predicate CleanEach(e: Layout, n: nat, b: bytes)
    decreases e, 1, n
  {
    n > 0 ==> Clean(e, b) && match Decode(e, b) case Ok(_, b1) => CleanEach(e, n - 1, b1) case Err(_) => true
  }

  predicate CleanFields(fs: seq<Layout>, b: bytes)
    decreases fs, 1, 0
  {
    fs != [] ==> Clean(fs[0], b) && match Decode(fs[0], b) case Ok(_, b1) => CleanFields(fs[1..], b1) case Err(_) => true
  }

  /** An encoding has the length of the bytes before `rest`, and is those bytes if and only if
      they are clean. */
  ghost predicate Rebuilds(enc: bytes, rest: bytes, b: bytes, clean: bool) {
    |enc| <= |b| && rest == b[|enc|..] && (enc == b[..|enc|] <==> clean)
  }

  lemma {:induction false} RebuildsBoth(x: bytes, b1: bytes, b: bytes, c: bool, y: bytes, rest: bytes, d: bool)
    requires Rebuilds(x, b1, b, c) && Rebuilds(y, rest, b1, d)
    ensures Rebuilds(x + y, rest, b, c && d)
  {
    assert b[..|x + y|] == b[..|x|] + b1[..|y|];
    assert b[|x + y|..] == b1[|y|..];
    assert (x + y)[..|x|] == x && (x + y)[|x|..] == y;
    assert (b[..|x|] + b1[..|y|])[..|x|] == b[..|x|] && (b[..|x|] + b1[..|y|])[|x|..] == b1[..|y|];
  }

  lemma {:induction false} RebuildsAll(enc: bytes, rest: bytes, b: bytes, clean: bool)
    requires Rebuilds(enc, rest, b, clean)
    ensures enc + rest == b <==> clean
  {
    assert b[..|enc|] + b[|enc|..] == b;
    assert (enc + rest)[..|enc|] == enc;
  }

  lemma {:induction false} NumCanonical(l: Layout, b: bytes)
    requires DecodeNum(l, b).Ok? && (l.Word? || l.Narrow? || l.Long? || l.Int?)
    ensures var r := DecodeNum(l, b); NumFits(l, r.value) && Rebuilds(EncodeNum(l, r.value), r.rest, b, NumClean(l, b))
  {
    match l
    case Word => WordCanonical(b[..4]);
    case Narrow(n) => NarrowCanonical(n, b[..4]);
    case Long => LongCanonical(b[..8]);
    case Int => LongCanonical(b[..8]);
  }

  lemma {:induction false} WordCanonical(b: bytes)
    requires |b| == 4
    ensures FromLE(b) < TWO32 && LE(U32(FromLE(b)), 4) == b
  {
    Powers();
    LEOfFromLE(b);
    U32Small(FromLE(b));
  }

  lemma {:induction false} LongCanonical(b: bytes)
    requires |b| == 8
    ensures var x := FromLE(b); x < TWO64 && LE(U64(x), 8) == b && LE(U64(S64(x)), 8) == b
  {
    Powers();
    LEOfFromLE(b);
    assert U64(FromLE(b)) == FromLE(b) && U64(S64(FromLE(b))) == FromLE(b);
  }

  lemma {:induction false} NarrowCanonical(n: Bits, b: bytes)
    requires |b| == 4
    ensures var x := FromLE(b); x % Pow2(n) < Pow2(n) && (LE(U32(x % Pow2(n)), 4) == b <==> x < Pow2(n))
  {
    var x := FromLE(b);
    Powers();
    NarrowBound(n);
    LEOfFromLE(b);
    U32Small(x % Pow2(n));
    FromLEOfLE(x % Pow2(n), 4);
    if x < Pow2(n) { SmallMod(x, Pow2(n)); }
  }

  lemma {:induction false} BlobCanonical(b: bytes)
    requires DecodeBlob(b).Ok?
    ensures var r := DecodeBlob(b); |r.value| < TWO32 && Rebuilds(EncodeBlob(r.value), r.rest, b, true)
  {
    NumCanonical(Word, b);
    var (n, b1) := DecodeNum(Word, b).Extract();
    U32Below(|b1|);
    U32Small(n);
    assert Rebuilds(b1[..n], b1[n..], b1, true);
    RebuildsBoth(LE(n, 4), b1, b, true, b1[..n], b1[n..], true);
  }

  /** What decodes, encoded again, has the same length, and is the same bytes if and only if
      these are clean: two byte strings stand for one value only by bits that reading drops. */
  lemma {:induction false} Canonical(l: Layout, b: bytes)
    requires Proper(l) && Decode(l, b).Ok?
    ensures var r := Decode(l, b); Fits(l, r.value) && Rebuilds(Encode(l, r.value), r.rest, b, Clean(l, b))
    decreases l, 0, 0
  {
    match l
    case Blob => BlobCanonical(b);
    case Fixed(n) => assert Rebuilds(b[..n], b[n..], b, true);
    case Vector(e) =>
      NumCanonical(Word, b);
      var (n, b1) := DecodeNum(Word, b).Extract();
      U32Small(n);
      EachCanonical(e, n, b1);
      var r := DecodeEach(e, n, b1);
      RebuildsBoth(EncodeNum(Word, n), b1, b, true, EncodeEach(e, r.value), r.rest, CleanEach(e, n, b1));
    case Fields(fs) => FieldsCanonical(fs, b);
    case Tagged(t, cs) =>
      NumCanonical(t, b);
      var (tag, b1) := DecodeNum(t, b).Extract();
      Canonical(cs[tag], b1);
      var r := Decode(cs[tag], b1);
      RebuildsBoth(EncodeNum(t, tag), b1, b, NumClean(t, b), Encode(cs[tag], r.value), r.rest, Clean(cs[tag], b1));
    case _ => NumCanonical(l, b);
  }

  lemma {:induction false} EachCanonical(e: Layout, n: nat, b: bytes)
    requires Proper(e) && DecodeEach(e, n, b).Ok?
    ensures var r := DecodeEach(e, n, b);
      |r.value| == n && (forall i :: 0 <= i < n ==> Fits(e, r.value[i])) && Rebuilds(EncodeEach(e, r.value), r.rest, b, CleanEach(e, n, b))
    decreases e, 1, n
  {
    if n > 0 {
      Canonical(e, b);
      var (v, b1) := Decode(e, b).Extract();
      EachCanonical(e, n - 1, b1);
      var r := DecodeEach(e, n - 1, b1);
      assert ([v] + r.value)[1..] == r.value;
      RebuildsBoth(Encode(e, v), b1, b, Clean(e, b), EncodeEach(e, r.value), r.rest, CleanEach(e, n - 1, b1));
    }
  }

  lemma {:induction false} FieldsCanonical(fs: seq<Layout>, b: bytes)
    requires (forall i :: 0 <= i < |fs| ==> Proper(fs[i])) && DecodeFields(fs, b).Ok?
    ensures var r := DecodeFields(fs, b);
      |r.value| == |fs| && (forall i :: 0 <= i < |fs| ==> Fits(fs[i], r.value[i])) && Rebuilds(EncodeFields(fs, r.value), r.rest, b, CleanFields(fs, b))
    decreases fs, 1, 0
  {
    if fs != [] {
      Canonical(fs[0], b);
      var (v, b1) := Decode(fs[0], b).Extract();
      FieldsCanonical(fs[1..], b1);
      var r := DecodeFields(fs[1..], b1);
      assert ([v] + r.value)[1..] == r.value;
      RebuildsBoth(Encode(fs[0], v), b1, b, Clean(fs[0], b), EncodeFields(fs[1..], r.value), r.rest, CleanFields(fs[1..], b1));
    }
  }

  // ----- what follows does not matter

  lemma {:induction false} NumExtends(l: Layout, a: bytes, more: bytes)
    requires DecodeNum(l, a).Ok?
    ensures var r := DecodeNum(l, a); DecodeNum(l, a + more) == Ok(r.value, r.rest + more)
  {
    var k := NumSize(l);
    assert (a + more)[..k] == a[..k] && (a + more)[k..] == a[k..] + more;
  }

  lemma {:induction false} BlobExtends(a: bytes, more: bytes)
    requires DecodeBlob(a).Ok? && |a + more| < TWO32
    ensures var r := DecodeBlob(a); DecodeBlob(a + more) == Ok(r.value, r.rest + more)
  {
    NumExtends(Word, a, more);
    var (n, a1) := DecodeNum(Word, a).Extract();
    U32Small(|a1|);
    U32Small(|a1 + more|);
    assert (a1 + more)[..n] == a1[..n] && (a1 + more)[n..] == a1[n..] + more;
  }

  /** Bytes that decode still do when more follow. */
  lemma {:induction false} Extends(l: Layout, a: bytes, more: bytes)
    requires Decode(l, a).Ok? && |a + more| < TWO32
    ensures var r := Decode(l, a); Decode(l, a + more) == Ok(r.value, r.rest + more) && |r.rest| <= |a|
    decreases l, 0, 0
  {
    match l
    case Blob => BlobExtends(a, more);
    case Fixed(n) => assert (a + more)[..n] == a[..n] && (a + more)[n..] == a[n..] + more;
    case Vector(e) =>
      NumExtends(Word, a, more);
      var (n, a1) := DecodeNum(Word, a).Extract();
      EachExtends(e, n, a1, more);
    case Fields(fs) => FieldsExtends(fs, a, more);
    case Tagged(t, cs) =>
      NumExtends(t, a, more);
      var (tag, a1) := DecodeNum(t, a).Extract();
      Extends(cs[tag], a1, more);
    case _ => NumExtends(l, a, more);
  }

  lemma {:induction false} EachExtends(e: Layout, n: nat, a: bytes, more: bytes)
    requires DecodeEach(e, n, a).Ok? && |a + more| < TWO32
    ensures var r := DecodeEach(e, n, a); DecodeEach(e, n, a + more) == Ok(r.value, r.rest + more) && |r.rest| <= |a|
    decreases e, 1, n
  {
    if n > 0 {
      Extends(e, a, more);
      EachExtends(e, n - 1, Decode(e, a).rest, more);
    }
  }

  lemma {:induction false} FieldsExtends(fs: seq<Layout>, a: bytes, more: bytes)
    requires DecodeFields(fs, a).Ok? && |a + more| < TWO32
    ensures var r := DecodeFields(fs, a); DecodeFields(fs, a + more) == Ok(r.value, r.rest + more) && |r.rest| <= |a|
    decreases fs, 1, 0
  {
    if fs != [] {
      Extends(fs[0], a, more);
      FieldsExtends(fs[1..], Decode(fs[0], a).rest, more);
    }
  }

  /** Bytes that decode to the last do not when they are cut short. */
  lemma {:induction false} CutFails(l: Layout, b: bytes, k: nat)
    requires Decode(l, b).Ok? && Decode(l, b).rest == [] && k < |b| < TWO32
    ensures Decode(l, b[..k]).Err?
  {
    assert b[..k] + b[k..] == b;
    if Decode(l, b[..k]).Ok? { Extends(l, b[..k], b[k..]); }
  }

  /** An encoding that is cut short does not decode. */
  lemma {:induction false} TruncatedFails(l: Layout, v: Value, k: nat)
    requires Fits(l, v) && k < |Encode(l, v)| < TWO32
    ensures Decode(l, Encode(l, v)[..k]).Err?
  {
    assert Encode(l, v) + [] == Encode(l, v);
    RoundTrip(l, v, []);
    CutFails(l, Encode(l, v), k);
  }

  // ----- loops over vectors

  lemma {:induction false} EachSnoc(e: Layout, vs: seq<Value>, v: Value)
    ensures EncodeEach(e, vs + [v]) == EncodeEach(e, vs) + Encode(e, v)
  {
    if vs == [] {
      assert vs + [v] == [v] && [v][1..] == [];
    } else {
      assert (vs + [v])[1..] == vs[1..] + [v];
      EachSnoc(e, vs[1..], v);
      ConcatAssoc(Encode(e, vs[0]), EncodeEach(e, vs[1..]), Encode(e, v));
    }
  }

  method AppendVector(buffer: bytes, e: Layout, vs: seq<Value>) returns (b: bytes)
    ensures b == buffer + Encode(Vector(e), List(vs))
  {
    ghost var front := buffer + LE(U32(|vs|), 4);
    b := buffer + LE(U32(|vs|), 4);
    for i := 0 to |vs|
      invariant b == front + EncodeEach(e, vs[..i])
    {
      assert vs[..i + 1] == vs[..i] + [vs[i]];
      EachSnoc(e, vs[..i], vs[i]);
      ConcatAssoc(front, EncodeEach(e, vs[..i]), Encode(e, vs[i]));
      b := b + Encode(e, vs[i]);
    }
    assert vs[..|vs|] == vs;
    ConcatAssoc(buffer, LE(U32(|vs|), 4), EncodeEach(e, vs));
  }

  function Prepend(vs: seq<Value>, r: Result<seq<Value>>): Result<seq<Value>> {
    match r case Ok(ws, rest) => Ok(vs + ws, rest) case Err(x) => Err(x)
  }

  lemma {:induction false} PrependTwice(v: Value, vs: seq<Value>, r: Result<seq<Value>>)
    ensures Prepend([v], Prepend(vs, r)) == Prepend([v] + vs, r) && Prepend([], r) == r
  {
    match r
    case Ok(ws, _) => assert [v] + (vs + ws) == [v] + vs + ws && [] + ws == ws;
    case Err(_) =>
  }

  lemma {:induction false} EachStep(e: Layout, n: nat, b: bytes)
    requires n > 0 && Decode(e, b).Ok?
    ensures DecodeEach(e, n, b) == Prepend([Decode(e, b).value], DecodeEach(e, n - 1, Decode(e, b).rest))
  {
  }

  lemma {:induction false} EachSplits(e: Layout, vs: seq<Value>, n: nat, b: bytes, rest: bytes)
    requires |vs| <= n && DecodeEach(e, |vs|, b) == Ok(vs, rest)
    ensures DecodeEach(e, n, b) == Prepend(vs, DecodeEach(e, n - |vs|, rest))
    decreases |vs|
  {
    if vs == [] {
      PrependTwice(Num(0), [], DecodeEach(e, n, rest));
    } else {
      var (v, b1) := Decode(e, b).Extract();
      EachStep(e, |vs|, b);
      EachStep(e, n, b);
      var tail := DecodeEach(e, |vs| - 1, b1).value;
      assert vs == [v] + tail;
      EachSplits(e, tail, n - 1, b1, rest);
      PrependTwice(v, tail, DecodeEach(e, n - |vs|, rest));
    }
  }

  lemma {:induction false} EachOne(e: Layout, b: bytes)
    ensures DecodeEach(e, 1, b) == match Decode(e, b) case Ok(v, r) => Ok([v], r) case Err(x) => Err(x)
  {
    match Decode(e, b)
    case Ok(v, r) => assert DecodeEach(e, 0, r) == Ok([], r); assert [v] + [] == [v];
    case Err(_) =>
  }

  lemma {:induction false} NextItem(e: Layout, vs: seq<Value>, n: nat, b: bytes, rest: bytes)
    requires |vs| < n && DecodeEach(e, |vs|, b) == Ok(vs, rest)
    ensures match Decode(e, rest)
      case Err(x) => DecodeEach(e, n, b) == Err(x)
      case Ok(v, r) => DecodeEach(e, |vs| + 1, b) == Ok(vs + [v], r)
  {
    EachSplits(e, vs, n, b, rest);
    EachSplits(e, vs, |vs| + 1, b, rest);
    EachOne(e, rest);
  }

  method ReadItems(e: Layout, count: nat, buffer: bytes, cached: seq<Value>) returns (r: Result<seq<Value>>)
    ensures r == DecodeEach(e, count, buffer)
  {
    var out, b := if |cached| < count then seq(count, _ => Num(0)) else cached[..count], buffer;
    for i := 0 to count
      invariant |out| == count && DecodeEach(e, i, buffer) == Ok(out[..i], b)
    {
      NextItem(e, out[..i], count, buffer, b);
      var v := Decode(e, b);
      if v.Err? {
        return Err(v.error);
      }
      out, b := out[i := v.value], v.rest;
      assert out[..i + 1] == out[..i] + [v.value];
    }
    assert out[..count] == out;
    return Ok(out, b);
  }

  /** The vector is the same whatever slice the caller passes to be reused. */
  method ReadVector(e: Layout, buffer: bytes, cached: seq<Value>) returns (r: Result<Value>)
    ensures r == Decode(Vector(e), buffer)
  {
    var head := DecodeNum(Word, buffer);
    if head.Err? {
      return Err(head.error);
    }
    var items := ReadItems(e, head.value, head.rest, cached);
    return if items.Err? then Err(items.error) else Ok(List(items.value), items.rest);
  }
}

/** The bit set of internal/ipam/bitset.go.  A 64-bit word is modelled by its bits, lowest
    first. */
module Bitset {
  type Word = w: seq<bool> | |w| == 64 witness seq(64, _ => false)

  const ZERO: Word := seq(64, _ => false)
  const ONES: Word := seq(64, _ => true)

  /** Bit `i` is set; bits past the last word are not. */
  predicate HasBit(b: seq<Word>, i: nat) { i / 64 < |b| && b[i / 64][i % 64] }

  function Grown(b: seq<Word>, n: nat): seq<Word> {
    var k := (n + 63) / 64;
    if k > |b| then b + seq(k - |b|, _ => ZERO) else b
  }

  function WithBit(b: seq<Word>, i: nat, v: bool): seq<Word>
    requires i / 64 < |b|
  {
    b[i / 64 := b[i / 64][i % 64 := v]]
  }

  lemma {:induction false} GrownKeeps(b: seq<Word>, n: nat, i: nat)
    ensures HasBit(Grown(b, n), i) == HasBit(b, i) && (i < n ==> i / 64 < |Grown(b, n)|)
  {
    var k := (n + 63) / 64;
    if k > |b| && |b| <= i / 64 < k { assert Grown(b, n)[i / 64] == ZERO; }
  }

  /** Words and bits number the same positions. */
  lemma {:induction false} SamePlace(i: nat, j: nat)
    requires i / 64 == j / 64 && i % 64 == j % 64
    ensures i == j
  {
  }

  lemma {:induction false} WithBitHas(b: seq<Word>, i: nat, v: bool, j: nat)
    requires i / 64 < |b|
    ensures HasBit(WithBit(b, i, v), j) == if j == i then v else HasBit(b, j)
  {
    if i / 64 == j / 64 && i % 64 == j % 64 { SamePlace(i, j); }
  }

  /** The lowest position from `from` on whose bit is not set. */
  function FirstZero(b: seq<Word>, from: nat): (i: nat)
    ensures from <= i && !HasBit(b, i) && forall j :: from <= j < i ==> HasBit(b, j)
    decreases 64 * |b| - from
  {
    if HasBit(b, from) then FirstZero(b, from + 1) else from
  }

  /** The number of trailing zeros of the complement of a word that is not all ones. */
  method TrailingOnes(w: Word) returns (t: nat)
    requires w != ONES
    ensures t < 64 && !w[t] && forall u :: 0 <= u < t ==> w[u]
  {
    t := 0;
    while t < 64 && w[t]
      invariant t <= 64 && forall u :: 0 <= u < t ==> w[u]
    {
      t := t + 1;
    }
    assert t == 64 ==> w == ONES;
  }

  lemma {:induction false} FullWord(b: seq<Word>, k: nat, j: nat)
    requires k < |b| && b[k] == ONES && 64 * k <= j < 64 * k + 64
    ensures HasBit(b, j)
  {
  }

  class BitSet {
    var words: array<Word>

    constructor ()
      ensures fresh(words) && words.Length == 0
    {
      words := new Word[0];
    }

    method Clear()
      modifies words
      ensures words[..] == seq(words.Length, _ => ZERO)
    {
      for i := 0 to words.Length
        invariant forall k :: 0 <= k < i ==> words[k] == ZERO
      {
        words[i] := ZERO;
      }
    }

    method Grow(n: nat)
      modifies this
      ensures words[..] == Grown(old(words[..]), n) && (words == old(words) || fresh(words))
    {
      var k := (n + 63) / 64;
      if k > words.Length {
        var bits := new Word[k](_ => ZERO);
        for i := 0 to words.Length
          invariant words == old(words) && words[..] == old(words[..])
          invariant forall j :: 0 <= j < i ==> bits[j] == words[j]
          invariant forall j :: i <= j < k ==> bits[j] == ZERO
        {
          bits[i] := words[i];
        }
        words := bits;
      }
    }

    method Set(i: nat)
      requires i / 64 < words.Length
      modifies words
      ensures words[..] == WithBit(old(words[..]), i, true)
    {
      words[i / 64] := words[i / 64][i % 64 := true];
    }

    method Unset(i: nat)
      requires i / 64 < words.Length
      modifies words
      ensures words[..] == WithBit(old(words[..]), i, false)
    {
      words[i / 64] := words[i / 64][i % 64 := false];
    }

    method FindFirstZeroBit() returns (i: nat)
      ensures i == FirstZero(words[..], 0)
    {
      var k := 0;
      while k < words.Length
        invariant k <= words.Length && forall j :: 0 <= j < 64 * k ==> HasBit(words[..], j)
      {
        if words[k] != ONES {
          var t := TrailingOnes(words[k]);
          i := 64 * k + t;
          forall j | 64 * k <= j < i ensures HasBit(words[..], j) {
            assert words[k][j - 64 * k] && j / 64 == k && j % 64 == j - 64 * k;
          }
          assert i / 64 == k && i % 64 == t && !HasBit(words[..], i);
          return;
        }
        forall j | 64 * k <= j < 64 * (k + 1) ensures HasBit(words[..], j) { FullWord(words[..], k, j); }
        k := k + 1;
      }
      i := 64 * words.Length;
      assert !HasBit(words[..], i);
    }
  }
}

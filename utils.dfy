/** A 32-bit integer mixing function and its use to hash a byte slice. */
module Shuffles {
  import opened Ints

  /** Two rounds of xor-shift and multiply by 0x45d9f3 (wrapping), then a last xor-shift. */
  function Shuffle(x: u32): (r: bv32)
    ensures x == 0 ==> r == 0
  {
    ShuffleBits(x as bv32)
  }

  function ShuffleBits(v: bv32): bv32 {
    var v1 := ((v >> 16) ^ v) * 0x45d9f3;
    var v2 := ((v1 >> 16) ^ v1) * 0x45d9f3;
    (v2 >> 16) ^ v2
  }

  /** The big-endian `u32` at the front of a slice. */
  function ReadU32(bytes: seq<u8>): u32
    requires |bytes| >= 4
  {
    Pow256Widths();
    FromBE(bytes[..4])
  }

  // The hash of a slice is stated for any mixing function `mix`, so that the proofs about
  // the xor-accumulation never unfold `Shuffle`'s multiplications.

  function ByteMix(bytes: seq<u8>, mix: u32 -> bv32): bv32 {
    if |bytes| == 0 then 0 else mix(bytes[0]) ^ ByteMix(bytes[1..], mix)
  }

  /** What `shuffle_slice` computes with `mix`: words are taken while more than four bytes
      remain, so a last group of one to four bytes (and a slice of at most four) is mixed
      byte by byte. */
  function SliceMix(bytes: seq<u8>, mix: u32 -> bv32): bv32 {
    if |bytes| > 4 then mix(ReadU32(bytes)) ^ SliceMix(bytes[4..], mix) else ByteMix(bytes, mix)
  }

  function ShuffleSliceValue(bytes: seq<u8>): bv32 {
    SliceMix(bytes, Shuffle)
  }

  /** The two loops of `shuffle_slice`, with `mix` for `shuffle`. */
  method SliceMixLoops(bytes: seq<u8>, mix: u32 -> bv32) returns (v: bv32)
    ensures v == SliceMix(bytes, mix)
  {
    v := 0;
    var rest := bytes;
    while |rest| > 4
      invariant v ^ SliceMix(rest, mix) == SliceMix(bytes, mix)
      decreases |rest|
    {
      var w := mix(ReadU32(rest));
      XorAssoc(v, w, SliceMix(rest[4..], mix));
      v := v ^ w;
      rest := rest[4..];
    }
    var i := 0;
    while i < |rest|
      invariant 0 <= i <= |rest|
      invariant v ^ ByteMix(rest[i..], mix) == SliceMix(bytes, mix)
    {
      assert rest[i..][1..] == rest[i + 1..];
      XorAssoc(v, mix(rest[i]), ByteMix(rest[i + 1..], mix));
      v := v ^ mix(rest[i]);
      i := i + 1;
    }
  }

  lemma XorAssoc(a: bv32, b: bv32, c: bv32)
    ensures a ^ (b ^ c) == (a ^ b) ^ c
  {
  }

  /** `shuffle_slice`. */
  method ShuffleSlice(bytes: seq<u8>) returns (v: bv32)
    ensures v == ShuffleSliceValue(bytes)
  {
    v := SliceMixLoops(bytes, Shuffle);
  }

  /** The words of a slice of whole words, each mixed, xor-ed together. */
  function WordMix(a: seq<u8>, mix: u32 -> bv32): bv32
    requires |a| % 4 == 0
  {
    if |a| == 0 then 0 else mix(ReadU32(a)) ^ WordMix(a[4..], mix)
  }

  /** Whole words in front of a non-empty rest are mixed a word at a time, whatever follows:
      the hash is their word hash xor the rest's hash. */
  lemma {:induction false} SliceMixSplit(a: seq<u8>, b: seq<u8>, mix: u32 -> bv32)
    requires |a| % 4 == 0 && |b| > 0
    ensures SliceMix(a + b, mix) == WordMix(a, mix) ^ SliceMix(b, mix)
    decreases |a|
  {
    if |a| > 0 {
      assert (a + b)[..4] == a[..4];
      assert (a + b)[4..] == a[4..] + b;
      SliceMixSplit(a[4..], b, mix);
    } else {
      assert a + b == b;
    }
  }

  lemma ByteMixCons(a: seq<u8>, mix: u32 -> bv32)
    requires |a| > 0
    ensures ByteMix(a, mix) == mix(a[0]) ^ ByteMix(a[1..], mix)
  {
  }

  /** Zero mixes to zero, so the empty slice, which mixes nothing, hashes to zero as well. */
  lemma ZeroHashesToZero()
    ensures Shuffle(0) == 0 && ShuffleSliceValue([]) == 0
  {
  }

  /** Any slice of at most four bytes skips the word loop and is mixed byte by byte. */
  lemma ShortSliceIsByteMix(bytes: seq<u8>, mix: u32 -> bv32)
    requires |bytes| <= 4
    ensures SliceMix(bytes, mix) == ByteMix(bytes, mix)
  {
  }

  /** A slice of four bytes is mixed one byte at a time, not as a word. */
  lemma ShortSliceBytewise(a: seq<u8>, mix: u32 -> bv32)
    requires |a| == 4
    ensures SliceMix(a, mix) == mix(a[0]) ^ (mix(a[1]) ^ (mix(a[2]) ^ mix(a[3])))
  {
    ByteMixCons(a, mix);
    ByteMixCons(a[1..], mix);
    ByteMixCons(a[2..], mix);
    ByteMixCons(a[3..], mix);
    assert a[1..][1..] == a[2..] && a[2..][1..] == a[3..] && a[3..][1..] == [];
  }
}

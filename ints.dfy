/** Fixed-width unsigned integers, their big-endian byte form, and the wrap-around of
    Rust's release-build `+` and `-` on them. */
module Ints {

  const TWO_8: nat := 0x100
  const TWO_16: nat := 0x1_0000
  const TWO_32: nat := 0x1_0000_0000
  const TWO_63: nat := 0x8000_0000_0000_0000
  const TWO_64: nat := 0x1_0000_0000_0000_0000

  type u8 = x: int | 0 <= x < 0x100
  type u16 = x: int | 0 <= x < 0x1_0000
  type u32 = x: int | 0 <= x < 0x1_0000_0000
  type u64 = x: int | 0 <= x < 0x1_0000_0000_0000_0000

  /** 256 to the power `width`: the number of values `width` bytes can hold. */
  function Pow256(width: nat): (r: nat)
    ensures r >= 1
  {
    if width == 0 then 1 else 256 * Pow256(width - 1)
  }

  lemma Pow256Widths()
    ensures Pow256(1) == TWO_8 && Pow256(2) == TWO_16
    ensures Pow256(4) == TWO_32 && Pow256(8) == TWO_64
  {
  }

  /** The `width` low-order bytes of `n`, most significant first. */
  function ToBE(n: nat, width: nat): (r: seq<u8>)
    ensures |r| == width
  {
    if width == 0 then [] else ToBE(n / 256, width - 1) + [n % 256]
  }

  /** The number whose big-endian bytes are `s`. */
  function FromBE(s: seq<u8>): (n: nat)
    ensures n < Pow256(|s|)
  {
    if |s| == 0 then 0 else FromBE(s[..|s| - 1]) * 256 + s[|s| - 1]
  }

  /** Reading back the bytes of a number that fits recovers the number. */
  lemma {:induction false} FromToBE(n: nat, width: nat)
    requires n < Pow256(width)
    ensures FromBE(ToBE(n, width)) == n
  {
    if width > 0 {
      var s := ToBE(n, width);
      assert s[..|s| - 1] == ToBE(n / 256, width - 1);
      FromToBE(n / 256, width - 1);
    }
  }

  /** Writing the number that some bytes denote gives back those bytes. */
  lemma {:induction false} ToFromBE(s: seq<u8>)
    ensures ToBE(FromBE(s), |s|) == s
  {
    if |s| > 0 {
      var p := s[..|s| - 1];
      ToFromBE(p);
      assert (FromBE(p) * 256 + s[|s| - 1]) / 256 == FromBE(p);
      assert s == p + [s[|s| - 1]];
    }
  }

  /** Two numbers that fit in `width` bytes have the same bytes only if they are equal. */
  lemma ToBEInjective(a: nat, b: nat, width: nat)
    requires a < Pow256(width) && b < Pow256(width)
    requires ToBE(a, width) == ToBE(b, width)
    ensures a == b
  {
    FromToBE(a, width);
    FromToBE(b, width);
  }

  /** `a + b` on a Rust integer of `2^bits` values in a release build: the sum wraps around. */
  function WrappingAdd(a: nat, b: nat, modulus: nat): (r: nat)
    requires modulus > 0 && a < modulus && b < modulus
    ensures r < modulus
    ensures a + b < modulus ==> r == a + b
    ensures a + b >= modulus ==> r == a + b - modulus
  {
    (a + b) % modulus
  }

  /** `a - b` on a Rust integer in a release build: a negative difference wraps around. */
  function WrappingSub(a: nat, b: nat, modulus: nat): (r: nat)
    requires modulus > 0 && a < modulus && b < modulus
    ensures r < modulus
    ensures b <= a ==> r == a - b
    ensures a < b ==> r == a - b + modulus
  {
    (a - b) % modulus
  }

  function Add16(a: u16, b: u16): u16 { WrappingAdd(a, b, TWO_16) }
  function Sub16(a: u16, b: u16): u16 { WrappingSub(a, b, TWO_16) }
  function Add32(a: u32, b: u32): u32 { WrappingAdd(a, b, TWO_32) }
  function Add64(a: u64, b: u64): u64 { WrappingAdd(a, b, TWO_64) }
  function Sub64(a: u64, b: u64): u64 { WrappingSub(a, b, TWO_64) }

  function Max(a: int, b: int): int { if a < b then b else a }
  function Min(a: int, b: int): int { if a < b then a else b }
}

/**
 * Fixed-width integers, bytes and public keys as the Rust code sees them,
 * and the little-endian byte codec behind `to_le_bytes` / `from_le_bytes`.
 */
module Primitives {

  type byte = x: int | 0 <= x < 0x100
  type u32 = x: int | 0 <= x < 0x1_0000_0000
  type u64 = x: int | 0 <= x < 0x1_0000_0000_0000_0000
  type i64 = x: int | -0x8000_0000_0000_0000 <= x < 0x8000_0000_0000_0000

  /** A `solana_pubkey::Pubkey`: exactly 32 bytes. */
  type Pubkey = s: seq<byte> | |s| == 32 witness seq(32, _ => 0)

  /** 256 to the power n: one more than the largest n-byte unsigned value. */
  function Pow256(n: nat): (r: nat)
    ensures r >= 1
  {
    if n == 0 then 1 else 256 * Pow256(n - 1)
  }

  lemma Pow256Values()
    ensures Pow256(4) == 0x1_0000_0000
    ensures Pow256(8) == 0x1_0000_0000_0000_0000
  {
  }

  /** The unsigned value of a little-endian byte string (`s[0]` least significant). */
  function FromLe(s: seq<byte>): (r: nat)
    ensures r < Pow256(|s|)
  {
    if s == [] then 0 else s[0] + 256 * FromLe(s[1..])
  }

  /** The `width` low-order bytes of `x`, least significant first. */
  function ToLe(x: nat, width: nat): (r: seq<byte>)
    ensures |r| == width
  {
    if width == 0 then [] else [x % 256] + ToLe(x / 256, width - 1)
  }

  /** Decoding what was encoded gives the value back, when it fits the width. */
  lemma {:induction false} FromLeToLe(x: nat, width: nat)
    requires x < Pow256(width)
    ensures FromLe(ToLe(x, width)) == x
  {
    if width > 0 {
      assert x / 256 < Pow256(width - 1);
      FromLeToLe(x / 256, width - 1);
      var r := ToLe(x, width);
      assert r[1..] == ToLe(x / 256, width - 1);
    }
  }

  /** Encoding what was decoded gives the bytes back. */
  lemma {:induction false} ToLeFromLe(s: seq<byte>)
    ensures ToLe(FromLe(s), |s|) == s
  {
    if s != [] {
      ToLeFromLe(s[1..]);
      var x := FromLe(s);
      assert x % 256 == s[0] && x / 256 == FromLe(s[1..]);
    }
  }

  /** Little-endian encodings of equal width are equal exactly when the values are. */
  lemma ToLeInjective(x: nat, y: nat, width: nat)
    requires x < Pow256(width) && y < Pow256(width)
    ensures ToLe(x, width) == ToLe(y, width) <==> x == y
  {
    FromLeToLe(x, width);
    FromLeToLe(y, width);
  }

  /** `u64::to_le_bytes`. */
  function U64ToLe(x: u64): (r: seq<byte>)
    ensures |r| == 8 && FromLe(r) == x
  {
    Pow256Values();
    FromLeToLe(x, 8);
    ToLe(x, 8)
  }

  /** `u32::from_le_bytes`. */
  function U32FromLe(s: seq<byte>): (r: u32)
    requires |s| == 4
    ensures ToLe(r, 4) == s
  {
    Pow256Values();
    ToLeFromLe(s);
    FromLe(s)
  }

  /** `i64::to_le_bytes`: the two's complement bit pattern, little-endian. */
  function I64ToLe(x: i64): (r: seq<byte>)
    ensures |r| == 8 && I64FromLe(r) == x
  {
    Pow256Values();
    var bits := if x < 0 then x + 0x1_0000_0000_0000_0000 else x;
    FromLeToLe(bits, 8);
    ToLe(bits, 8)
  }

  /** `i64::from_le_bytes`: reads the two's complement pattern back. */
  function I64FromLe(s: seq<byte>): (r: i64)
    requires |s| == 8
    ensures ToLe(if r < 0 then r + 0x1_0000_0000_0000_0000 else r, 8) == s
  {
    Pow256Values();
    ToLeFromLe(s);
    var bits := FromLe(s);
    if bits >= 0x8000_0000_0000_0000 then bits - 0x1_0000_0000_0000_0000 else bits
  }
}

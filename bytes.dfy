/** Fixed-width unsigned integers and their little-endian byte encoding,
    as Rust's `to_le_bytes` / `from_le_bytes` produce and consume them. */
module Bytes {

  type Byte = x: int | 0 <= x < 0x100
  type U16 = x: int | 0 <= x < 0x1_0000
  type U32 = x: int | 0 <= x < 0x1_0000_0000
  type U64 = x: int | 0 <= x < 0x1_0000_0000_0000_0000

  /** 256 to the power n: one more than the largest value n bytes can hold. */
  function Pow256(n: nat): (r: nat)
    ensures r >= 1
  {
    if n == 0 then 1 else 0x100 * Pow256(n - 1)
  }

  /** The value of a little-endian byte string (least significant byte first). */
  function FromLE(s: seq<Byte>): (r: nat)
    ensures r < Pow256(|s|)
  {
    if s == [] then 0 else s[0] + 0x100 * FromLE(s[1..])
  }

  /** The n low-order bytes of x, least significant first. */
  function ToLE(x: nat, n: nat): (r: seq<Byte>)
    ensures |r| == n
  {
    if n == 0 then [] else [x % 0x100] + ToLE(x / 0x100, n - 1)
  }

  /** `u64::to_le_bytes` */
  function U64ToLE(x: U64): (r: seq<Byte>)
    ensures |r| == 8
  {
    ToLE(x, 8)
  }

  /** `u64::from_le_bytes` on an 8-byte slice */
  function U64FromLE(s: seq<Byte>): (r: U64)
    requires |s| == 8
    ensures r == FromLE(s)
  {
    FromLE(s)
  }

  /** `u32::to_le_bytes` */
  function U32ToLE(x: U32): (r: seq<Byte>)
    ensures |r| == 4
  {
    ToLE(x, 4)
  }

  /** n zero bytes, as in a freshly zeroed buffer `[0; n]`. */
  function Zeros(n: nat): (r: seq<Byte>)
    ensures |r| == n && forall i :: 0 <= i < n ==> r[i] == 0
  {
    seq(n, _ => 0)
  }

  /** Zero encodes as all-zero bytes at every width. */
  lemma {:induction false} ToLEZero(n: nat)
    ensures ToLE(0, n) == Zeros(n)
  {
    if n > 0 {
      ToLEZero(n - 1);
      assert ToLE(0, n) == [0] + Zeros(n - 1);
    }
  }

  /** Decoding an encoding gives back the value, whenever it fits in n bytes. */
  lemma {:induction false} FromToLE(x: nat, n: nat)
    requires x < Pow256(n)
    ensures FromLE(ToLE(x, n)) == x
  {
    if n > 0 {
      FromToLE(x / 0x100, n - 1);
      assert ToLE(x, n)[1..] == ToLE(x / 0x100, n - 1);
    }
  }

  /** Encoding a decoded byte string at its own width gives back the bytes. */
  lemma {:induction false} ToFromLE(s: seq<Byte>)
    ensures ToLE(FromLE(s), |s|) == s
  {
    if s != [] {
      ToFromLE(s[1..]);
      var v := FromLE(s);
      assert v % 0x100 == s[0];
      assert v / 0x100 == FromLE(s[1..]);
    }
  }

  /** The u64 round trip: `u64::from_le_bytes(x.to_le_bytes()) == x`. */
  lemma U64RoundTrip(x: U64)
    ensures U64FromLE(U64ToLE(x)) == x
  {
    FromToLE(x, 8);
  }

  /** The u32 round trip: `u32::from_le_bytes(x.to_le_bytes()) == x`. */
  lemma U32RoundTrip(x: U32)
    ensures FromLE(U32ToLE(x)) == x
  {
    FromToLE(x, 4);
  }
}

/** Fixed-width integers, block ids and the little-endian byte layout shared by all formats. */
module Bytes {

  type byte = n: int | 0 <= n < 256
  type U16 = n: int | 0 <= n < 0x1_0000
  type U32 = n: int | 0 <= n < 0x1_0000_0000
  type U64 = n: int | 0 <= n < 0x1_0000_0000_0000_0000

  const U64_MAX: U64 := 0xffff_ffff_ffff_ffff

  /** A block id is 16 bytes. */
  type BlockId = s: seq<byte> | |s| == 16 witness [0, 0, 0, 0, 0, 0, 0, 0, 0, 0, 0, 0, 0, 0, 0, 0]

  datatype Option<+T> = None | Some(value: T)

  /** The bytes of an ASCII string. */
  function Ascii(s: string): seq<byte> {
    seq(|s|, i requires 0 <= i < |s| => s[i] as int % 256)
  }

  /** The byte at position `i` of the little-endian form of `n`. */
  function Digit(n: nat, i: nat): byte {
    if i == 0 then n % 256 else Digit(n / 256, i - 1)
  }

  /** Little-endian encoding of the low `w` bytes of `n`. */
  function Encode(n: nat, w: nat): (r: seq<byte>)
    ensures |r| == w
  {
    seq(w, i requires 0 <= i < w => Digit(n, i))
  }

  function Decode(bs: seq<byte>): nat {
    if bs == [] then 0 else bs[0] + 256 * Decode(bs[1..])
  }

  function Pow256(w: nat): nat {
    if w == 0 then 1 else 256 * Pow256(w - 1)
  }

  lemma {:induction false} DecodeEncode(n: nat, w: nat)
    requires n < Pow256(w)
    ensures Decode(Encode(n, w)) == n
  {
    if w > 0 {
      DecodeEncode(n / 256, w - 1);
      assert Encode(n, w)[1..] == Encode(n / 256, w - 1);
    }
  }

  lemma {:induction false} EncodeDecode(bs: seq<byte>)
    ensures Decode(bs) < Pow256(|bs|)
    ensures Encode(Decode(bs), |bs|) == bs
  {
    if bs != [] {
      EncodeDecode(bs[1..]);
      assert Decode(bs) % 256 == bs[0] && Decode(bs) / 256 == Decode(bs[1..]);
    }
  }

  lemma {:induction false} Widths()
    ensures Pow256(1) == 256 && Pow256(2) == 0x1_0000 && Pow256(4) == 0x1_0000_0000
    ensures Pow256(8) == 0x1_0000_0000_0000_0000
  {
  }

  /** The value of a little-endian field of 1, 2, 4 or 8 bytes fits its type. */
  lemma {:induction false} FieldRange(bs: seq<byte>)
    ensures |bs| == 2 ==> Decode(bs) < 0x1_0000
    ensures |bs| == 4 ==> Decode(bs) < 0x1_0000_0000
    ensures |bs| == 8 ==> Decode(bs) < 0x1_0000_0000_0000_0000
  {
    EncodeDecode(bs);
    Widths();
  }
}

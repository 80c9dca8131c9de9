/** Bytes, big-endian fields and the fixed-width conversions the C++ code relies on. */
module Bytes {

  type byte = x: int | 0 <= x < 0x100
  type u16 = x: int | 0 <= x < 0x1_0000
  type u32 = x: int | 0 <= x < 0x1_0000_0000
  type u64 = x: int | 0 <= x < 0x1_0000_0000_0000_0000

  datatype Option<+T> = None | Some(value: T)

  /** Truncating casts. */
  function U8(x: int): byte { x % 0x100 }
  function U16(x: int): u16 { x % 0x1_0000 }
  function U32(x: int): u32 { x % 0x1_0000_0000 }

  /** Two's complement readings of an unsigned field. */
  function S8(x: byte): int { if x < 0x80 then x else x - 0x100 }
  function S16(x: u16): int { if x < 0x8000 then x else x - 0x1_0000 }
  function S32(x: u32): int { if x < 0x8000_0000 then x else x - 0x1_0000_0000 }

  /** Big-endian reads. */
  function Get16(s: seq<byte>, p: nat): u16
    requires p + 2 <= |s|
  {
    (s[p] as int) * 0x100 + s[p + 1]
  }

  function Get32(s: seq<byte>, p: nat): u32
    requires p + 4 <= |s|
  {
    (Get16(s, p) as int) * 0x1_0000 + Get16(s, p + 2)
  }

  /** Big-endian writes. */
  function Put16(v: u16): (r: seq<byte>)
    ensures |r| == 2 && Get16(r, 0) == v
  {
    [v / 0x100, v % 0x100]
  }

  function Put32(v: u32): (r: seq<byte>)
    ensures |r| == 4 && Get32(r, 0) == v
  {
    Put16(v / 0x1_0000) + Put16(v % 0x1_0000)
  }

  /** `s` with the bytes from `p` on overwritten by `w`. */
  function Splice(s: seq<byte>, p: nat, w: seq<byte>): (r: seq<byte>)
    requires p + |w| <= |s|
    ensures |r| == |s| && r[p..p + |w|] == w
    ensures forall q | 0 <= q < |s| && !(p <= q < p + |w|) :: r[q] == s[q]
    ensures forall q | p <= q < p + |w| :: r[q] == w[q - p]
  {
    s[..p] + w + s[p + |w|..]
  }
}

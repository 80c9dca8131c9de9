/** LEB128 numbers as `DwarfParser` reads them, against section 7.6 of the DWARF 5 standard. */
module Leb128 {
  import opened Bytes

  /** `x << 7 * k`. */
  function Shl(x: int, k: nat): int
    decreases k
  {
    if k == 0 then x else Shl(128 * x, k - 1)
  }

  /** The number starting at `p` ends within `limit` bytes. */
  predicate Terminated(s: seq<byte>, p: nat, limit: nat)
    decreases limit
  {
    limit > 0 && p < |s| && (s[p] < 128 || Terminated(s, p + 1, limit - 1))
  }

  /** Number of bytes of the number at `p`. */
  function Length(s: seq<byte>, p: nat, limit: nat): (n: nat)
    requires Terminated(s, p, limit)
    ensures 0 < n <= limit && p + n <= |s|
    decreases limit
  {
    if s[p] < 128 then 1 else 1 + Length(s, p + 1, limit - 1)
  }

  /** The unsigned number at `p`, of any size. */
  function Unsigned(s: seq<byte>, p: nat, limit: nat): nat
    requires Terminated(s, p, limit)
    decreases limit
  {
    if s[p] < 128 then s[p] else s[p] % 128 + 128 * Unsigned(s, p + 1, limit - 1)
  }

  /** The signed number at `p`, of any size: the top bit of the last byte's seven is the sign. */
  function Signed(s: seq<byte>, p: nat, limit: nat): int
    requires Terminated(s, p, limit)
    decreases limit
  {
    if s[p] < 128 then (if s[p] < 64 then s[p] as int else s[p] as int - 128)
    else s[p] as int % 128 + 128 * Signed(s, p + 1, limit - 1)
  }

  // ------------------------------------------------------------------ encodings

  function EncodeUnsigned(v: nat): seq<byte> {
    if v < 128 then [v] else [v % 128 + 128] + EncodeUnsigned(v / 128)
  }

  /** `v / 128` rounds down, as the arithmetic shift does. */
  function EncodeSigned(v: int): seq<byte>
    decreases if v < 0 then -v else v
  {
    if -64 <= v < 64 then [v % 128] else [v % 128 + 128] + EncodeSigned(v / 128)
  }

  lemma {:induction false} UnsignedRoundTrip(s: seq<byte>, p: nat, v: nat, limit: nat)
    requires p + |EncodeUnsigned(v)| <= |s| && s[p..p + |EncodeUnsigned(v)|] == EncodeUnsigned(v) && |EncodeUnsigned(v)| <= limit
    ensures Terminated(s, p, limit) && Unsigned(s, p, limit) == v && Length(s, p, limit) == |EncodeUnsigned(v)|
    decreases v
  {
    var e := EncodeUnsigned(v);
    assert s[p] == e[0];
    if v >= 128 {
      assert s[p + 1..p + 1 + |e| - 1] == e[1..] == EncodeUnsigned(v / 128);
      UnsignedRoundTrip(s, p + 1, v / 128, limit - 1);
    }
  }

  lemma {:induction false} SignedRoundTrip(s: seq<byte>, p: nat, v: int, limit: nat)
    requires p + |EncodeSigned(v)| <= |s| && s[p..p + |EncodeSigned(v)|] == EncodeSigned(v) && |EncodeSigned(v)| <= limit
    ensures Terminated(s, p, limit) && Signed(s, p, limit) == v && Length(s, p, limit) == |EncodeSigned(v)|
    decreases if v < 0 then -v else v
  {
    var e := EncodeSigned(v);
    assert s[p] == e[0];
    if !(-64 <= v < 64) {
      assert s[p + 1..p + 1 + |e| - 1] == e[1..] == EncodeSigned(v / 128);
      SignedRoundTrip(s, p + 1, v / 128, limit - 1);
    }
  }

  /** Every 32-bit number has an encoding of at most five bytes. */
  lemma EncodingsFit(u: u32, v: int)
    requires -0x8000_0000 <= v < 0x8000_0000
    ensures |EncodeUnsigned(u)| <= 5 && |EncodeSigned(v)| <= 5
  {
    assert |EncodeUnsigned(u / 128 / 128 / 128 / 128)| == 1;
    assert |EncodeUnsigned(u / 128 / 128 / 128)| <= 2;
    assert |EncodeUnsigned(u / 128 / 128)| <= 3;
    assert |EncodeSigned(v / 128 / 128 / 128 / 128)| == 1;
    assert |EncodeSigned(v / 128 / 128 / 128)| <= 2;
    assert |EncodeSigned(v / 128 / 128)| <= 3;
  }

  // ------------------------------------------------------------------ the readers

  lemma {:induction false} ShlAdd(x: int, y: int, k: nat)
    ensures Shl(x + y, k) == Shl(x, k) + Shl(y, k)
    decreases k
  {
    if k > 0 { ShlAdd(128 * x, 128 * y, k - 1); }
  }

  lemma {:induction false} ShlMonotone(x: int, y: int, k: nat)
    requires x <= y
    ensures Shl(x, k) <= Shl(y, k)
    decreases k
  {
    if k > 0 { ShlMonotone(128 * x, 128 * y, k - 1); }
  }

  lemma ShlIs(x: int)
    ensures Shl(x, 0) == x && Shl(x, 1) == 0x80 * x && Shl(x, 2) == 0x4000 * x && Shl(x, 3) == 0x20_0000 * x && Shl(x, 4) == 0x1000_0000 * x
  {
    assert Shl(0x4000 * x, 2) == Shl(0x20_0000 * x, 1) == 0x1000_0000 * x;
    assert Shl(0x80 * x, 2) == Shl(0x4000 * x, 1) == 0x20_0000 * x;
  }

  lemma WordAdd(a: int, b: int)
    ensures U32(U32(a) + U32(b)) == U32(a + b)
  {
  }

  /** `b & 0x7f`. */
  function Low7(b: byte): byte { b % 128 }

  /** `result |= (b & 0x7f) << shift` with `shift == 7 * k`: the bits are disjoint, and those past bit 31 fall off. */
  function Accumulated(result: u32, b: byte, k: nat): u32
    requires k < 5
  {
    U32(result + U32(Shl(Low7(b), k)))
  }

  lemma AccumulatedIs(acc: nat, b: byte, k: nat)
    requires k < 5 && acc < Shl(1, k)
    ensures 0 <= Shl(Low7(b), k) && acc + Shl(Low7(b), k) < Shl(1, k + 1)
    ensures Accumulated(U32(acc), b, k) == U32(acc + Shl(Low7(b), k))
  {
    var d := Low7(b);
    ShlMonotone(0, d, k);
    ShlMonotone(d, 127, k);
    ShlZero(k);
    ShlAdd(127, 1, k);
    assert Shl(1, k + 1) == Shl(128, k);
    WordAdd(acc, Shl(d, k));
    hide Shl, U32;
  }

  lemma {:induction false} ShlZero(k: nat)
    ensures Shl(0, k) == 0
  {
    if k > 0 { ShlZero(k - 1); }
  }

  /** `acc` is the value of the `k` bytes before byte `k` of the number at `p0`. */
  ghost predicate ReadTo(s: seq<byte>, p0: nat, limit: nat, k: nat, acc: nat)
    requires Terminated(s, p0, limit)
  {
    && k < limit && Terminated(s, p0 + k, limit - k) && acc < Shl(1, k)
    && Unsigned(s, p0, limit) == acc + Shl(Unsigned(s, p0 + k, limit - k), k)
    && Signed(s, p0, limit) == acc + Shl(Signed(s, p0 + k, limit - k), k)
    && Length(s, p0, limit) == k + Length(s, p0 + k, limit - k)
  }

  lemma ReadOn(s: seq<byte>, p0: nat, limit: nat, k: nat, acc: nat)
    requires limit <= 5 && Terminated(s, p0, limit) && ReadTo(s, p0, limit, k, acc) && s[p0 + k] >= 128
    ensures 0 <= Shl(Low7(s[p0 + k]), k) && ReadTo(s, p0, limit, k + 1, acc + Shl(Low7(s[p0 + k]), k))
  {
    AccumulatedIs(acc, s[p0 + k], k);
    var u, v := Unsigned(s, p0 + k + 1, limit - k - 1), Signed(s, p0 + k + 1, limit - k - 1);
    ShlAdd(Low7(s[p0 + k]), 128 * u, k);
    ShlAdd(Low7(s[p0 + k]), 128 * v, k);
    assert Shl(u, k + 1) == Shl(128 * u, k) && Shl(v, k + 1) == Shl(128 * v, k);
    hide Shl, Accumulated;
  }

  lemma ReadHere(s: seq<byte>, p0: nat, limit: nat, k: nat, acc: nat)
    requires Terminated(s, p0, limit) && ReadTo(s, p0, limit, k, acc)
    ensures k < limit && p0 + k < |s| && acc < Shl(1, k)
    ensures s[p0 + k] < 128 ==>
      && Low7(s[p0 + k]) == s[p0 + k]
      && Unsigned(s, p0, limit) == acc + Shl(s[p0 + k], k)
      && Signed(s, p0, limit) == acc + Shl(if s[p0 + k] < 64 then s[p0 + k] as int else s[p0 + k] as int - 128, k)
      && Length(s, p0, limit) == k + 1
  {
    hide Shl;
  }

  /** `bits` is what the loop has accumulated before byte `k`. */
  ghost predicate Accumulating(s: seq<byte>, p0: nat, limit: nat, k: nat, bits: u32)
    requires Terminated(s, p0, limit)
  {
    exists acc: nat :: ReadTo(s, p0, limit, k, acc) && bits == U32(acc)
  }

  lemma AccumulatingStart(s: seq<byte>, p0: nat, limit: nat)
    requires Terminated(s, p0, limit)
    ensures Accumulating(s, p0, limit, 0, 0)
  {
    assert ReadTo(s, p0, limit, 0, 0) && U32(0) == 0;
  }

  lemma AccumulatedValue(s: seq<byte>, p0: nat, limit: nat, k: nat, bits: u32) returns (acc: nat)
    requires Terminated(s, p0, limit) && Accumulating(s, p0, limit, k, bits)
    ensures ReadTo(s, p0, limit, k, acc) && bits == U32(acc)
    ensures k < limit && p0 + k < |s|
  {
    acc :| ReadTo(s, p0, limit, k, acc) && bits == U32(acc);
    ReadHere(s, p0, limit, k, acc);
    hide *;
  }

  lemma AccumulatingOn(s: seq<byte>, p0: nat, limit: nat, k: nat, acc: nat, bits: u32)
    requires Terminated(s, p0, limit) && ReadTo(s, p0, limit, k, acc) && bits == U32(acc)
    ensures Accumulating(s, p0, limit, k, bits) && k < limit
  {
    ReadHere(s, p0, limit, k, acc);
    hide ReadTo, U32, Terminated;
  }

  /** One round of the loop: the number is complete, or the next byte is to be read. */
  lemma AccumulatingStep(s: seq<byte>, p0: nat, limit: nat, k: nat, bits: u32)
    requires limit <= 5 && Terminated(s, p0, limit) && Accumulating(s, p0, limit, k, bits)
    ensures k < limit && p0 + k < |s|
    ensures var b := s[p0 + k]; var bits' := Accumulated(bits, b, k);
      if b < 128 then
        && bits' == U32(Unsigned(s, p0, limit)) && SignExtended(bits', b, k) == S32(U32(Signed(s, p0, limit)))
        && Length(s, p0, limit) == k + 1
      else k + 1 < limit && Accumulating(s, p0, limit, k + 1, bits')
  {
    hide *;
    var acc := AccumulatedValue(s, p0, limit, k, bits);
    ReadHere(s, p0, limit, k, acc);
    var b := s[p0 + k];
    AccumulatedIs(acc, b, k);
    if b < 128 {
      SignedEnd(acc, b, k);
    } else {
      ReadOn(s, p0, limit, k, acc);
      AccumulatingOn(s, p0, limit, k + 1, acc + Shl(Low7(b), k), Accumulated(bits, b, k));
    }
  }

  /** `getLeb`, for a number of at most five bytes. */
  method GetLeb(s: seq<byte>, p0: nat, ghost limit: nat) returns (result: u32, p: nat)
    requires limit <= 5 && Terminated(s, p0, limit)
    ensures result == U32(Unsigned(s, p0, limit)) && p == p0 + Length(s, p0, limit)
  {
    hide *;
    result, p := 0, p0;
    var k := 0;
    AccumulatingStart(s, p0, limit);
    while true
      invariant p == p0 + k && Accumulating(s, p0, limit, k, result)
      decreases limit - k
    {
      AccumulatingStep(s, p0, limit, k, result);
      var b := s[p];
      p := p + 1;
      result := Accumulated(result, b, k);
      if b < 128 { return; }
      k := k + 1;
    }
  }

  /** `result |= -1 << shift`, when the shift is still inside the word. */
  function SignExtended(result: u32, b: byte, k: nat): int
    requires k < 5
  {
    if b >= 64 && k < 4 then result - Shl(1, k + 1) else S32(result)
  }

  lemma SignExtendedIs(acc: nat, b: byte, k: nat)
    requires k < 5 && acc < Shl(1, k) && b < 128
    ensures SignExtended(U32(acc + Shl(b, k)), b, k) == S32(U32(acc + Shl(if b < 64 then b as int else b as int - 128, k)))
  {
    hide Shl, U32, S32;
    ShlSign(b, k);
    if b >= 64 {
      SignFits(acc, b, k, Shl(1, k));
    }
  }

  /** What the sign takes away. */
  lemma ShlSign(b: byte, k: nat)
    requires k < 5
    ensures Shl(1, k + 1) == 128 * Shl(1, k) && Shl(b, k) == b * Shl(1, k) && Shl(b as int - 128, k) == (b as int - 128) * Shl(1, k)
    ensures Shl(1, k) == if k == 0 then 1 else if k == 1 then 0x80 else if k == 2 then 0x4000 else if k == 3 then 0x20_0000 else 0x1000_0000
  {
    ShlIs(b);
    ShlIs(1);
    ShlIs(128);
    ShlIs(b as int - 128);
    assert Shl(1, k + 1) == Shl(128, k);
    hide Shl;
  }

  /** Taking it away is exact below the last byte, and changes nothing at the last byte. */
  lemma SignFits(acc: nat, b: byte, k: nat, p: nat)
    requires k < 5 && acc < p && 64 <= b < 128
    requires p == if k == 0 then 1 else if k == 1 then 0x80 else if k == 2 then 0x4000 else if k == 3 then 0x20_0000 else 0x1000_0000
    ensures k < 4 ==> U32(acc + b * p) - 128 * p == S32(U32(acc + (b as int - 128) * p))
    ensures k == 4 ==> U32(acc + b * p) == U32(acc + (b as int - 128) * p)
  {
    if k == 4 {
      assert acc + b * 0x1000_0000 == acc + (b as int - 128) * 0x1000_0000 + 8 * 0x1_0000_0000;
    } else {
      var x := acc + b * p;
      assert (b as int - 128) * p == b * p - 128 * p;
      assert 64 * p <= b * p && b * p + p <= 128 * p by { assert b * p + p == (b + 1) * p; }
    }
  }

  /** The last byte of a signed number. */
  lemma SignedEnd(acc: nat, b: byte, k: nat)
    requires k < 5 && acc < Shl(1, k) && b < 128
    ensures SignExtended(Accumulated(U32(acc), b, k), b, k) == S32(U32(acc + Shl(if b < 64 then b as int else b as int - 128, k)))
  {
    assert Low7(b) == b;
    AccumulatedIs(acc, b, k);
    SignExtendedIs(acc, b, k);
    hide Shl, U32, S32, SignExtended, Accumulated;
  }

  /** `getSLeb`, for a number of at most five bytes. */
  method GetSLeb(s: seq<byte>, p0: nat, ghost limit: nat) returns (result: int, p: nat)
    requires limit <= 5 && Terminated(s, p0, limit)
    ensures result == S32(U32(Signed(s, p0, limit))) && p == p0 + Length(s, p0, limit)
  {
    hide *;
    p := p0;
    var bits: u32 := 0;
    var k := 0;
    AccumulatingStart(s, p0, limit);
    while true
      invariant p == p0 + k && Accumulating(s, p0, limit, k, bits)
      decreases limit - k
    {
      AccumulatingStep(s, p0, limit, k, bits);
      var b := s[p];
      p := p + 1;
      bits := Accumulated(bits, b, k);
      if b < 128 { return SignExtended(bits, b, k), p; }
      k := k + 1;
    }
  }
}

/** Unicode scalar values and UTF-8 as the Rust demangler reads and writes them, against section 3 of RFC 3629. */
module Utf8 {
  import opened Bytes

  predicate IsScalar(n: int) { 0 <= n < 0xD800 || 0xE000 <= n <= 0x10FFFF }

  /** `validate_char` on 32-bit words. */
  predicate ValidateChar(n: bv32) { (n ^ 0xD800) - 0x800 < 0x110000 - 0x800 }

  /** The one comparison accepts exactly the scalar values. */
  lemma ValidateCharIsScalar(n: bv32)
    ensures ValidateChar(n) <==> n < 0xD800 || (0xE000 <= n && n <= 0x10FFFF)
  {
  }

  /** `code_to_utf8`. */
  function Encode(code: u32): seq<byte> {
    if code <= 0x7F then [code]
    else if code <= 0x7FF then [0xC0 + code / 0x40, 0x80 + code % 0x40]
    else if code <= 0xFFFF then [0xE0 + code / 0x1000, 0x80 + code / 0x40 % 0x40, 0x80 + code % 0x40]
    else if code <= 0x10FFFF then [0xF0 + code / 0x4_0000, 0x80 + code / 0x1000 % 0x40, 0x80 + code / 0x40 % 0x40, 0x80 + code % 0x40]
    else []
  }

  predicate Tail(b: byte) { 0x80 <= b < 0xC0 }

  /** A decoded character and the number of bytes it took. */
  datatype Char = Char(code: u32, length: nat) | Bad

  /** `utf8_next_char` on four bytes. */
  function Next(a: byte, b: byte, c: byte, d: byte): Char {
    if a < 0x80 then Char(a, 1)
    else if a < 0xC2 then Bad
    else if a < 0xE0 then (if Tail(b) then Char((a % 0x20) * 0x40 + b % 0x40, 2) else Bad)
    else if a < 0xF0 then
      if !Tail(b) || !Tail(c) then Bad
      else if a == 0xE0 && b < 0xA0 then Bad
      else if a == 0xED && b >= 0xA0 then Bad
      else Char((a % 0x10) * 0x1000 + (b % 0x40) * 0x40 + c % 0x40, 3)
    else if a < 0xF5 then
      if !Tail(b) || !Tail(c) || !Tail(d) then Bad
      else if a == 0xF0 && b < 0x90 then Bad
      else if a == 0xF4 && b >= 0x90 then Bad
      else Char((a % 8) * 0x4_0000 + (b % 0x40) * 0x1000 + (c % 0x40) * 0x40 + d % 0x40, 4)
    else Bad
  }

  /** Byte `i`, or any other byte behind the end. */
  function At(s: seq<byte>, i: nat, other: byte): byte { if i < |s| then s[i] else other }

  function NextOf(s: seq<byte>, other: byte): Char { Next(At(s, 0, other), At(s, 1, other), At(s, 2, other), At(s, 3, other)) }

  // ------------------------------------------------------------------ the bytes of a code, as digits

  lemma Two(x: int, y: int, c: byte, d: byte)
    requires 2 <= x < 0x20 && 0 <= y < 0x40
    ensures Next(0xC0 + x, 0x80 + y, c, d) == Char(0x40 * x + y, 2)
    ensures Encode(0x40 * x + y) == [0xC0 + x, 0x80 + y]
  {
  }

  lemma ThreeDigits(x: int, y: int, z: int)
    requires 0 <= x < 0x10 && 0 <= y < 0x40 && 0 <= z < 0x40
    ensures var code := 0x1000 * x + 0x40 * y + z; code / 0x1000 == x && code / 0x40 % 0x40 == y && code % 0x40 == z
  {
    var code := 0x1000 * x + 0x40 * y + z;
    assert code / 0x40 == 0x40 * x + y;
  }

  lemma Three(x: int, y: int, z: int, d: byte)
    requires 0 <= x < 0x10 && 0 <= y < 0x40 && 0 <= z < 0x40 && (x == 0 ==> y >= 0x20) && (x == 0xD ==> y < 0x20)
    ensures Next(0xE0 + x, 0x80 + y, 0x80 + z, d) == Char(0x1000 * x + 0x40 * y + z, 3)
    ensures Encode(0x1000 * x + 0x40 * y + z) == [0xE0 + x, 0x80 + y, 0x80 + z]
  {
    ThreeDigits(x, y, z);
  }

  lemma FourDigits(x: int, y: int, z: int, w: int)
    requires 0 <= x < 8 && 0 <= y < 0x40 && 0 <= z < 0x40 && 0 <= w < 0x40
    ensures var code := 0x4_0000 * x + 0x1000 * y + 0x40 * z + w;
      code / 0x4_0000 == x && code / 0x1000 % 0x40 == y && code / 0x40 % 0x40 == z && code % 0x40 == w
  {
    var code := 0x4_0000 * x + 0x1000 * y + 0x40 * z + w;
    assert code / 0x40 == 0x1000 * x + 0x40 * y + z;
    assert code / 0x1000 == 0x40 * x + y;
    assert (0x1000 * x + 0x40 * y + z) % 0x40 == z;
  }

  lemma Four(x: int, y: int, z: int, w: int)
    requires 0 <= x < 5 && 0 <= y < 0x40 && 0 <= z < 0x40 && 0 <= w < 0x40 && (x == 0 ==> y >= 0x10) && (x == 4 ==> y < 0x10)
    ensures Next(0xF0 + x, 0x80 + y, 0x80 + z, 0x80 + w) == Char(0x4_0000 * x + 0x1000 * y + 0x40 * z + w, 4)
    ensures Encode(0x4_0000 * x + 0x1000 * y + 0x40 * z + w) == [0xF0 + x, 0x80 + y, 0x80 + z, 0x80 + w]
  {
    FourDigits(x, y, z, w);
  }

  lemma SplitTwo(code: u32) returns (x: int, y: int)
    requires 0x80 <= code <= 0x7FF
    ensures code == 0x40 * x + y && 2 <= x < 0x20 && 0 <= y < 0x40
  {
    x, y := code / 0x40, code % 0x40;
  }

  lemma SplitThree(code: u32) returns (x: int, y: int, z: int)
    requires 0x800 <= code <= 0xFFFF && IsScalar(code)
    ensures code == 0x1000 * x + 0x40 * y + z && 0 <= x < 0x10 && 0 <= y < 0x40 && 0 <= z < 0x40
    ensures (x == 0 ==> y >= 0x20) && (x == 0xD ==> y < 0x20)
  {
    x, y, z := code / 0x1000, code / 0x40 % 0x40, code % 0x40;
    assert code / 0x40 == 0x40 * x + y;
  }

  lemma SplitFour(code: u32) returns (x: int, y: int, z: int, w: int)
    requires 0x1_0000 <= code <= 0x10FFFF
    ensures code == 0x4_0000 * x + 0x1000 * y + 0x40 * z + w && 0 <= x < 5 && 0 <= y < 0x40 && 0 <= z < 0x40 && 0 <= w < 0x40
    ensures (x == 0 ==> y >= 0x10) && (x == 4 ==> y < 0x10)
  {
    x, y, z, w := code / 0x4_0000, code / 0x1000 % 0x40, code / 0x40 % 0x40, code % 0x40;
    assert code / 0x1000 == 0x40 * x + y;
    assert code / 0x40 == 0x40 * (code / 0x1000) + z;
  }

  lemma NextOfFirst(e: seq<byte>, rest: seq<byte>, other: byte)
    requires 1 <= |e| <= 4
    ensures var s := e + rest; NextOf(s, other) == Next(e[0], if |e| > 1 then e[1] else At(s, 1, other), if |e| > 2 then e[2] else At(s, 2, other), if |e| > 3 then e[3] else At(s, 3, other))
  {
    hide Next;
  }

  lemma EncodeShort(code: u32, c: byte, d: byte)
    requires 0x80 <= code <= 0x7FF
    ensures |Encode(code)| == 2 && Next(Encode(code)[0], Encode(code)[1], c, d) == Char(code, 2)
  {
    hide *;
    var x, y := SplitTwo(code);
    Two(x, y, c, d);
  }

  lemma EncodeMiddle(code: u32, d: byte)
    requires 0x800 <= code <= 0xFFFF && IsScalar(code)
    ensures |Encode(code)| == 3 && Next(Encode(code)[0], Encode(code)[1], Encode(code)[2], d) == Char(code, 3)
  {
    hide *;
    var x, y, z := SplitThree(code);
    Three(x, y, z, d);
  }

  lemma EncodeLong(code: u32)
    requires 0x1_0000 <= code <= 0x10FFFF
    ensures |Encode(code)| == 4 && Next(Encode(code)[0], Encode(code)[1], Encode(code)[2], Encode(code)[3]) == Char(code, 4)
  {
    hide *;
    var x, y, z, w := SplitFour(code);
    Four(x, y, z, w);
  }

  lemma EncodeAscii(code: u32, b: byte, c: byte, d: byte)
    requires code <= 0x7F
    ensures Encode(code) == [code] && Next(code, b, c, d) == Char(code, 1)
  {
  }

  /** Encoding a scalar value and decoding, whatever follows, gives it back. */
  lemma EncodeDecodes(code: u32, rest: seq<byte>, other: byte)
    requires IsScalar(code)
    ensures Encode(code) != [] && NextOf(Encode(code) + rest, other) == Char(code, |Encode(code)|)
  {
    var e, s := Encode(code), Encode(code) + rest;
    assert code <= 0x10FFFF;
    hide *;
    if code <= 0x7F {
      EncodeAscii(code, At(s, 1, other), At(s, 2, other), At(s, 3, other));
    } else if code <= 0x7FF {
      EncodeShort(code, At(s, 2, other), At(s, 3, other));
    } else if code <= 0xFFFF {
      EncodeMiddle(code, At(s, 3, other));
    } else {
      EncodeLong(code);
    }
    NextOfFirst(e, rest, other);
  }

  /** The bytes of a character that decodes. */
  lemma Shape(a: byte, b: byte, c: byte, d: byte)
    requires Next(a, b, c, d).Char?
    ensures a < 0x80 || 0xC2 <= a < 0xF5
    ensures a >= 0xC2 ==> Tail(b)
    ensures a >= 0xE0 ==> Tail(c) && (a == 0xE0 ==> b >= 0xA0) && (a == 0xED ==> b < 0xA0)
    ensures a >= 0xF0 ==> Tail(d) && (a == 0xF0 ==> b >= 0x90) && (a == 0xF4 ==> b < 0x90)
  {
  }

  /** Whatever decodes is a scalar value in its one encoding: no overlong forms, no surrogates. */
  lemma DecodeEncodes(a: byte, b: byte, c: byte, d: byte)
    requires Next(a, b, c, d).Char?
    ensures var r := Next(a, b, c, d); IsScalar(r.code) && r.length <= 4 && Encode(r.code) == [a, b, c, d][..r.length]
  {
    hide Encode, Next;
    Shape(a, b, c, d);
    if a < 0x80 {
      One(a, b, c, d);
      assert [a, b, c, d][..1] == [a];
    } else if a < 0xE0 {
      Two(a as int - 0xC0, b as int - 0x80, c, d);
      assert [a, b, c, d][..2] == [a, b];
    } else if a < 0xF0 {
      Three(a as int - 0xE0, b as int - 0x80, c as int - 0x80, d);
      assert [a, b, c, d][..3] == [a, b, c];
    } else {
      Four(a as int - 0xF0, b as int - 0x80, c as int - 0x80, d as int - 0x80);
      assert [a, b, c, d][..4] == [a, b, c, d];
    }
  }

  lemma One(a: byte, b: byte, c: byte, d: byte)
    requires a < 0x80 && Next(a, b, c, d).Char?
    ensures Next(a, b, c, d) == Char(a, 1) && Encode(a) == [a] && IsScalar(a)
  {
  }

  function EncodeAll(codes: seq<u32>): seq<byte> {
    if codes == [] then [] else Encode(codes[0]) + EncodeAll(codes[1..])
  }

  /** Read characters to the end; `None` if the bytes are not valid. */
  function DecodeAll(s: seq<byte>): Option<seq<u32>>
    decreases |s|
  {
    if s == [] then Some([])
    else
      match NextOf(s, 0)
      case Bad => None
      case Char(code, n) =>
        if n == 0 || n > |s| then None
        else
          match DecodeAll(s[n..])
          case None => None
          case Some(codes) => Some([code] + codes)
  }

  predicate AllScalar(codes: seq<u32>) { forall i | 0 <= i < |codes| :: IsScalar(codes[i]) }

  lemma EncodeAllParts(codes: seq<u32>)
    requires codes != [] && AllScalar(codes)
    ensures EncodeAll(codes) == Encode(codes[0]) + EncodeAll(codes[1..]) && AllScalar(codes[1..]) && IsScalar(codes[0]) && [codes[0]] + codes[1..] == codes
  {
    hide Encode, IsScalar;
  }

  /** UTF-8 encoding a sequence of scalar values and decoding it returns the sequence. */
  lemma {:induction false} RoundTrip(codes: seq<u32>)
    requires AllScalar(codes)
    ensures DecodeAll(EncodeAll(codes)) == Some(codes)
  {
    if codes != [] {
      hide *;
      EncodeAllParts(codes);
      RoundTrip(codes[1..]);
      DecodeFirst(codes[0], EncodeAll(codes[1..]));
    }
  }

  lemma DecodeFirst(code: u32, rest: seq<byte>)
    requires IsScalar(code)
    ensures DecodeAll(Encode(code) + rest) == if DecodeAll(rest).Some? then Some([code] + DecodeAll(rest).value) else None
  {
    var first := Encode(code);
    EncodeDecodes(code, rest, 0);
    hide Encode, NextOf;
    assert first + rest != [] && (first + rest)[|first|..] == rest;
  }

  lemma EncodeNothing()
    ensures EncodeAll([]) == []
  {
  }

  /** Bytes that begin with a text decode to that text and the rest. */
  lemma {:induction false} DecodeBehind(codes: seq<u32>, rest: seq<byte>)
    requires AllScalar(codes)
    ensures DecodeAll(EncodeAll(codes) + rest) == if DecodeAll(rest).Some? then Some(codes + DecodeAll(rest).value) else None
  {
    hide *;
    if codes == [] {
      EncodeNothing();
      assert [] + rest == rest;
      if DecodeAll(rest).Some? { assert codes + DecodeAll(rest).value == DecodeAll(rest).value; }
    } else {
      EncodeAllParts(codes);
      DecodeBehind(codes[1..], rest);
      DecodeFirst(codes[0], EncodeAll(codes[1..]) + rest);
      assert EncodeAll(codes) + rest == Encode(codes[0]) + (EncodeAll(codes[1..]) + rest);
      if DecodeAll(rest).Some? { assert [codes[0]] + (codes[1..] + DecodeAll(rest).value) == codes + DecodeAll(rest).value; }
    }
  }

  /** Bytes that decode are the encoding of what they decode to. */
  lemma {:induction false} DecodedIsEncoded(s: seq<byte>)
    requires DecodeAll(s).Some?
    ensures EncodeAll(DecodeAll(s).value) == s && AllScalar(DecodeAll(s).value)
    decreases |s|
  {
    if s != [] {
      DecodeParts(s);
      var n := NextOf(s, 0).length;
      FirstDecoded(s);
      hide *;
      DecodedIsEncoded(s[n..]);
      EncodeJoined(NextOf(s, 0).code, DecodeAll(s[n..]).value);
      assert s == s[..n] + s[n..];
    }
  }

  lemma DecodeParts(s: seq<byte>)
    requires s != [] && DecodeAll(s).Some?
    ensures NextOf(s, 0).Char? && 0 < NextOf(s, 0).length <= |s|
    ensures var first := NextOf(s, 0);
      DecodeAll(s[first.length..]).Some? && DecodeAll(s).value == [first.code] + DecodeAll(s[first.length..]).value
  {
    hide NextOf;
  }

  lemma EncodeJoined(code: u32, codes: seq<u32>)
    ensures EncodeAll([code] + codes) == Encode(code) + EncodeAll(codes)
    ensures IsScalar(code) && AllScalar(codes) ==> AllScalar([code] + codes)
  {
    hide Encode, IsScalar;
    assert ([code] + codes)[1..] == codes;
  }

  lemma FirstDecoded(s: seq<byte>)
    requires NextOf(s, 0).Char? && NextOf(s, 0).length <= |s|
    ensures var first := NextOf(s, 0); IsScalar(first.code) && Encode(first.code) == s[..first.length]
  {
    DecodeEncodes(At(s, 0, 0), At(s, 1, 0), At(s, 2, 0), At(s, 3, 0));
    hide Next, Encode;
  }

  lemma {:induction false} EncodeAppend(a: seq<u32>, b: seq<u32>)
    ensures EncodeAll(a + b) == EncodeAll(a) + EncodeAll(b)
  {
    if a == [] {
      assert a + b == b;
    } else {
      assert (a + b)[1..] == a[1..] + b;
      EncodeAppend(a[1..], b);
    }
    hide Encode;
  }
}

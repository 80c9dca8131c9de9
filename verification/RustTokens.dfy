/** The parts without structure: names, numbers, lifetimes and literals are read and shown as they were meant. */
module RustTokens {
  import opened Bytes
  import opened RustLexer
  import opened RustSyntax
  import opened RustPlaces
  import opened RustPrinter
  import opened RustInterpreter
  import opened RustText
  import Utf8
  import Punycode

  // ------------------------------------------------------------------ texts

  lemma {:induction false} HexSame(n: nat)
    ensures Hex(n) == HexText(n)
  {
    assert Nibble(n % 16) == HexChar(n % 16);
    if n >= 16 { HexSame(n / 16); }
  }

  /** Hexadecimal text has the value it was written for. */
  lemma {:induction false} HexTextMeans(n: nat)
    ensures AllHex(HexText(n)) && HexNumber(HexText(n)) == n
  {
    var w, c := HexText(n / 16), HexChar(n % 16);
    HexCharMeans(n % 16);
    if n >= 16 {
      HexTextMeans(n / 16);
      assert (w + [c])[..|w|] == w;
    } else {
      assert HexText(n)[..0] == "";
    }
    hide HexChar;
  }

  lemma HexCharMeans(d: nat)
    requires d < 16
    ensures IsHex(HexChar(d)) && HexDigit(HexChar(d)) == d && NibbleValue(HexChar(d)) == d && HexChar(d) != '_'
  {
  }

  lemma EscapedSame(ch: nat, quote: char)
    requires ch <= 0x10FFFF
    ensures Escaped(ch, quote) == RenderChar(ch, quote)
  {
    HexSame(ch);
    hide Hex, HexText;
    if ch == quote as int { assert "\\" + [quote] == "\\" + [if ch == 92 then '\\' else quote]; }
  }

  lemma {:induction false} EscapedAllSame(codes: seq<u32>)
    requires Utf8.AllScalar(codes)
    ensures EscapedAll(codes, '"') == RenderText(codes)
  {
    if codes != [] {
      EscapedSame(codes[0], '"');
      EscapedAllSame(codes[1..]);
    }
  }

  lemma BasicSame(p: Primitive)
    ensures BasicTypeName(TagOf(p)) == NameOf(p)
  {
  }

  lemma BasicTag(p: Primitive)
    ensures IsBasicType(TagOf(p))
  {
  }

  lemma LifetimeSame(index: nat, bound: nat)
    requires index <= bound
    ensures "'" + LifetimeText(bound, index) == RenderLife(index, bound)
  {
    hide Text10;
    if 0 < index && bound - index < 26 { LetterSame(bound - index); }
  }

  lemma LetterSame(i: nat)
    requires i < 26
    ensures 'a' + i as char == "abcdefghijklmnopqrstuvwxyz"[i]
  {
  }

  /** Names in order, each but the first behind a separator. */
  function Tail(words: seq<string>, sep: string, count: nat): string {
    if words == [] then "" else (if count == 0 then "" else sep) + words[0] + Tail(words[1..], sep, count + 1)
  }

  lemma {:induction false} JoinTail(words: seq<string>, sep: string)
    ensures Join(words, sep) == Tail(words, sep, 0)
    ensures words != [] ==> sep + Join(words, sep) == Tail(words, sep, 1)
  {
    if words != [] {
      JoinTail(words[1..], sep);
      TailCount(words[1..], sep, 1, 2);
      assert sep + (words[0] + Tail(words[1..], sep, 1)) == sep + words[0] + Tail(words[1..], sep, 1);
      if |words| > 1 {
        assert words[0] + sep + Join(words[1..], sep) == words[0] + (sep + Join(words[1..], sep));
      }
    }
  }

  lemma {:induction false} TailCount(words: seq<string>, sep: string, m: nat, n: nat)
    requires m > 0 && n > 0
    ensures Tail(words, sep, m) == Tail(words, sep, n)
  {
    if words != [] { TailCount(words[1..], sep, m + 1, n + 1); }
  }

  function Lifetimes(bound: nat, i: nat, n: nat): seq<string>
    decreases n - i
  {
    if i >= n then [] else [RenderLifetime(bound + i)] + Lifetimes(bound, i + 1, n)
  }

  lemma {:induction false} LifetimesAre(bound: nat, i: nat, n: nat)
    requires i <= n
    ensures |Lifetimes(bound, i, n)| == n - i && forall j | 0 <= j < n - i :: Lifetimes(bound, i, n)[j] == RenderLifetime(bound + i + j)
    decreases n - i
  {
    hide RenderLifetime;
    if i < n {
      LifetimesAre(bound, i + 1, n);
      var rest := Lifetimes(bound, i + 1, n);
      var all := [RenderLifetime(bound + i)] + rest;
      assert Lifetimes(bound, i, n) == all;
      forall j | 0 <= j < n - i ensures all[j] == RenderLifetime(bound + i + j) {
        if j > 0 { assert rest[j - 1] == RenderLifetime(bound + i + 1 + (j - 1)); }
      }
    }
  }

  lemma {:induction false} BinderTail(bound: nat, i: nat, n: nat)
    requires i <= n
    ensures BinderText(bound, i, n) == Tail(Lifetimes(bound, i, n), ", ", i)
    decreases n - i
  {
    hide *;
    if i < n {
      LifetimeSame(1, bound + i + 1);
      BinderTail(bound, i + 1, n);
      BinderStep(bound, i, n);
      TailLifetimes(bound, i, n);
      var sep := if i > 0 then ", " else "";
      assert sep + "'" + LifetimeText(bound + i + 1, 1) == sep + ("'" + LifetimeText(bound + i + 1, 1));
    } else {
      BinderEnd(bound, n);
    }
  }

  lemma BinderEnd(bound: nat, n: nat)
    ensures BinderText(bound, n, n) == Tail(Lifetimes(bound, n, n), ", ", n)
  {
  }

  lemma TailLifetimes(bound: nat, i: nat, n: nat)
    requires i < n
    ensures Tail(Lifetimes(bound, i, n), ", ", i)
         == (if i > 0 then ", " else "") + RenderLifetime(bound + i) + Tail(Lifetimes(bound, i + 1, n), ", ", i + 1)
  {
    hide RenderLifetime;
    assert Lifetimes(bound, i, n)[1..] == Lifetimes(bound, i + 1, n);
  }

  lemma BinderStep(bound: nat, i: nat, n: nat)
    requires i < n
    ensures BinderText(bound, i, n) == (if i > 0 then ", " else "") + "'" + LifetimeText(bound + i + 1, 1) + BinderText(bound, i + 1, n)
    ensures RenderLife(1, bound + i + 1) == RenderLifetime(bound + i)
  {
    hide LifetimeText;
  }

  lemma BinderSame(bound: nat, n: nat)
    requires n > 0
    ensures "for<" + BinderText(bound, 0, n) + "> " == RenderBinder(bound, n)
  {
    BinderTail(bound, 0, n);
    LifetimesAre(bound, 0, n);
    JoinTail(Lifetimes(bound, 0, n), ", ");
    var names := seq(n, i requires 0 <= i < n => RenderLifetime(bound + i));
    hide Lifetimes, Join, Tail, BinderText, RenderLifetime;
    assert names == Lifetimes(bound, 0, n);
  }

  function WithDashes(s: string): string { seq(|s|, i requires 0 <= i < |s| => if s[i] == '_' then '-' else s[i]) }

  lemma {:induction false} DashedSame(s: string)
    ensures Dashed(s) == WithDashes(s)
    decreases |s|
  {
    var k := FindUnderscore(s, 0);
    hide FindUnderscore;
    if k < |s| {
      DashedSame(s[k + 1..]);
      assert s[..k] + "-" + WithDashes(s[k + 1..]) == WithDashes(s);
    } else {
      assert WithDashes(s) == s;
    }
  }

  // ------------------------------------------------------------------ names

  lemma CodesSame(s: string)
    ensures Codes(s) == AsCodes(s) && Octets(s) == AsBytes(s) && Utf8.AllScalar(Codes(s))
  {
  }

  lemma CharsSame(bs: seq<byte>)
    ensures Chars(bs) == AsChars(bs) && |Chars(bs)| == |bs|
  {
  }

  lemma DecodedScalar(ascii: string, puny: string)
    requires Punycode.Decode(Codes(ascii), 0, 0x80, 72, true, Octets(puny)).Decoded?
    ensures Utf8.AllScalar(Punycode.Decode(Codes(ascii), 0, 0x80, 72, true, Octets(puny)).text)
  {
    CodesSame(ascii);
    Punycode.DecodeInserts(Codes(ascii), 0, 0x80, 72, true, Octets(puny));
  }

  lemma NeededMore(text: seq<u32>)
    requires Utf8.AllScalar(text)
    ensures |Utf8.EncodeAll(text)| <= Punycode.NeededRoom(text) <= |Utf8.EncodeAll(text)| + 3
  {
    if text == [] {
      Utf8.EncodeNothing();
    } else {
      var n := |text| - 1;
      Punycode.EncodeNext(text, n);
      assert text[..n + 1] == text;
      Utf8.EncodeDecodes(text[n], [], 0);
      hide Utf8.Encode, Utf8.NextOf, Utf8.EncodeAll;
    }
  }

  /** A name is shown as it reads, and needs at most three bytes more than it takes. */
  lemma DisplaySame(ascii: string, puny: string)
    ensures DisplayIdent(ascii, puny).text == RenderName(Name(ascii, puny)) && DisplayIdent(ascii, puny).slack <= 3
  {
    CodesSame(ascii);
    CodesSame(puny);
    hide Punycode.Decode, Utf8.EncodeAll, Utf8.AllScalar, Punycode.NeededRoom, Codes, Octets, AsCodes, AsBytes, Chars, AsChars;
    var d := Punycode.Decode(Codes(ascii), 0, 0x80, 72, true, Octets(puny));
    if puny != "" {
      if d.Decoded? {
        DecodedScalar(ascii, puny);
        NeededMore(d.text);
        CharsSame(Utf8.EncodeAll(d.text));
      } else {
        assert "punycode{" + (ascii + "-") + puny + "}" == "punycode{" + (ascii + "-" + puny) + "}";
      }
    }
  }

  lemma PartIs(sym: string, p: nat, w: string)
    requires TextAt(sym, p, w)
    ensures Part(sym, p, |w|) == w
  {
  }

  /** A mangled name is read back part by part. */
  lemma NameReads(sym: string, p: nat, n: Name)
    requires Stands(sym, p, MangleName(n)) && FitsName(n)
    ensures var r := Identifier(sym, p);
      && r.IdentAt? && r.next == p + |MangleName(n)|
      && Part(sym, r.ident.asciiStart, r.ident.asciiLen) == n.ascii && Part(sym, r.ident.punyStart, r.ident.punyLen) == n.puny
      && r.ident.asciiLen == |n.ascii| && r.ident.punyLen == |n.puny|
  {
    hide *;
    var bytes := IdentBytes(n.ascii, n.puny);
    NameStands(sym, p, n);
    SeparatedName(sym, p, n);
    IdentifierRoundTrip(sym, p, n.ascii, n.puny, NeedsSeparator(bytes));
    NameBytesAt(sym, p, n);
    NameParts(sym, p + |MangleName(n)| - |bytes|, n);
  }

  lemma NameStands(sym: string, p: nat, n: Name)
    requires Stands(sym, p, MangleName(n)) && FitsName(n)
    ensures TextAt(sym, p, MangleName(n)) && '_' !in n.puny
    ensures MangleName(n) == EncodeIdent(n.ascii, n.puny, NeedsSeparator(IdentBytes(n.ascii, n.puny)))
  {
    hide EncodeIdent, TextAt;
  }

  lemma SeparatedName(sym: string, p: nat, n: Name)
    requires Stands(sym, p, MangleName(n))
    ensures var bytes := IdentBytes(n.ascii, n.puny); RustLexer.Separated(sym, p + |MangleName(n)|, bytes, NeedsSeparator(bytes))
  {
    hide Text10, IdentBytes;
  }

  lemma NameBytesAt(sym: string, p: nat, n: Name)
    requires TextAt(sym, p, MangleName(n))
    ensures var bytes := IdentBytes(n.ascii, n.puny); |bytes| <= |MangleName(n)| && TextAt(sym, p + |MangleName(n)| - |bytes|, bytes)
  {
    hide Text10, TextAt, IdentBytes, NeedsSeparator, Separator, Mark;
    var bytes := IdentBytes(n.ascii, n.puny);
    var sep := Separator(NeedsSeparator(bytes));
    TextParts(sym, p, Mark(n.puny), Text10(|bytes|) + (sep + bytes));
    TextParts(sym, p + |Mark(n.puny)|, Text10(|bytes|), sep + bytes);
    TextParts(sym, p + |Mark(n.puny)| + |Text10(|bytes|)|, sep, bytes);
  }

  lemma NameParts(sym: string, start: nat, n: Name)
    requires TextAt(sym, start, IdentBytes(n.ascii, n.puny))
    ensures var i := IdentOf(n.ascii, n.puny, start);
      && Part(sym, i.asciiStart, i.asciiLen) == n.ascii && Part(sym, i.punyStart, i.punyLen) == n.puny
      && i.asciiLen == |n.ascii| && i.punyLen == |n.puny|
  {
    hide TextAt;
    if n.puny == "" {
      PartIs(sym, start, n.ascii);
    } else if n.ascii == "" {
      PartIs(sym, start, n.puny);
    } else {
      TextParts(sym, start, n.ascii + "_", n.puny);
      TextParts(sym, start, n.ascii, "_");
      PartIs(sym, start, n.ascii);
      PartIs(sym, start + |n.ascii| + 1, n.puny);
    }
    if n.ascii == "" || n.puny == "" { assert TextAt(sym, start, "") by { Nothing(sym, start, IdentBytes(n.ascii, n.puny)); } PartIs(sym, start, ""); }
  }

  lemma Nothing(sym: string, p: nat, w: string)
    requires TextAt(sym, p, w)
    ensures TextAt(sym, p, "")
  {
  }

  // ------------------------------------------------------------------ numbers

  /** A number that may be left out is read, if what follows it does not start like one. */
  lemma OptReads(sym: string, p: nat, tag: char, n: nat)
    requires TextAt(sym, p, MangleOpt(tag, n)) && FitsNumber(n) && !(n == 0 && Eats(sym, p, tag))
    ensures OptInteger62(sym, p, tag) == RustLexer.Number(n, p + |MangleOpt(tag, n)|)
  {
    hide TextAt, Encode62, Integer62;
    if n > 0 {
      TextParts(sym, p, [tag], Encode62(n - 1));
      CharAt(sym, p, [tag], 0);
      Integer62RoundTrip(sym, p + 1, n - 1);
    }
  }

  lemma {:induction false} HexFromReads(sym: string, start: nat, p: nat, end: nat)
    requires start <= p <= end < |sym| && sym[end] == '_' && forall i | p <= i < end :: IsHex(sym[i])
    ensures HexFrom(sym, start, p) == Nibbles(start, end - start, end + 1)
    decreases end - p
  {
    if p < end { HexFromReads(sym, start, p + 1, end); }
  }

  lemma DigitsAt(sym: string, p: nat, digits: string)
    requires TextAt(sym, p, digits) && AllHex(digits)
    ensures p + |digits| <= |sym| && forall i | p <= i < p + |digits| :: IsHex(sym[i])
  {
    hide IsHex, TextAt;
    assert p + |digits| <= |sym| by { TextFits(sym, p, digits); }
    forall i | p <= i < p + |digits| ensures IsHex(sym[i]) { CharAt(sym, p, digits, i - p); }
  }

  lemma TextFits(sym: string, p: nat, w: string)
    requires TextAt(sym, p, w)
    ensures p + |w| <= |sym|
  {
  }

  lemma HexReads(sym: string, p: nat, digits: string)
    requires TextAt(sym, p, digits + "_") && AllHex(digits)
    ensures HexNibbles(sym, p) == Nibbles(p, |digits|, p + |digits| + 1) && TextAt(sym, p, digits)
  {
    hide IsHex, TextAt, HexFrom;
    TextParts(sym, p, digits, "_");
    CharAt(sym, p + |digits|, "_", 0);
    DigitsAt(sym, p, digits);
    HexFromReads(sym, p, p, p + |digits|);
  }

  // ------------------------------------------------------------------ the value of hexadecimal digits

  function Pow16(n: nat): nat { if n == 0 then 1 else 16 * Pow16(n - 1) }

  lemma {:induction false} Pow16Grows(m: nat, n: nat)
    requires m <= n
    ensures 1 <= Pow16(m) <= Pow16(n)
    decreases n
  {
    if m < n { Pow16Grows(m, n - 1); } else if n > 0 { Pow16Grows(m - 1, n - 1); }
  }

  lemma Pow16Word()
    ensures Pow16(16) == U64_MAX + 1
  {
    assert Pow16(4) == 0x1_0000;
    assert Pow16(8) == 0x1_0000_0000;
    assert Pow16(12) == 0x1_0000_0000_0000;
  }

  lemma {:induction false} NumberBelow(digits: string)
    requires AllHex(digits)
    ensures HexNumber(digits) < Pow16(|digits|)
  {
    if digits != "" { NumberBelow(digits[..|digits| - 1]); }
  }

  lemma {:induction false} NumberAbove(digits: string)
    requires AllHex(digits) && digits != "" && digits[0] != '0'
    ensures Pow16(|digits| - 1) <= HexNumber(digits)
  {
    if |digits| > 1 {
      NumberAbove(digits[..|digits| - 1]);
    } else {
      assert digits[..0] == "" && HexNumber(digits) == HexDigit(digits[0]);
      assert IsHex(digits[0]);
    }
  }

  lemma {:induction false} ZerosInFront(zeros: string, digits: string)
    requires forall i | 0 <= i < |zeros| :: zeros[i] == '0'
    ensures HexNumber(zeros + digits) == HexNumber(digits)
    decreases |zeros| + |digits|
  {
    if digits == "" {
      assert zeros + digits == zeros;
      if zeros != "" {
        ZerosInFront(zeros[..|zeros| - 1], "");
        assert zeros[..|zeros| - 1] + "" == zeros[..|zeros| - 1];
      }
    } else {
      var n := |digits| - 1;
      ZerosInFront(zeros, digits[..n]);
      assert (zeros + digits)[..|zeros| + n] == zeros + digits[..n];
    }
  }

  lemma {:induction false} SkipsZeros(sym: string, p: nat, end: nat)
    requires p <= end <= |sym|
    ensures var q := SkipZeros(sym, p, end); (forall i | p <= i < q :: sym[i] == '0') && (q < end ==> sym[q] != '0')
    decreases end - p
  {
    if p < end && sym[p] == '0' { SkipsZeros(sym, p + 1, end); }
  }

  /** Digit by digit from the left: `x` is the value of the digits before. */
  lemma {:induction false} ValueFromLeft(sym: string, start: nat, p: nat, end: nat)
    requires start <= p <= end <= |sym|
    ensures HexValue(sym, p, end, HexNumber(sym[start..p])) == HexNumber(sym[start..end])
    decreases end - p
  {
    if p < end {
      ValueFromLeft(sym, start, p + 1, end);
      assert sym[start..p + 1][..p - start] == sym[start..p] && sym[start..p + 1][p - start] == sym[p];
    }
  }

  /** The demangler's number is the value of the digits, if that fits 64 bits. */
  lemma UintReads(sym: string, p: nat, digits: string)
    requires TextAt(sym, p, digits) && AllHex(digits)
    ensures p + |digits| <= |sym|
    ensures ParseUint(sym, p, |digits|) == if HexNumber(digits) <= U64_MAX then Some(HexNumber(digits)) else None
  {
    hide *;
    TextFits(sym, p, digits);
    SkippedValue(sym, p, digits);
    var end := p + |digits|;
    var q := SkipZeros(sym, p, end);
    Fits64(sym[q..end]);
    UintIs(sym, p, |digits|);
  }

  lemma UintIs(sym: string, p: nat, len: nat)
    requires p + len <= |sym|
    ensures var q := SkipZeros(sym, p, p + len); ParseUint(sym, p, len) == if p + len - q > 16 then None else Some(HexValue(sym, q, p + len, 0))
  {
  }

  /** Zeros in front do not matter. */
  lemma SkippedValue(sym: string, p: nat, digits: string)
    requires TextAt(sym, p, digits) && AllHex(digits) && p + |digits| <= |sym|
    ensures var end := p + |digits|; var q := SkipZeros(sym, p, end);
      AllHex(sym[q..end]) && (q < end ==> sym[q] != '0') && HexValue(sym, q, end, 0) == HexNumber(sym[q..end]) == HexNumber(digits)
  {
    hide HexValue, HexNumber, AllHex, SkipZeros;
    var end := p + |digits|;
    var q := SkipZeros(sym, p, end);
    SkipsZeros(sym, p, end);
    var rest := sym[q..end];
    assert digits == sym[p..q] + rest && rest == digits[q - p..];
    ZerosInFront(sym[p..q], rest);
    RestIsHex(digits, q - p, rest);
    assert sym[q..q] == "";
    EmptyNumber();
    ValueFromLeft(sym, q, q, end);
  }

  lemma RestIsHex(digits: string, k: nat, rest: string)
    requires AllHex(digits) && k <= |digits| && rest == digits[k..]
    ensures AllHex(rest)
  {
  }

  lemma EmptyNumber()
    ensures HexNumber("") == 0
  {
  }

  lemma Fits64(rest: string)
    requires AllHex(rest) && (rest != "" ==> rest[0] != '0')
    ensures |rest| <= 16 <==> HexNumber(rest) <= U64_MAX
  {
    hide HexNumber, Pow16;
    NumberBelow(rest);
    Pow16Word();
    if |rest| <= 16 {
      Pow16Grows(|rest|, 16);
    } else {
      NumberAbove(rest);
      Pow16Grows(16, |rest| - 1);
    }
  }

  // ------------------------------------------------------------------ text literals

  lemma {:induction false} BytesAreHex(bs: seq<byte>)
    ensures |MangleBytes(bs)| == 2 * |bs| && AllHex(MangleBytes(bs))
  {
    if bs != [] {
      BytesAreHex(bs[1..]);
      HexCharMeans(bs[0] / 16);
      HexCharMeans(bs[0] % 16);
      hide HexChar, IsHex;
      var w := [HexChar(bs[0] / 16), HexChar(bs[0] % 16)];
      assert MangleBytes(bs) == w + MangleBytes(bs[1..]);
    }
  }

  lemma {:induction false} BytesRead(sym: string, p: nat, bs: seq<byte>)
    requires TextAt(sym, p, MangleBytes(bs))
    ensures p + 2 * |bs| <= |sym| && NibbleBytes(sym, p, 2 * |bs|) == bs
    decreases |bs|
  {
    hide HexChar, TextAt, MangleBytes, NibbleValue, NibbleBytes, AllHex;
    BytesAreHex(bs);
    TextFits(sym, p, MangleBytes(bs));
    if bs == [] {
      NoNibbles(sym, p);
    } else {
      BytesStep(bs);
      TextParts(sym, p, ByteText(bs[0]), MangleBytes(bs[1..]));
      ByteReads(sym, p, bs[0]);
      BytesRead(sym, p + 2, bs[1..]);
      NibblesStep(sym, p, 2 * |bs|);
      assert [bs[0]] + bs[1..] == bs;
    }
  }

  function ByteText(b: byte): string { [HexChar(b / 16), HexChar(b % 16)] }

  lemma ByteReads(sym: string, p: nat, b: byte)
    requires TextAt(sym, p, ByteText(b))
    ensures p + 2 <= |sym| && U8(16 * NibbleValue(sym[p]) + NibbleValue(sym[p + 1])) == b
  {
    hide HexChar, TextAt, NibbleValue;
    HexCharMeans(b / 16);
    HexCharMeans(b % 16);
    CharAt(sym, p, ByteText(b), 0);
    CharAt(sym, p, ByteText(b), 1);
    assert 16 * (b / 16) + b % 16 == b;
  }

  lemma NoNibbles(sym: string, p: nat)
    requires p <= |sym|
    ensures NibbleBytes(sym, p, 0) == []
  {
  }

  lemma NibblesStep(sym: string, p: nat, len: nat)
    requires p + len <= |sym| && len >= 2
    ensures NibbleBytes(sym, p, len) == [U8(16 * NibbleValue(sym[p]) + NibbleValue(sym[p + 1]))] + NibbleBytes(sym, p + 2, len - 2)
  {
  }

  lemma BytesStep(bs: seq<byte>)
    requires bs != []
    ensures MangleBytes(bs) == ByteText(bs[0]) + MangleBytes(bs[1..])
  {
  }
}

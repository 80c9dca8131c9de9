/** The lexical level of the Rust v0 demangler in src/rustDemangle.cpp: functions of the symbol and a position. */
module RustLexer {
  import opened Bytes

  const U64_MAX: nat := 0xFFFF_FFFF_FFFF_FFFF

  /** `parser_peek`: behind the end there is an imaginary terminator. */
  function Peek(sym: string, p: nat): char { if p < |sym| then sym[p] else '\0' }

  predicate Eats(sym: string, p: nat, c: char) { p < |sym| && sym[p] == c }

  /** A number and the position behind it. */
  datatype Number = Number(value: nat, next: nat) | NoNumber

  function Digit10(c: char): Option<nat> { if '0' <= c <= '9' then Some((c - '0') as nat) else None }

  function Digit62(c: char): Option<nat> {
    if '0' <= c <= '9' then Some((c - '0') as nat)
    else if 'a' <= c <= 'z' then Some(10 + (c - 'a') as nat)
    else if 'A' <= c <= 'Z' then Some(36 + (c - 'A') as nat)
    else None
  }

  function Digits62(sym: string, p: nat, x: nat): (r: Number)
    ensures r.Number? ==> p < r.next <= |sym| && r.value <= U64_MAX
    decreases |sym| - p
  {
    if Eats(sym, p, '_') then (if x >= U64_MAX then NoNumber else Number(x + 1, p + 1))
    else if p >= |sym| then NoNumber
    else
      match Digit62(sym[p])
      case None => NoNumber
      case Some(d) => if x > U64_MAX / 62 || 62 * x > U64_MAX - d then NoNumber else Digits62(sym, p + 1, 62 * x + d)
  }

  /** `parser_integer_62`. */
  function Integer62(sym: string, p: nat): (r: Number)
    ensures r.Number? ==> p < r.next <= |sym| && r.value <= U64_MAX
  {
    if Eats(sym, p, '_') then Number(0, p + 1) else Digits62(sym, p, 0)
  }

  /** `w` stands at `p`. */
  predicate TextAt(sym: string, p: nat, w: string) { p + |w| <= |sym| && sym[p..p + |w|] == w }

  lemma TextParts(sym: string, p: nat, a: string, b: string)
    requires TextAt(sym, p, a + b)
    ensures TextAt(sym, p, a) && TextAt(sym, p + |a|, b)
  {
    var w := a + b;
    assert sym[p..p + |a|] == sym[p..p + |w|][..|a|];
    assert sym[p + |a|..p + |w|] == sym[p..p + |w|][|a|..];
  }

  lemma CharAt(sym: string, p: nat, w: string, i: nat)
    requires TextAt(sym, p, w) && i < |w|
    ensures p + i < |sym| && sym[p + i] == w[i]
  {
    assert sym[p + i] == sym[p..p + |w|][i];
  }

  // ------------------------------------------------------------------ what a number means

  /** Base-62 digits from `p` on. */
  function Run62(sym: string, p: nat): (n: nat)
    ensures p <= |sym| ==> p + n <= |sym|
    decreases |sym| - p
  {
    if p < |sym| && Digit62(sym[p]).Some? then 1 + Run62(sym, p + 1) else 0
  }

  /** The value of the `n` digits at `p` behind digits of value `x`, however large. */
  function Value62(sym: string, p: nat, n: nat, x: nat): nat
    requires p + n <= |sym| && forall i | p <= i < p + n :: Digit62(sym[i]).Some?
    decreases n
  {
    if n == 0 then x else Value62(sym, p + 1, n - 1, 62 * x + Digit62(sym[p]).value)
  }

  lemma {:induction false} RunIsDigits(sym: string, p: nat)
    requires p <= |sym|
    ensures forall i | p <= i < p + Run62(sym, p) :: Digit62(sym[i]).Some?
    decreases |sym| - p
  {
    if p < |sym| && Digit62(sym[p]).Some? { RunIsDigits(sym, p + 1); }
  }

  lemma {:induction false} ValueGrows(sym: string, p: nat, n: nat, x: nat)
    requires p + n <= |sym| && forall i | p <= i < p + n :: Digit62(sym[i]).Some?
    ensures x <= Value62(sym, p, n, x)
    decreases n
  {
    if n > 0 { ValueGrows(sym, p + 1, n - 1, 62 * x + Digit62(sym[p]).value); }
  }

  lemma {:induction false} DigitsExact(sym: string, p: nat, x: nat)
    requires p <= |sym| && x <= U64_MAX
    ensures forall i | p <= i < p + Run62(sym, p) :: Digit62(sym[i]).Some?
    ensures var n := Run62(sym, p); var v := Value62(sym, p, n, x);
            Digits62(sym, p, x) == if Eats(sym, p + n, '_') && v < U64_MAX then Number(v + 1, p + n + 1) else NoNumber
    decreases |sym| - p
  {
    RunIsDigits(sym, p);
    if p < |sym| && Digit62(sym[p]).Some? {
      var n, y := Run62(sym, p), 62 * x + Digit62(sym[p]).value;
      if y > U64_MAX { ValueGrows(sym, p + 1, n - 1, y); } else { DigitsExact(sym, p + 1, y); }
    }
  }

  /**
   A number is read exactly if its digits end with an underscore and what they mean fits 64 bits: nothing for zero, and
   otherwise one less than the number in base 62.
   */
  lemma Integer62Exact(sym: string, p: nat)
    requires p <= |sym|
    ensures forall i | p <= i < p + Run62(sym, p) :: Digit62(sym[i]).Some?
    ensures var n := Run62(sym, p); var v := if n == 0 then 0 else 1 + Value62(sym, p, n, 0);
            Integer62(sym, p) == if Eats(sym, p + n, '_') && v <= U64_MAX then Number(v, p + n + 1) else NoNumber
  {
    DigitsExact(sym, p, 0);
  }

  function Char62(d: nat): char
    requires d < 62
  {
    if d < 10 then '0' + d as char else if d < 36 then 'a' + (d - 10) as char else 'A' + (d - 36) as char
  }

  /** `n` in base 62. */
  function Text62(n: nat): string { if n < 62 then [Char62(n)] else Text62(n / 62) + [Char62(n % 62)] }

  /** A number as a compiler writes it. */
  function Encode62(v: nat): string { if v == 0 then "_" else Text62(v - 1) + "_" }

  lemma CharIsDigit(d: nat)
    requires d < 62
    ensures Digit62(Char62(d)) == Some(d) && Char62(d) != '_'
  {
  }

  lemma {:induction false} ValueSnoc(sym: string, p: nat, n: nat, x: nat)
    requires p + n < |sym| && forall i | p <= i < p + n + 1 :: Digit62(sym[i]).Some?
    ensures Value62(sym, p, n + 1, x) == 62 * Value62(sym, p, n, x) + Digit62(sym[p + n]).value
    decreases n
  {
    if n > 0 { ValueSnoc(sym, p + 1, n - 1, 62 * x + Digit62(sym[p]).value); }
  }

  /** Written digits have the value they were written for. */
  lemma {:induction false} TextValue(sym: string, p: nat, n: nat)
    requires TextAt(sym, p, Text62(n))
    ensures |Text62(n)| > 0 && p + |Text62(n)| <= |sym| && forall i | p <= i < p + |Text62(n)| :: Digit62(sym[i]).Some?
    ensures Value62(sym, p, |Text62(n)|, 0) == n
    decreases n
  {
    hide Char62, Digit62, Text62, TextAt;
    Text62Step(n);
    CharIsDigit(n % 62);
    if n < 62 {
      CharAt(sym, p, Text62(n), 0);
    } else {
      var w := Text62(n / 62);
      TextParts(sym, p, w, [Char62(n % 62)]);
      CharAt(sym, p + |w|, [Char62(n % 62)], 0);
      TextValue(sym, p, n / 62);
      ValueSnoc(sym, p, |w|, 0);
    }
  }

  lemma Text62Step(n: nat)
    ensures Text62(n) == if n < 62 then [Char62(n)] else Text62(n / 62) + [Char62(n % 62)]
  {
  }

  lemma {:induction false} RunOf(sym: string, p: nat, n: nat)
    requires p + n < |sym| && sym[p + n] == '_' && forall i | p <= i < p + n :: Digit62(sym[i]).Some?
    ensures Run62(sym, p) == n
    decreases n
  {
    if n > 0 { RunOf(sym, p + 1, n - 1); }
  }

  /** What a compiler writes is read back, for every number of 64 bits and none beyond. */
  lemma Integer62RoundTrip(sym: string, p: nat, v: nat)
    requires TextAt(sym, p, Encode62(v))
    ensures Integer62(sym, p) == if v <= U64_MAX then Number(v, p + |Encode62(v)|) else NoNumber
  {
    hide Digit62, Text62, Run62, Value62, Integer62, TextAt;
    var n := |Encode62(v)| - 1;
    if v > 0 {
      TextParts(sym, p, Text62(v - 1), "_");
      TextValue(sym, p, v - 1);
    }
    CharAt(sym, p, Encode62(v), n);
    RunOf(sym, p, n);
    Integer62Exact(sym, p);
  }

  /** `parser_opt_integer_62`. */
  function OptInteger62(sym: string, p: nat, tag: char): (r: Number)
    ensures r.Number? && p <= |sym| ==> p <= r.next <= |sym|
  {
    if !Eats(sym, p, tag) then Number(0, p)
    else
      match Integer62(sym, p + 1)
      case NoNumber => NoNumber
      case Number(value, next) => if value == U64_MAX then NoNumber else Number(value + 1, next)
  }

  /** An identifier: a plain part and a punycode part. */
  datatype Ident = Ident(asciiStart: nat, asciiLen: nat, punyStart: nat, punyLen: nat)

  datatype IdentAt = IdentAt(ident: Ident, next: nat) | NoIdent

  function Digits10(sym: string, p: nat, x: nat): (r: (nat, nat))
    ensures p <= r.1 && (p <= |sym| ==> r.1 <= |sym|)
    decreases |sym| - p
  {
    if p < |sym| && Digit10(sym[p]).Some? then Digits10(sym, p + 1, 10 * x + Digit10(sym[p]).value) else (x, p)
  }

  /** The last underscore among the `n` characters at `p`, or `n`. */
  function LastUnderscore(sym: string, p: nat, n: nat): (k: nat)
    requires p + n <= |sym|
    ensures k <= n
    ensures k < n ==> sym[p + k] == '_'
  {
    if n == 0 then 0
    else if sym[p + n - 1] == '_' then n - 1
    else
      var k := LastUnderscore(sym, p, n - 1);
      if k == n - 1 then n else k
  }

  /** `parser_ident`: the overflow tests on the length need no case of their own, the symbol is shorter anyway. */
  function Identifier(sym: string, p: nat): (r: IdentAt)
    ensures r.IdentAt? ==> p < r.next <= |sym|
  {
    var puny := Eats(sym, p, 'u');
    var q := if puny then p + 1 else p;
    if q >= |sym| || Digit10(sym[q]).None? then NoIdent
    else
      var (len, after) := if sym[q] == '0' then (0, q + 1) else Digits10(sym, q + 1, Digit10(sym[q]).value);
      var start := if Eats(sym, after, '_') then after + 1 else after;
      if |sym| - start < len then NoIdent
      else if !puny then IdentAt(Ident(start, len, start, 0), start + len)
      else
        var k := LastUnderscore(sym, start, len);
        if k == len then (if len == 0 then NoIdent else IdentAt(Ident(start, 0, start, len), start + len))
        else if len - 1 - k == 0 then NoIdent
        else IdentAt(Ident(start, k, start + k + 1, len - 1 - k), start + len)
  }

  // ------------------------------------------------------------------ what an identifier means

  function Char10(d: nat): char
    requires d < 10
  {
    '0' + d as char
  }

  function Text10(n: nat): string { if n < 10 then [Char10(n)] else Text10(n / 10) + [Char10(n % 10)] }

  /** The bytes of an identifier: with punycode, the plain part and an underscore stand before it, if there is a plain part. */
  function IdentBytes(ascii: string, puny: string): string {
    if puny == "" then ascii else if ascii == "" then puny else ascii + "_" + puny
  }

  function Mark(puny: string): string { if puny == "" then "" else "u" }

  /** An identifier as a compiler writes it: the length of its bytes, a separator where one is needed, and the bytes. */
  function EncodeIdent(ascii: string, puny: string, sep: bool): string {
    Mark(puny) + (Text10(|IdentBytes(ascii, puny)|) + (Separator(sep) + IdentBytes(ascii, puny)))
  }

  /** Where the parts stand when the bytes start at `start`. */
  function IdentOf(ascii: string, puny: string, start: nat): Ident {
    if puny == "" then Ident(start, |ascii|, start, 0)
    else if ascii == "" then Ident(start, 0, start, |puny|)
    else Ident(start, |ascii|, start + |ascii| + 1, |puny|)
  }

  function Value10(sym: string, p: nat, n: nat, x: nat): nat
    requires p + n <= |sym| && forall i | p <= i < p + n :: Digit10(sym[i]).Some?
    decreases n
  {
    if n == 0 then x else Value10(sym, p + 1, n - 1, 10 * x + Digit10(sym[p]).value)
  }

  lemma {:induction false} DigitsAre(sym: string, p: nat, n: nat, x: nat)
    requires p + n <= |sym| && forall i | p <= i < p + n :: Digit10(sym[i]).Some?
    requires p + n < |sym| ==> Digit10(sym[p + n]).None?
    ensures Digits10(sym, p, x) == (Value10(sym, p, n, x), p + n)
    decreases n
  {
    if n > 0 { DigitsAre(sym, p + 1, n - 1, 10 * x + Digit10(sym[p]).value); }
  }

  lemma {:induction false} ValueSnoc10(sym: string, p: nat, n: nat, x: nat)
    requires p + n < |sym| && forall i | p <= i < p + n + 1 :: Digit10(sym[i]).Some?
    ensures Value10(sym, p, n + 1, x) == 10 * Value10(sym, p, n, x) + Digit10(sym[p + n]).value
    decreases n
  {
    if n > 0 { ValueSnoc10(sym, p + 1, n - 1, 10 * x + Digit10(sym[p]).value); }
  }

  lemma CharIsDigit10(d: nat)
    requires d < 10
    ensures Digit10(Char10(d)) == Some(d) && (Char10(d) == '0' <==> d == 0)
  {
  }

  /** Decimal digits have the value they were written for, and only zero starts with a zero. */
  lemma {:induction false} TextValue10(sym: string, p: nat, n: nat)
    requires TextAt(sym, p, Text10(n))
    ensures |Text10(n)| > 0 && p + |Text10(n)| <= |sym| && (sym[p] == '0' <==> n == 0) && (n == 0 ==> |Text10(n)| == 1)
    ensures forall i | p <= i < p + |Text10(n)| :: Digit10(sym[i]).Some?
    ensures Value10(sym, p, |Text10(n)|, 0) == n
    decreases n
  {
    hide Char10, Digit10, Text10, TextAt;
    Text10Step(n);
    CharIsDigit10(n % 10);
    if n < 10 {
      CharAt(sym, p, Text10(n), 0);
    } else {
      var w := Text10(n / 10);
      TextParts(sym, p, w, [Char10(n % 10)]);
      CharAt(sym, p + |w|, [Char10(n % 10)], 0);
      TextValue10(sym, p, n / 10);
      ValueSnoc10(sym, p, |w|, 0);
    }
  }

  lemma Text10Step(n: nat)
    ensures Text10(n) == if n < 10 then [Char10(n)] else Text10(n / 10) + [Char10(n % 10)]
  {
  }

  lemma {:induction false} LastUnderscoreIs(sym: string, p: nat, n: nat, k: nat)
    requires p + n <= |sym| && k <= n && (k < n ==> sym[p + k] == '_') && forall i | p + k < i < p + n :: sym[i] != '_'
    requires k == n ==> forall i | p <= i < p + n :: sym[i] != '_'
    ensures LastUnderscore(sym, p, n) == k
    decreases n
  {
    if n > 0 && sym[p + n - 1] != '_' { LastUnderscoreIs(sym, p, n - 1, if k == n then n - 1 else k); }
  }

  /** A separator is written, or is not needed: the bytes, or without any what follows at `next`, start with neither a digit nor an underscore. */
  predicate Separated(sym: string, next: nat, bytes: string, sep: bool) {
    sep || (if bytes == "" then !Eats(sym, next, '_') else bytes[0] != '_' && Digit10(bytes[0]).None?)
  }

  function Separator(sep: bool): string { if sep then "_" else "" }

  /** Length and bytes of an identifier at `q`: what is read of them. */
  function LengthAt(sym: string, q: nat): (nat, nat)
    requires q < |sym| && Digit10(sym[q]).Some?
  {
    if sym[q] == '0' then (0, q + 1) else Digits10(sym, q + 1, Digit10(sym[q]).value)
  }

  lemma LengthReads(sym: string, q: nat, bytes: string, sep: bool)
    requires TextAt(sym, q, Text10(|bytes|) + (Separator(sep) + bytes)) && Separated(sym, q + |Text10(|bytes|)|, bytes, sep)
    ensures q < |sym| && Digit10(sym[q]).Some? && LengthAt(sym, q) == (|bytes|, q + |Text10(|bytes|)|)
    ensures Eats(sym, q + |Text10(|bytes|)|, '_') == sep && TextAt(sym, q + |Text10(|bytes|)| + |Separator(sep)|, bytes)
  {
    hide Text10, Digits10, Value10, LengthAt, TextAt;
    var w := Text10(|bytes|);
    TextParts(sym, q, w, Separator(sep) + bytes);
    TextParts(sym, q + |w|, Separator(sep), bytes);
    TextValue10(sym, q, |bytes|);
    if sep { CharAt(sym, q + |w|, "_", 0); } else if bytes != "" { CharAt(sym, q + |w|, bytes, 0); }
    LengthEnds(sym, q, q + |w|, |bytes|);
  }

  lemma LengthEnds(sym: string, q: nat, after: nat, n: nat)
    requires q < after <= |sym| && (forall i | q <= i < after :: Digit10(sym[i]).Some?) && Value10(sym, q, after - q, 0) == n
    requires (sym[q] == '0' <==> n == 0) && (n == 0 ==> after == q + 1)
    requires n > 0 && after < |sym| ==> Digit10(sym[after]).None?
    ensures LengthAt(sym, q) == (n, after)
  {
    if sym[q] != '0' { DigitsAre(sym, q + 1, after - q - 1, Digit10(sym[q]).value); }
  }

  /** An identifier is split into its plain part and its punycode part as it was put together. */
  lemma IdentifierRoundTrip(sym: string, p: nat, ascii: string, puny: string, sep: bool)
    requires TextAt(sym, p, EncodeIdent(ascii, puny, sep)) && '_' !in puny
    requires Separated(sym, p + |EncodeIdent(ascii, puny, sep)|, IdentBytes(ascii, puny), sep)
    ensures var end := p + |EncodeIdent(ascii, puny, sep)|;
            Identifier(sym, p) == IdentAt(IdentOf(ascii, puny, end - |IdentBytes(ascii, puny)|), end)
  {
    hide Text10, Digit10, LengthAt, TextAt, LastUnderscore, Separated, Identifier, IdentBytes, IdentOf, Eats;
    var b, q := IdentBytes(ascii, puny), p + |Mark(puny)|;
    var start := q + |Text10(|b|)| + |Separator(sep)|;
    PrefixReads(sym, p, b, puny, sep);
    PartsRead(sym, start, ascii, puny);
    IdentifierIs(sym, p, puny != "");
    PartsAre(ascii, puny, start);
  }

  /** The mark, the length and the separator. */
  lemma PrefixReads(sym: string, p: nat, b: string, puny: string, sep: bool)
    requires TextAt(sym, p, Mark(puny) + (Text10(|b|) + (Separator(sep) + b)))
    requires Separated(sym, p + |Mark(puny) + (Text10(|b|) + (Separator(sep) + b))|, b, sep)
    ensures var q := p + |Mark(puny)|;
            && (Eats(sym, p, 'u') <==> puny != "") && q == (if puny != "" then p + 1 else p)
            && q < |sym| && Digit10(sym[q]).Some? && LengthAt(sym, q) == (|b|, q + |Text10(|b|)|)
            && Eats(sym, q + |Text10(|b|)|, '_') == sep && TextAt(sym, q + |Text10(|b|)| + |Separator(sep)|, b)
  {
    hide Text10, Digit10, LengthAt, TextAt, Separated, Eats, Separator;
    var q := p + |Mark(puny)|;
    TextParts(sym, p, Mark(puny), Text10(|b|) + (Separator(sep) + b));
    SeparatedHere(sym, q, b, sep);
    LengthReads(sym, q, b, sep);
    FirstChar(sym, p, puny);
  }

  lemma PartsAre(ascii: string, puny: string, start: nat)
    ensures var len := |IdentBytes(ascii, puny)|; var k := if ascii == "" then |puny| else |ascii|;
            IdentOf(ascii, puny, start) ==
              if puny == "" then Ident(start, len, start, 0)
              else if k == len then Ident(start, 0, start, len)
              else Ident(start, k, start + k + 1, len - 1 - k)
    ensures puny != "" ==> var len := |IdentBytes(ascii, puny)|; var k := if ascii == "" then |puny| else |ascii|; k == len > 0 || k + 1 < len
  {
  }

  /** Without bytes the separator would follow the length. */
  lemma SeparatedHere(sym: string, q: nat, bytes: string, sep: bool)
    requires Separated(sym, q + |Text10(|bytes|)| + |Separator(sep)| + |bytes|, bytes, sep)
    ensures Separated(sym, q + |Text10(|bytes|)|, bytes, sep)
  {
    hide Text10;
  }

  lemma FirstChar(sym: string, p: nat, puny: string)
    requires TextAt(sym, p, Mark(puny)) && p + |Mark(puny)| < |sym| && Digit10(sym[p + |Mark(puny)|]).Some?
    ensures Eats(sym, p, 'u') <==> puny != ""
  {
    if puny != "" { CharAt(sym, p, "u", 0); }
  }

  lemma PartsRead(sym: string, start: nat, ascii: string, puny: string)
    requires TextAt(sym, start, IdentBytes(ascii, puny)) && '_' !in puny
    ensures start + |IdentBytes(ascii, puny)| <= |sym|
    ensures puny != "" ==> LastUnderscore(sym, start, |IdentBytes(ascii, puny)|) == if ascii == "" then |puny| else |ascii|
  {
    if puny == "" { return; }
    var b, k := IdentBytes(ascii, puny), if ascii == "" then |puny| else |ascii|;
    var before := if ascii == "" then 0 else |ascii| + 1;
    forall i | start + before <= i < start + |b| ensures sym[i] != '_' {
      CharAt(sym, start, b, i - start);
      assert b[i - start] == puny[i - start - before];
    }
    if ascii != "" { CharAt(sym, start, b, k); }
    LastUnderscoreIs(sym, start, |b|, k);
  }

  /** `Identifier` by its length and its last underscore. */
  lemma IdentifierIs(sym: string, p: nat, puny: bool)
    requires Eats(sym, p, 'u') == puny
    requires var q := if puny then p + 1 else p; q < |sym| && Digit10(sym[q]).Some?
    ensures var q := if puny then p + 1 else p; var (len, after) := LengthAt(sym, q);
            var start := if Eats(sym, after, '_') then after + 1 else after;
            start + len <= |sym| ==>
              && (!puny ==> Identifier(sym, p) == IdentAt(Ident(start, len, start, 0), start + len))
              && (puny ==> var k := LastUnderscore(sym, start, len);
                    && (k == len > 0 ==> Identifier(sym, p) == IdentAt(Ident(start, 0, start, len), start + len))
                    && (k + 1 < len ==> Identifier(sym, p) == IdentAt(Ident(start, k, start + k + 1, len - 1 - k), start + len)))
  {
    hide Digit10, Digits10, LastUnderscore;
  }

  datatype Nibbles = Nibbles(start: nat, len: nat, next: nat) | NoNibbles

  predicate IsHex(c: char) { '0' <= c <= '9' || 'a' <= c <= 'f' }

  function HexFrom(sym: string, start: nat, p: nat): (r: Nibbles)
    requires start <= p
    ensures r.Nibbles? ==> p < r.next <= |sym| && r.start == start && r.len + 1 == r.next - start
    decreases |sym| - p
  {
    if p >= |sym| then NoNibbles
    else if sym[p] == '_' then Nibbles(start, p - start, p + 1)
    else if IsHex(sym[p]) then HexFrom(sym, start, p + 1)
    else NoNibbles
  }

  /** `parser_hex_nibbles`. */
  function HexNibbles(sym: string, p: nat): (r: Nibbles)
    ensures r.Nibbles? ==> p < r.next <= |sym| && r.start + r.len < r.next
  {
    HexFrom(sym, p, p)
  }
}

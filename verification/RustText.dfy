/** What the demangler prints for the parts it has parsed. */
module RustText {
  import opened Bytes
  import opened RustLexer
  import opened RustPrinter
  import opened RustInterpreter
  import Utf8
  import Punycode

  function Part(sym: string, p: nat, n: nat): string { if p + n <= |sym| then sym[p..p + n] else "" }

  /** Two pieces in a row. */
  function Two(a: Piece, b: Piece): Piece {
    Piece(a.text + b.text, if a.slack >= |b.text| + b.slack then a.slack - |b.text| else b.slack)
  }

  function Plain(text: string): Piece { Piece(text, 0) }

  function Codes(s: string): seq<u32> { seq(|s|, i requires 0 <= i < |s| => s[i] as int) }

  function Octets(s: string): seq<byte> { seq(|s|, i requires 0 <= i < |s| => s[i] as int % 0x100) }

  /** Output bytes, one character for each. */
  function Chars(bs: seq<byte>): string { seq(|bs|, i requires 0 <= i < |bs| => bs[i] as char) }

  /** `display_ident`: a decoded name needs four bytes of room before each of its characters. */
  function DisplayIdent(ascii: string, puny: string): Piece {
    if puny == "" then Plain(ascii)
    else
      match Punycode.Decode(Codes(ascii), 0, 0x80, 72, true, Octets(puny))
      case Decoded(text, _) =>
        var bytes := Utf8.EncodeAll(text);
        Piece(Chars(bytes), if Punycode.NeededRoom(text) > |bytes| then Punycode.NeededRoom(text) - |bytes| else 0)
      case Malformed => Plain("punycode{" + (if |ascii| > 0 then ascii + "-" else "") + puny + "}")
  }

  function IdentPiece(sym: string, i: Ident): Piece {
    DisplayIdent(Part(sym, i.asciiStart, i.asciiLen), Part(sym, i.punyStart, i.punyLen))
  }

  function Nibble(d: nat): char
    requires d < 16
  {
    if d < 10 then '0' + d as char else 'a' + (d - 10) as char
  }

  /** `%llx` */
  function Hex(n: nat): string { if n < 16 then [Nibble(n)] else Hex(n / 16) + [Nibble(n % 16)] }

  /** `basic_type` */
  function BasicTypeName(tag: char): string {
    match tag
    case 'b' => "bool"
    case 'c' => "char"
    case 'e' => "str"
    case 'u' => "()"
    case 'a' => "i8"
    case 's' => "i16"
    case 'l' => "i32"
    case 'x' => "i64"
    case 'n' => "i128"
    case 'i' => "isize"
    case 'h' => "u8"
    case 't' => "u16"
    case 'm' => "u32"
    case 'y' => "u64"
    case 'o' => "u128"
    case 'j' => "usize"
    case 'f' => "f32"
    case 'd' => "f64"
    case 'z' => "!"
    case 'p' => "_"
    case 'v' => "..."
    case _ => ""
  }

  /** `char_to_string` */
  function Escaped(ch: nat, quote: char): string {
    if ch == 0 then "\\0"
    else if ch == '\t' as int then "\\t"
    else if ch == '\r' as int then "\\r"
    else if ch == '\n' as int then "\\n"
    else if ch == '\\' as int then "\\\\"
    else if ch == quote as int then "\\" + [quote]
    else if ch < 0x20 || ch >= 0x7F then "\\u{" + Hex(ch) + "}"
    else [ch as char]
  }

  function EscapedAll(codes: seq<u32>, quote: char): string {
    if codes == [] then "" else Escaped(codes[0], quote) + EscapedAll(codes[1..], quote)
  }

  function ValueOf(sym: string, regs: Regs): Option<nat> {
    if regs.hexStart + regs.hexLen <= |sym| then ParseUint(sym, regs.hexStart, regs.hexLen) else None
  }

  function NumeralText(sym: string, full: bool, kind: char, regs: Regs): string {
    var v := ValueOf(sym, regs);
    (if v.Some? then Text10(v.value) else "0x" + Part(sym, regs.hexStart, regs.hexLen)) + (if full then BasicTypeName(kind) else "")
  }

  function StringLiteralText(sym: string, regs: Regs): string {
    var codes := if regs.hexStart + regs.hexLen <= |sym| then Utf8.DecodeAll(NibbleBytes(sym, regs.hexStart, regs.hexLen)) else None;
    "\"" + (if codes.Some? then EscapedAll(codes.value, '"') else "") + "\""
  }

  function PathNamePiece(sym: string, regs: Regs): Piece {
    var named := regs.ident.asciiLen != 0 || regs.ident.punyLen != 0;
    if 'A' <= regs.tag <= 'Z' then
      var kind := "::{" + (if regs.tag == 'C' then "closure" else if regs.tag == 'S' then "shim" else [regs.tag]);
      var before := if named then Two(Plain(kind + ":"), IdentPiece(sym, regs.ident)) else Plain(kind);
      Two(before, Plain("#" + Text10(regs.number) + "}"))
    else if named then Two(Plain("::"), IdentPiece(sym, regs.ident))
    else Plain("")
  }

  /** The first underscore from `i` on. */
  function FindUnderscore(s: string, i: nat): (k: nat)
    requires i <= |s|
    ensures i <= k <= |s| && (k < |s| ==> s[k] == '_') && forall j | i <= j < k :: s[j] != '_'
    decreases |s| - i
  {
    if i == |s| || s[i] == '_' then i else FindUnderscore(s, i + 1)
  }

  /** The name of an ABI, with dashes. */
  function Dashed(s: string): string
    decreases |s|
  {
    var k := FindUnderscore(s, 0);
    if k == |s| then s else s[..k] + "-" + Dashed(s[k + 1..])
  }

  function QualifierText(sym: string, regs: Regs): string {
    (if regs.isUnsafe then "unsafe " else "") +
    match regs.abi
    case NoAbi => ""
    case AbiC => "extern \"" + Dashed("C") + "\" "
    case AbiNamed => "extern \"" + Dashed(Part(sym, regs.ident.asciiStart, regs.ident.asciiLen)) + "\" "
  }

  /** The name of a lifetime, behind its tick. */
  function LifetimeText(lifetimes: nat, index: nat): string {
    if index == 0 || index > lifetimes then "_"
    else
      var depth := lifetimes - index;
      if depth < 26 then ['a' + depth as char] else "_" + Text10(depth)
  }

  /** The lifetimes of a binder from number `i` of `n` on; each is the innermost one when it is printed. */
  function BinderText(lifetimes: nat, i: nat, n: nat): string
    decreases n - i
  {
    if i >= n then "" else (if i > 0 then ", " else "") + "'" + LifetimeText(lifetimes + i + 1, 1) + BinderText(lifetimes, i + 1, n)
  }

  /** The text of each part; `full` is the printer without `alternate`. */
  function Text(sym: string, full: bool, what: What, regs: Regs, lifetimes: nat): Piece {
    match what
    case IdentName => IdentPiece(sym, regs.ident)
    case CrateHash => Plain(if full && regs.number != 0 then "[" + Hex(regs.number) + "]" else "")
    case PathName => PathNamePiece(sym, regs)
    case Numeral(kind) => Plain(NumeralText(sym, full, kind, regs))
    case BoolText => Plain(if ValueOf(sym, regs) == Some(0) then "false" else "true")
    case CharText => Plain("'" + (if ValueOf(sym, regs).Some? then Escaped(ValueOf(sym, regs).value, '\'') else "") + "'")
    case StringText => Plain(StringLiteralText(sym, regs))
    case OneComma => Plain(if regs.count == 1 then "," else "")
    case Opening => Plain(if regs.open then ", " else "<")
    case Closing => Plain(if regs.open then ">" else "")
    case Qualifiers => Plain(QualifierText(sym, regs))
    case LifetimeName => Plain(LifetimeText(lifetimes, regs.number))
    case BinderNames => Plain(if regs.number > 0 then "for<" + BinderText(lifetimes, 0, regs.number) + "> " else "")
    case BasicName => Plain(BasicTypeName(regs.tag))
  }

  /** A symbol with the demangler's own texts. */
  function Symbol(sym: string, full: bool): Context {
    Context(sym, (what: What, regs: Regs, lifetimes: nat) => Text(sym, full, what, regs, lifetimes))
  }
}

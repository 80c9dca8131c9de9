/**
 Rust paths, types, constants and generic arguments, how the v0 scheme mangles them (`Mangle*`), and how they are written in
 Rust (`Render*`).
 */
module RustSyntax {
  import opened Bytes
  import opened RustLexer
  import Utf8
  import Punycode

  // ------------------------------------------------------------------ what is mangled

  /** An identifier: its plain part, and the punycode part of one that has other characters. */
  datatype Name = Name(ascii: string, puny: string)

  datatype Primitive =
    | BoolType | CharType | StrType | UnitType
    | I8Type | I16Type | I32Type | I64Type | I128Type | IsizeType
    | U8Type | U16Type | U32Type | U64Type | U128Type | UsizeType
    | F32Type | F64Type | NeverType | PlaceholderType | VariadicType

  /** `at` is where the target of a back-reference stands. */
  datatype PathAst =
    | CratePath(dis: nat, name: Name)
    | NestedPath(space: char, parent: PathAst, dis: nat, name: Name)
    | InherentPath(dis: nat, home: PathAst, self: TypeAst)
    | ImplPath(dis: nat, home: PathAst, self: TypeAst, role: PathAst)
    | TraitPath(self: TypeAst, role: PathAst)
    | GenericPath(base: PathAst, args: seq<ArgAst>)
    | PathRef(at: nat, target: PathAst)

  datatype TypeAst =
    | BasicType(basic: Primitive)
    | ReferenceType(life: Option<nat>, isMut: bool, to: TypeAst)
    | PointerType(isMut: bool, to: TypeAst)
    | ArrayType(of: TypeAst, length: ConstAst)
    | SliceType(of: TypeAst)
    | TupleType(parts: seq<TypeAst>)
    | FnType(binder: nat, isUnsafe: bool, abi: AbiAst, params: seq<TypeAst>, result: TypeAst)
    | DynType(binder: nat, bounds: seq<BoundAst>, outlives: nat)
    | TypeRef(at: nat, target: TypeAst)
    | NamedType(path: PathAst)

  datatype AbiAst = RustAbi | CAbi | OtherAbi(name: string)

  datatype ArgAst = LifeArg(index: nat) | TypeArg(ty: TypeAst) | ConstArg(value: ConstAst)

  /** A trait of a trait object, with its associated types. */
  datatype BoundAst = BoundAst(path: PathAst, bindings: seq<BindingAst>)

  datatype BindingAst = BindingAst(name: Name, ty: TypeAst)

  /** Numbers are given by their hexadecimal digits. */
  datatype ConstAst =
    | AnyConst
    | IntConst(kind: Primitive, negative: bool, digits: string)
    | BoolConst(digits: string)
    | CharConst(digits: string)
    | TextConst(codes: seq<u32>)
    | TextRefConst(codes: seq<u32>)
    | RefConst(isMut: bool, to: ConstAst)
    | ArrayConst(parts: seq<ConstAst>)
    | TupleConst(parts: seq<ConstAst>)
    | UnitVariant(path: PathAst)
    | TupleVariant(path: PathAst, parts: seq<ConstAst>)
    | StructVariant(path: PathAst, fields: seq<FieldAst>)
    | ConstRef(at: nat, target: ConstAst)

  datatype FieldAst = FieldAst(dis: nat, name: Name, value: ConstAst)

  // ------------------------------------------------------------------ mangling

  function TagOf(p: Primitive): char {
    match p
    case BoolType => 'b' case CharType => 'c' case StrType => 'e' case UnitType => 'u'
    case I8Type => 'a' case I16Type => 's' case I32Type => 'l' case I64Type => 'x' case I128Type => 'n' case IsizeType => 'i'
    case U8Type => 'h' case U16Type => 't' case U32Type => 'm' case U64Type => 'y' case U128Type => 'o' case UsizeType => 'j'
    case F32Type => 'f' case F64Type => 'd' case NeverType => 'z' case PlaceholderType => 'p' case VariadicType => 'v'
  }

  /** A separator keeps the length apart from a name that starts with a digit or an underscore. */
  predicate NeedsSeparator(bytes: string) { bytes != "" && (bytes[0] == '_' || '0' <= bytes[0] <= '9') }

  function MangleName(n: Name): string { EncodeIdent(n.ascii, n.puny, NeedsSeparator(IdentBytes(n.ascii, n.puny))) }

  /** A disambiguator or the size of a binder: nothing for zero. */
  function MangleOpt(tag: char, n: nat): string { if n == 0 then "" else [tag] + Encode62(n - 1) }

  function ManglePath(p: PathAst): string {
    match p
    case CratePath(dis, name) => "C" + MangleOpt('s', dis) + MangleName(name)
    case NestedPath(space, parent, dis, name) => "N" + [space] + ManglePath(parent) + MangleOpt('s', dis) + MangleName(name)
    case InherentPath(dis, home, self) => "M" + MangleOpt('s', dis) + ManglePath(home) + MangleType(self)
    case ImplPath(dis, home, self, role) => "X" + MangleOpt('s', dis) + ManglePath(home) + MangleType(self) + ManglePath(role)
    case TraitPath(self, role) => "Y" + MangleType(self) + ManglePath(role)
    case GenericPath(base, args) => "I" + ManglePath(base) + MangleArgs(args) + "E"
    case PathRef(at, _) => "B" + Encode62(at)
  }

  function MangleArgs(args: seq<ArgAst>): string { if args == [] then "" else MangleArg(args[0]) + MangleArgs(args[1..]) }

  function MangleArg(a: ArgAst): string {
    match a
    case LifeArg(index) => "L" + Encode62(index)
    case TypeArg(ty) => MangleType(ty)
    case ConstArg(value) => "K" + MangleConst(value)
  }

  function MangleAbi(abi: AbiAst): string {
    match abi
    case RustAbi => ""
    case CAbi => "KC"
    case OtherAbi(name) => "K" + MangleName(Name(name, ""))
  }

  function MangleLife(life: Option<nat>): string { if life.None? then "" else "L" + Encode62(life.value) }

  function MangleType(t: TypeAst): string {
    match t
    case BasicType(basic) => [TagOf(basic)]
    case ReferenceType(life, isMut, to) => (if isMut then "Q" else "R") + MangleLife(life) + MangleType(to)
    case PointerType(isMut, to) => (if isMut then "O" else "P") + MangleType(to)
    case ArrayType(of, length) => "A" + MangleType(of) + MangleConst(length)
    case SliceType(of) => "S" + MangleType(of)
    case TupleType(parts) => "T" + MangleTypes(parts) + "E"
    case FnType(binder, isUnsafe, abi, params, result) =>
      "F" + MangleOpt('G', binder) + (if isUnsafe then "U" else "") + MangleAbi(abi) + MangleTypes(params) + "E" + MangleType(result)
    case DynType(binder, bounds, outlives) => "D" + MangleOpt('G', binder) + MangleBounds(bounds) + "E" + "L" + Encode62(outlives)
    case TypeRef(at, _) => "B" + Encode62(at)
    case NamedType(path) => ManglePath(path)
  }

  function MangleTypes(ts: seq<TypeAst>): string { if ts == [] then "" else MangleType(ts[0]) + MangleTypes(ts[1..]) }

  function MangleBounds(bs: seq<BoundAst>): string { if bs == [] then "" else MangleBound(bs[0]) + MangleBounds(bs[1..]) }

  function MangleBound(b: BoundAst): string { ManglePath(b.path) + MangleBindings(b.bindings) }

  function MangleBindings(bs: seq<BindingAst>): string { if bs == [] then "" else MangleBinding(bs[0]) + MangleBindings(bs[1..]) }

  function MangleBinding(b: BindingAst): string { "p" + MangleName(b.name) + MangleType(b.ty) }

  function HexChar(d: nat): char
    requires d < 16
  {
    "0123456789abcdef"[d]
  }

  /** Two digits for every byte. */
  function MangleBytes(bs: seq<byte>): string {
    if bs == [] then "" else [HexChar(bs[0] / 16), HexChar(bs[0] % 16)] + MangleBytes(bs[1..])
  }

  function MangleConst(c: ConstAst): string {
    match c
    case AnyConst => "p"
    case IntConst(kind, negative, digits) => [TagOf(kind)] + (if negative then "n" else "") + digits + "_"
    case BoolConst(digits) => "b" + digits + "_"
    case CharConst(digits) => "c" + digits + "_"
    case TextConst(codes) => "e" + MangleBytes(Utf8.EncodeAll(codes)) + "_"
    case TextRefConst(codes) => "Re" + MangleBytes(Utf8.EncodeAll(codes)) + "_"
    case RefConst(isMut, to) => (if isMut then "Q" else "R") + MangleConst(to)
    case ArrayConst(parts) => "A" + MangleConsts(parts) + "E"
    case TupleConst(parts) => "T" + MangleConsts(parts) + "E"
    case UnitVariant(path) => "V" + ManglePath(path) + "U"
    case TupleVariant(path, parts) => "V" + ManglePath(path) + "T" + MangleConsts(parts) + "E"
    case StructVariant(path, fields) => "V" + ManglePath(path) + "S" + MangleFields(fields) + "E"
    case ConstRef(at, _) => "B" + Encode62(at)
  }

  function MangleConsts(cs: seq<ConstAst>): string { if cs == [] then "" else MangleConst(cs[0]) + MangleConsts(cs[1..]) }

  function MangleFields(fs: seq<FieldAst>): string { if fs == [] then "" else MangleField(fs[0]) + MangleFields(fs[1..]) }

  function MangleField(f: FieldAst): string { MangleOpt('s', f.dis) + MangleName(f.name) + MangleConst(f.value) }

  // ------------------------------------------------------------------ Rust text

  function NameOf(p: Primitive): string {
    match p
    case BoolType => "bool" case CharType => "char" case StrType => "str" case UnitType => "()"
    case I8Type => "i8" case I16Type => "i16" case I32Type => "i32" case I64Type => "i64" case I128Type => "i128" case IsizeType => "isize"
    case U8Type => "u8" case U16Type => "u16" case U32Type => "u32" case U64Type => "u64" case U128Type => "u128" case UsizeType => "usize"
    case F32Type => "f32" case F64Type => "f64" case NeverType => "!" case PlaceholderType => "_" case VariadicType => "..."
  }

  function Join(words: seq<string>, sep: string): string {
    if words == [] then "" else if |words| == 1 then words[0] else words[0] + sep + Join(words[1..], sep)
  }

  function AsBytes(s: string): seq<byte> { seq(|s|, i requires 0 <= i < |s| => s[i] as int % 0x100) }

  /** A character for every byte. */
  function AsChars(bs: seq<byte>): string { seq(|bs|, i requires 0 <= i < |bs| => bs[i] as char) }

  function AsCodes(s: string): seq<u32> { seq(|s|, i requires 0 <= i < |s| => s[i] as int) }

  /** An identifier as UTF-8, by section 6.2 of RFC 3492; one that does not decode is shown as it stands. */
  function RenderName(n: Name): string {
    if n.puny == "" then n.ascii
    else
      match Punycode.Decode(AsCodes(n.ascii), 0, 0x80, 72, true, AsBytes(n.puny))
      case Decoded(text, _) => AsChars(Utf8.EncodeAll(text))
      case Malformed => "punycode{" + (if n.ascii == "" then n.puny else n.ascii + "-" + n.puny) + "}"
  }

  function HexText(n: nat): string { if n < 16 then [HexChar(n)] else HexText(n / 16) + [HexChar(n % 16)] }

  /** The name of a bound lifetime, counted from the outermost binder. */
  function RenderLifetime(i: nat): string { "'" + if i < 26 then ["abcdefghijklmnopqrstuvwxyz"[i]] else "_" + Text10(i) }

  /** A lifetime by its index: zero is erased, one is the innermost of the `bound` ones. */
  function RenderLife(index: nat, bound: nat): string { if index == 0 || index > bound then "'_" else RenderLifetime(bound - index) }

  function RenderBinder(bound: nat, n: nat): string {
    if n == 0 then "" else "for<" + Join(seq(n, i requires 0 <= i < n => RenderLifetime(bound + i)), ", ") + "> "
  }

  /** The name behind a path: closures and shims in braces, other names if there are any. */
  function RenderSegment(space: char, dis: nat, n: Name): string {
    if 'A' <= space <= 'Z' then
      "::{" + (if space == 'C' then "closure" else if space == 'S' then "shim" else [space])
        + (if n == Name("", "") then "" else ":" + RenderName(n)) + "#" + Text10(dis) + "}"
    else if n == Name("", "") then "" else "::" + RenderName(n)
  }

  /** `full`: with the hash of a crate and the type of a number. */
  function RenderPath(p: PathAst, inValue: bool, bound: nat, full: bool): string
    decreases p, 0
  {
    match p
    case CratePath(dis, name) => RenderName(name) + if full && dis != 0 then "[" + HexText(dis) + "]" else ""
    case NestedPath(space, parent, dis, name) => RenderPath(parent, inValue, bound, full) + RenderSegment(space, dis, name)
    case InherentPath(_, _, self) => "<" + RenderType(self, bound, full) + ">"
    case ImplPath(_, _, self, role) => "<" + RenderType(self, bound, full) + " as " + RenderPath(role, false, bound, full) + ">"
    case TraitPath(self, role) => "<" + RenderType(self, bound, full) + " as " + RenderPath(role, false, bound, full) + ">"
    case GenericPath(base, args) =>
      RenderPath(base, inValue, bound, full) + (if inValue then "::<" else "<") + Join(RenderArgs(args, bound, full), ", ") + ">"
    case PathRef(_, target) => RenderPath(target, inValue, bound, full)
  }

  function RenderArgs(args: seq<ArgAst>, bound: nat, full: bool): seq<string>
    decreases args, 0
  {
    if args == [] then [] else [RenderArg(args[0], bound, full)] + RenderArgs(args[1..], bound, full)
  }

  function RenderArg(a: ArgAst, bound: nat, full: bool): string
    decreases a, 0
  {
    match a
    case LifeArg(index) => RenderLife(index, bound)
    case TypeArg(ty) => RenderType(ty, bound, full)
    case ConstArg(value) => RenderConst(value, false, bound, full)
  }

  function RenderAbi(abi: AbiAst): string {
    match abi
    case RustAbi => ""
    case CAbi => "extern \"C\" "
    case OtherAbi(name) => "extern \"" + seq(|name|, i requires 0 <= i < |name| => if name[i] == '_' then '-' else name[i]) + "\" "
  }

  function RenderType(t: TypeAst, bound: nat, full: bool): string
    decreases t, 0
  {
    match t
    case BasicType(basic) => NameOf(basic)
    case ReferenceType(life, isMut, to) =>
      "&" + (if life.None? || life.value == 0 then "" else RenderLife(life.value, bound) + " ") + (if isMut then "mut " else "") + RenderType(to, bound, full)
    case PointerType(isMut, to) => (if isMut then "*mut " else "*const ") + RenderType(to, bound, full)
    case ArrayType(of, length) => "[" + RenderType(of, bound, full) + "; " + RenderConst(length, true, bound, full) + "]"
    case SliceType(of) => "[" + RenderType(of, bound, full) + "]"
    case TupleType(parts) => "(" + Join(RenderTypes(parts, bound, full), ", ") + (if |parts| == 1 then "," else "") + ")"
    case FnType(binder, isUnsafe, abi, params, result) =>
      RenderBinder(bound, binder) + (if isUnsafe then "unsafe " else "") + RenderAbi(abi)
        + "fn(" + Join(RenderTypes(params, bound + binder, full), ", ") + ")"
        + (if result == BasicType(UnitType) then "" else " -> " + RenderType(result, bound + binder, full))
    case DynType(binder, bounds, outlives) =>
      "dyn " + RenderBinder(bound, binder) + Join(RenderBounds(bounds, bound + binder, full), " + ")
        + (if outlives == 0 then "" else " + " + RenderLife(outlives, bound))
    case TypeRef(_, target) => RenderType(target, bound, full)
    case NamedType(path) => RenderPath(path, false, bound, full)
  }

  function RenderTypes(ts: seq<TypeAst>, bound: nat, full: bool): seq<string>
    decreases ts, 0
  {
    if ts == [] then [] else [RenderType(ts[0], bound, full)] + RenderTypes(ts[1..], bound, full)
  }

  function RenderBounds(bs: seq<BoundAst>, bound: nat, full: bool): seq<string>
    decreases bs, 0
  {
    if bs == [] then [] else [RenderBound(bs[0], bound, full)] + RenderBounds(bs[1..], bound, full)
  }

  /** A trait with its parameters and, in the same brackets, its associated types. */
  function RenderBound(b: BoundAst, bound: nat, full: bool): string
    decreases b, 0
  {
    var params := TraitParams(b.path, bound, full) + RenderBindings(b.bindings, bound, full);
    TraitName(b.path, bound, full) + if params == [] then "" else "<" + Join(params, ", ") + ">"
  }

  function TraitName(p: PathAst, bound: nat, full: bool): string
    decreases p, 1
  {
    match p
    case GenericPath(base, _) => RenderPath(base, false, bound, full)
    case PathRef(_, target) => TraitName(target, bound, full)
    case _ => RenderPath(p, false, bound, full)
  }

  /** An empty list of parameters counts as one empty parameter: its brackets are shown. */
  function TraitParams(p: PathAst, bound: nat, full: bool): seq<string>
    decreases p, 1
  {
    match p
    case GenericPath(_, args) => if args == [] then [""] else RenderArgs(args, bound, full)
    case PathRef(_, target) => TraitParams(target, bound, full)
    case _ => []
  }

  function RenderBindings(bs: seq<BindingAst>, bound: nat, full: bool): seq<string>
    decreases bs, 0
  {
    if bs == [] then [] else [RenderBinding(bs[0], bound, full)] + RenderBindings(bs[1..], bound, full)
  }

  function RenderBinding(b: BindingAst, bound: nat, full: bool): string
    decreases b, 0
  {
    RenderName(b.name) + " = " + RenderType(b.ty, bound, full)
  }

  /** The value of hexadecimal digits, however many. */
  function HexNumber(digits: string): nat {
    if digits == "" then 0 else 16 * HexNumber(digits[..|digits| - 1]) + HexDigit(digits[|digits| - 1])
  }

  function HexDigit(c: char): nat { if '0' <= c <= '9' then (c - '0') as nat else if 'a' <= c <= 'f' then 10 + (c - 'a') as nat else 0 }

  /** Numbers of 64 bits are shown in decimal, larger ones as they stand. */
  function RenderNumber(digits: string): string { if HexNumber(digits) <= U64_MAX then Text10(HexNumber(digits)) else "0x" + digits }

  /** A character inside a literal. */
  function RenderChar(code: nat, quote: char): string {
    if code == 0 then "\\0" else if code == 9 then "\\t" else if code == 10 then "\\n" else if code == 13 then "\\r"
    else if code == 92 || code == quote as int then "\\" + [if code == 92 then '\\' else quote]
    else if 32 <= code <= 126 then [code as char]
    else "\\u{" + HexText(code) + "}"
  }

  function RenderText(codes: seq<u32>): string { if codes == [] then "" else RenderChar(codes[0], '"') + RenderText(codes[1..]) }

  /** Compound constants stand in braces outside of expressions. */
  function Braced(inValue: bool, text: string): string { if inValue then text else "{" + text + "}" }

  function RenderConst(c: ConstAst, inValue: bool, bound: nat, full: bool): string
    decreases c, 0
  {
    match c
    case AnyConst => "_"
    case IntConst(kind, negative, digits) => (if negative then "-" else "") + RenderNumber(digits) + (if full then NameOf(kind) else "")
    case BoolConst(digits) => if HexNumber(digits) == 0 then "false" else "true"
    case CharConst(digits) => "'" + RenderChar(HexNumber(digits), '\'') + "'"
    case TextConst(codes) => Braced(inValue, "*\"" + RenderText(codes) + "\"")
    case TextRefConst(codes) => "\"" + RenderText(codes) + "\""
    case RefConst(isMut, to) => Braced(inValue, (if isMut then "&mut " else "&") + RenderConst(to, true, bound, full))
    case ArrayConst(parts) => Braced(inValue, "[" + Join(RenderConsts(parts, bound, full), ", ") + "]")
    case TupleConst(parts) => Braced(inValue, "(" + Join(RenderConsts(parts, bound, full), ", ") + (if |parts| == 1 then "," else "") + ")")
    case UnitVariant(path) => Braced(inValue, RenderPath(path, true, bound, full))
    case TupleVariant(path, parts) => Braced(inValue, RenderPath(path, true, bound, full) + "(" + Join(RenderConsts(parts, bound, full), ", ") + ")")
    case StructVariant(path, fields) => Braced(inValue, RenderPath(path, true, bound, full) + " { " + Join(RenderFields(fields, bound, full), ", ") + " }")
    case ConstRef(_, target) => RenderConst(target, inValue, bound, full)
  }

  function RenderConsts(cs: seq<ConstAst>, bound: nat, full: bool): seq<string>
    decreases cs, 0
  {
    if cs == [] then [] else [RenderConst(cs[0], true, bound, full)] + RenderConsts(cs[1..], bound, full)
  }

  function RenderFields(fs: seq<FieldAst>, bound: nat, full: bool): seq<string>
    decreases fs, 0
  {
    if fs == [] then [] else [RenderField(fs[0], bound, full)] + RenderFields(fs[1..], bound, full)
  }

  function RenderField(f: FieldAst, bound: nat, full: bool): string
    decreases f, 0
  {
    RenderName(f.name) + ": " + RenderConst(f.value, true, bound, full)
  }
}

/**
 The grammar level of the demangler. Each `printer_print_*` function is written as the list of operations it
 performs, in the source's order; an interpreter executes the lists, printing or silently.
 */
module RustPrinter {
  import opened Bytes
  import opened RustLexer
  import Utf8

  const MAX_DEPTH: nat := 500

  datatype Status = Good | Invalid | Recursed | Bug

  /** `out == NULL`, or the text so far and the room left. */
  datatype Sink = Silent | Sink(text: string, room: nat)

  datatype State = State(next: nat, depth: nat, status: Status, sink: Sink, lifetimes: nat, overflow: bool)

  datatype Abi = NoAbi | AbiC | AbiNamed

  /** The local variables of the printing functions. */
  datatype Regs = Regs(tag: char, number: nat, ident: Ident, hexStart: nat, hexLen: nat, count: nat, open: bool, isUnsafe: bool, abi: Abi)

  function NoRegs(): Regs { Regs('\0', 0, Ident(0, 0, 0, 0), 0, 0, 0, false, false, NoAbi) }

  /** The grammar's recursive functions; `Generics` is `printer_print_maybe_open_generics`. */
  datatype Rule = Path(inValue: bool) | Type | Const(inValue: bool) | Generics

  datatype Condition = IsBool | IsChar | IsUtf8 | IsAbi

  /** What is printed from the local variables. */
  datatype What =
    | IdentName
    | CrateHash
    | PathName
    | Numeral(kind: char)
    | BoolText
    | CharText
    | StringText
    | OneComma
    | Opening
    | Closing
    | Qualifiers
    | LifetimeName
    | BinderNames
    | BasicName

  /** What is noted in the local variables. */
  datatype Note = IsOpen | IsUnsafe | HasAbi(abi: Abi)

  datatype Op =
    | Str(text: string)
    | Show(what: What)
    | Take(note: Note)
    | StrIfBad(text: string)
    | ParseTag
    | ParseInteger
    | ParseOptInteger(tag: char)
    | ParseIdent
    | ParseNamespace
    | ParseHex
    | Check(condition: Condition)
    | Fail
    | IfTag(c: char, yes: seq<Op>, no: seq<Op>)
    | IfEat(c: char, yes: seq<Op>, no: seq<Op>)
    | Lifetime(unlessZero: bool, before: string, after: string)
    | Frame(body: seq<Op>)
    | Opens(body: seq<Op>)
    | Call(rule: Rule)
    | Until(sep: string, body: seq<Op>)
    | WhileEat(c: char, body: seq<Op>)
    | Backref(rule: Rule)
    | Quiet(body: seq<Op>)
    | Binder(body: seq<Op>)

  // ------------------------------------------------------------------ the grammar

  function GenericArg(): seq<Op> {
    [IfEat('L', [ParseInteger, Lifetime(false, "", "")], [IfEat('K', [Call(Const(false))], [Call(Type)])])]
  }

  function GenericArgs(): seq<Op> { [Str("<"), Until(", ", [Frame(GenericArg())]), Str(">")] }

  function PathOps(tag: char, inValue: bool): seq<Op> {
    match tag
    case 'C' => [ParseOptInteger('s'), ParseIdent, Show(IdentName), Show(CrateHash)]
    case 'N' => [ParseNamespace, Call(Path(inValue)), StrIfBad("::"), ParseOptInteger('s'), ParseIdent, Show(PathName)]
    case 'M' => [ParseOptInteger('s'), Quiet([Call(Path(false))]), Str("<"), Call(Type), Str(">")]
    case 'X' => [ParseOptInteger('s'), Quiet([Call(Path(false))]), Str("<"), Call(Type), Str(" as "), Call(Path(false)), Str(">")]
    case 'Y' => [Str("<"), Call(Type), Str(" as "), Call(Path(false)), Str(">")]
    case 'I' => [Call(Path(inValue)), Str(if inValue then "::" else ""), Frame(GenericArgs())]
    case 'B' => [Backref(Path(inValue))]
    case _ => [Fail]
  }

  function StringLiteral(): seq<Op> { [ParseHex, Check(IsUtf8), Show(StringText)] }

  function StructField(): seq<Op> { [ParseOptInteger('s'), ParseIdent, Show(IdentName), Str(": "), Call(Const(true))] }

  /** Constants without parts. */
  function LeafConstOps(tag: char): seq<Op> {
    match tag
    case 'p' => [Str("_")]
    case 'a' | 's' | 'l' | 'x' | 'n' | 'i' => [IfEat('n', [Str("-")], []), Frame([ParseHex, Show(Numeral(tag))])]
    case 'h' | 't' | 'm' | 'y' | 'o' | 'j' => [Frame([ParseHex, Show(Numeral(tag))])]
    case 'b' => [ParseHex, Check(IsBool), Show(BoolText)]
    case 'c' => [ParseHex, Check(IsChar), Show(CharText)]
    case _ => [Fail]
  }

  /** The fields of an enum variant or a struct. */
  function VariantFields(): Op {
    IfTag('U', [],
          [IfTag('T', [Str("("), Until(", ", [Call(Const(true))]), Str(")")],
                 [IfTag('S', [Str(" { "), Until(", ", [Frame(StructField())]), Str(" }")], [Fail])])])
  }

  function ConstOps(tag: char, inValue: bool): seq<Op> {
    var open, close := Str(if inValue then "" else "{"), Str(if inValue then "" else "}");
    match tag
    case 'e' => [open, Str("*"), Frame(StringLiteral()), close]
    case 'R' => [IfEat('e', [Frame(StringLiteral())], [open, Str("&"), Call(Const(true)), close])]
    case 'Q' => [open, Str("&"), Str("mut "), Call(Const(true)), close]
    case 'A' => [open, Str("["), Until(", ", [Call(Const(true))]), Str("]"), close]
    case 'T' => [open, Str("("), Until(", ", [Call(Const(true))]), Show(OneComma), Str(")"), close]
    case 'V' => [open, Call(Path(true)), ParseTag, VariantFields(), close]
    case 'B' => [Backref(Const(inValue))]
    case _ => LeafConstOps(tag)
  }

  function OpenPath(): Op {
    IfEat('I', [Call(Path(false)), Str("<"), Until(", ", [Frame(GenericArg())]), Take(IsOpen)], [Call(Path(false))])
  }

  function GenericsOps(): seq<Op> { [IfEat('B', [Backref(Generics)], [OpenPath()])] }

  function AssocType(): seq<Op> { [Show(Opening), Take(IsOpen), ParseIdent, Show(IdentName), Str(" = "), Call(Type)] }

  function DynTrait(): seq<Op> {
    [Opens(GenericsOps()), WhileEat('p', AssocType()), Show(Closing)]
  }

  function FunctionAbi(): Op {
    IfEat('K', [IfEat('C', [Take(HasAbi(AbiC))], [ParseIdent, Check(IsAbi), Take(HasAbi(AbiNamed))])], [])
  }

  function FunctionType(): seq<Op> {
    [IfEat('U', [Take(IsUnsafe)], []), FunctionAbi(), Show(Qualifiers),
     Str("fn("), Until(", ", [Call(Type)]), Str(")"), IfEat('u', [], [Str(" -> "), Call(Type)])]
  }

  predicate IsBasicType(tag: char) { tag in "bceuaslxnihtmyojfdzpv" }

  function ReferenceLifetime(): Op { IfEat('L', [ParseInteger, Lifetime(true, "", " ")], []) }

  function ObjectLifetime(): Op { IfEat('L', [ParseInteger, Lifetime(true, " + ", "")], [Fail]) }

  function ObjectBounds(): seq<Op> { [Until(" + ", [Frame(DynTrait())])] }

  /** `None`: not a type of its own, so a path. */
  function TypeOps(tag: char): Option<seq<Op>> {
    match tag
    case 'R' => Some([Str("&"), ReferenceLifetime(), Call(Type)])
    case 'Q' => Some([Str("&"), ReferenceLifetime(), Str("mut "), Call(Type)])
    case 'P' => Some([Str("*"), Str("const "), Call(Type)])
    case 'O' => Some([Str("*"), Str("mut "), Call(Type)])
    case 'A' => Some([Str("["), Call(Type), Str("; "), Call(Const(true)), Str("]")])
    case 'S' => Some([Str("["), Call(Type), Str("]")])
    case 'T' => Some([Str("("), Until(", ", [Call(Type)]), Show(OneComma), Str(")")])
    case 'F' => Some([Binder(FunctionType())])
    case 'D' => Some([Str("dyn "), Binder(ObjectBounds()), ObjectLifetime()])
    case 'B' => Some([Backref(Type)])
    case _ => None
  }

  // ------------------------------------------------------------------ conditions on what was parsed

  function NibbleValue(c: char): nat { if '0' <= c <= '9' then (c - '0') as nat else if 'a' <= c <= 'f' then 10 + (c - 'a') as nat else 0 }

  function SkipZeros(sym: string, p: nat, end: nat): (q: nat)
    requires p <= end <= |sym|
    ensures p <= q <= end
    decreases end - p
  {
    if p < end && sym[p] == '0' then SkipZeros(sym, p + 1, end) else p
  }

  function HexValue(sym: string, p: nat, end: nat, x: nat): nat
    requires p <= end <= |sym|
    decreases end - p
  {
    if p == end then x else HexValue(sym, p + 1, end, 16 * x + NibbleValue(sym[p]))
  }

  /** `try_parse_uint` on nibbles: `None` if more than 16 digits are significant. */
  function ParseUint(sym: string, p: nat, len: nat): Option<nat>
    requires p + len <= |sym|
  {
    var q := SkipZeros(sym, p, p + len);
    if p + len - q > 16 then None else Some(HexValue(sym, q, p + len, 0))
  }

  function NibbleBytes(sym: string, p: nat, len: nat): seq<byte>
    requires p + len <= |sym|
    decreases len
  {
    if len < 2 then [] else [U8(16 * NibbleValue(sym[p]) + NibbleValue(sym[p + 1]))] + NibbleBytes(sym, p + 2, len - 2)
  }

  predicate Holds(sym: string, c: Condition, r: Regs) {
    if c.IsAbi? then r.ident.asciiLen != 0 && r.ident.punyLen == 0
    else if r.hexStart + r.hexLen > |sym| then false
    else if c.IsUtf8? then r.hexLen % 2 == 0 && Utf8.DecodeAll(NibbleBytes(sym, r.hexStart, r.hexLen)).Some?
    else
      var v := ParseUint(sym, r.hexStart, r.hexLen);
      v.Some? && if c.IsBool? then v.value <= 1 else v.value < 0xFFFF_FFFF && Utf8.IsScalar(v.value)
  }
}

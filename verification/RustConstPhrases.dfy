/** The functions that print constants, given what the functions they call do. */
module RustConstPhrases {
  import opened Bytes
  import opened RustLexer
  import opened RustSyntax
  import opened RustPlaces
  import opened RustPrinter
  import opened RustInterpreter
  import opened RustText
  import opened RustTokens
  import opened RustSteps
  import opened RustPhrases
  import opened RustTypePhrases
  import Utf8

  // ------------------------------------------------------------------ numbers

  lemma HexParses(x: Context, st: State, r: Regs)
    ensures var h := HexNibbles(x.sym, st.next); h.Nibbles? ==> Parse(x, ParseHex, st, r) == Outcome(st.(next := h.next), r.(hexStart := h.start, hexLen := h.len), false)
  {
    hide HexNibbles;
  }

  lemma StepHex(x: Context, b: State, n: nat, t: string, digits: string, rest: seq<Op>, r: Regs)
    requires Live(x, Adv(b, n, t)) && Sound([ParseHex] + rest) && TextAt(x.sym, b.next + n, digits + "_") && AllHex(digits)
    ensures var k := n + |digits| + 1;
      && Sound(rest) && Live(x, Adv(b, k, t)) && TextAt(x.sym, b.next + n, digits)
      && Exec(x, [ParseHex] + rest, Adv(b, n, t), r) == Exec(x, rest, Adv(b, k, t), r.(hexStart := b.next + n, hexLen := |digits|))
  {
    hide Ok, After, SinkAfter, Consumes, ConsumesOp, SoundOp, Sound, Exec, Wf, Fine, Adv, TextAt, AllHex, Parse, HexNibbles;
    HexReads(x.sym, b.next + n, digits);
    AdvParse(b, n, t, |digits| + 1);
    HexParses(x, Adv(b, n, t), r);
    StepParse(x, b, n, t, ParseHex, rest, r, |digits| + 1, r.(hexStart := b.next + n, hexLen := |digits|));
  }

  /** The registers hold the digits. */
  predicate HoldingDigits(sym: string, r: Regs, digits: string) { TextAt(sym, r.hexStart, digits) && r.hexLen == |digits| && AllHex(digits) }

  lemma ValueIs(sym: string, r: Regs, digits: string)
    requires HoldingDigits(sym, r, digits)
    ensures ValueOf(sym, r) == if HexNumber(digits) <= U64_MAX then Some(HexNumber(digits)) else None
    ensures Part(sym, r.hexStart, r.hexLen) == digits && r.hexStart + r.hexLen <= |sym|
  {
    hide TextAt, AllHex, HexNumber, ParseUint, Part;
    UintReads(sym, r.hexStart, digits);
    PartIs(sym, r.hexStart, digits);
  }

  function NumberText(kind: Primitive, digits: string, full: bool): string { RenderNumber(digits) + (if full then NameOf(kind) else "") }

  lemma NumeralIs(sym: string, full: bool, r: Regs, kind: Primitive, digits: string, l: nat)
    requires HoldingDigits(sym, r, digits)
    ensures Text(sym, full, Numeral(TagOf(kind)), r, l) == Piece(NumberText(kind, digits, full), 0)
  {
    hide HoldingDigits, ValueOf, Part, Text10, HexNumber, BasicTypeName, TagOf, NameOf;
    ValueIs(sym, r, digits);
    BasicSame(kind);
  }

  lemma BoolIs(sym: string, full: bool, r: Regs, digits: string, l: nat)
    requires HoldingDigits(sym, r, digits) && HexNumber(digits) <= 1
    ensures Holds(sym, IsBool, r) && Text(sym, full, BoolText, r, l) == Piece(if HexNumber(digits) == 0 then "false" else "true", 0)
  {
    hide HoldingDigits, Part, HexNumber, ParseUint;
    ValueIs(sym, r, digits);
  }

  lemma CharIs(sym: string, full: bool, r: Regs, digits: string, l: nat)
    requires HoldingDigits(sym, r, digits) && Utf8.IsScalar(HexNumber(digits))
    ensures Holds(sym, IsChar, r) && Text(sym, full, CharText, r, l) == Piece("'" + RenderChar(HexNumber(digits), '\'') + "'", 0)
  {
    hide HoldingDigits, Part, HexNumber, ParseUint, Escaped, RenderChar;
    ValueIs(sym, r, digits);
    EscapedSame(HexNumber(digits), '\'');
  }

  lemma TextIs(sym: string, full: bool, r: Regs, codes: seq<u32>, l: nat)
    requires HoldingDigits(sym, r, MangleBytes(Utf8.EncodeAll(codes))) && Utf8.AllScalar(codes)
    ensures Holds(sym, IsUtf8, r) && Text(sym, full, StringText, r, l) == Piece("\"" + RenderText(codes) + "\"", 0)
  {
    hide MangleBytes, Utf8.EncodeAll, Utf8.DecodeAll, Utf8.AllScalar, NibbleBytes, EscapedAll, RenderText, TextAt, AllHex;
    var bytes := Utf8.EncodeAll(codes);
    BytesAreHex(bytes);
    BytesRead(sym, r.hexStart, bytes);
    Utf8.RoundTrip(codes);
    EscapedAllSame(codes);
  }

  // ------------------------------------------------------------------ constants without parts

  function NumberOps(kind: Primitive): seq<Op> { [ParseHex] + ([Show(Numeral(TagOf(kind)))] + []) }

  function SignOp(): Op { IfEat('n', [Str("-")] + [], []) }

  lemma IntShape(kind: Primitive, v: bool)
    requires IsSigned(kind) || IsUnsigned(kind)
    ensures Sound(NumberOps(kind)) && Sound([Str("-")] + []) && Sound([])
    ensures IsSigned(kind) ==> ConstOps(TagOf(kind), v) == [SignOp()] + ([Frame(NumberOps(kind))] + [])
    ensures !IsSigned(kind) ==> ConstOps(TagOf(kind), v) == [Frame(NumberOps(kind))] + []
  {
    PlainSound(NumberOps(kind));
    PlainSound([Str("-")] + []);
    PlainSound([]);
    assert NumberOps(kind) == [ParseHex, Show(Numeral(TagOf(kind)))] && [Str("-")] + [] == [Str("-")];
    hide Sound, VariantFields, StringLiteral;
  }

  lemma NumberRuns(x: Context, full: bool, b: State, kind: Primitive, digits: string)
    requires IsSymbol(x, full) && Live(x, b) && Sound(NumberOps(kind)) && TextAt(x.sym, b.next, digits + "_") && AllHex(digits) && Roomy(b, |NumberText(kind, digits, full)|)
    ensures Goes(x, NumberOps(kind), b, NoRegs(), |digits| + 1, NumberText(kind, digits, full))
  {
    hide Ok, After, SinkAfter, Consumes, ConsumesOp, SoundOp, Sound, Exec, Wf, Fine, Adv, IsSymbol, TextAt, AllHex, NumberText,
         Text, Goes, NoRegs, TagOf;
    AdvNone(b);
    var last := [Show(Numeral(TagOf(kind)))] + [];
    StepHex(x, b, 0, "", digits, last, NoRegs());
    var r, w := NoRegs().(hexStart := b.next, hexLen := |digits|), NumberText(kind, digits, full);
    NumeralIs(x.sym, full, r, kind, digits, b.lifetimes);
    StepText(x, full, b, |digits| + 1, "", Numeral(TagOf(kind)), w, [], r);
    assert "" + w == w;
    ExecNone(x, Adv(b, |digits| + 1, w), r);
    GoesIs(x, NumberOps(kind), b, NoRegs(), |digits| + 1, w, r);
  }

  lemma StepSign(x: Context, b: State, negative: bool, rest: seq<Op>)
    requires Live(x, b) && Sound([SignOp()] + rest) && Sound([Str("-")] + []) && Sound([]) && Eats(x.sym, b.next, 'n') == negative && Roomy(b, 1)
    ensures var n, t := if negative then 1 else 0, if negative then "-" else "";
      && Sound(rest) && Live(x, Adv(b, n, t)) && Exec(x, [SignOp()] + rest, b, NoRegs()) == Exec(x, rest, Adv(b, n, t), NoRegs())
  {
    hide Ok, After, SinkAfter, Consumes, ConsumesOp, SoundOp, Sound, Exec, Wf, Fine, Adv, NoRegs;
    AdvNone(b);
    if negative {
      AfterFirst(x, b);
      StepStr(x, b, 1, "", "-", [], NoRegs());
      assert "" + "-" == "-";
      ExecNone(x, Adv(b, 1, "-"), NoRegs());
      StepEaten(x, b, 0, "", SignOp(), rest, NoRegs(), 1, "-", NoRegs());
    } else {
      ExecNone(x, Adv(b, 0, ""), NoRegs());
      StepUneaten(x, b, 0, "", SignOp(), rest, NoRegs(), 0, "", NoRegs());
    }
  }

  function SignText(negative: bool): string { if negative then "-" else "" }

  lemma IntRuns(x: Context, full: bool, v: bool, b: State, kind: Primitive, negative: bool, digits: string)
    requires IsSymbol(x, full) && Live(x, b) && (IsSigned(kind) || (IsUnsigned(kind) && !negative)) && AllHex(digits)
    requires TextAt(x.sym, b.next, (if negative then "n" else "") + digits + "_") && Roomy(b, |SignText(negative) + NumberText(kind, digits, full)| + 1)
    ensures Goes(x, ConstOps(TagOf(kind), v), b, NoRegs(), (if negative then 1 else 0) + |digits| + 1, SignText(negative) + NumberText(kind, digits, full))
  {
    hide Ok, After, SinkAfter, Consumes, ConsumesOp, SoundOp, Sound, Exec, Wf, Fine, Adv, IsSymbol, TextAt, NumberText, Goes,
         NoRegs, TagOf, ConstOps, NumberOps, AllHex;
    var n, t, w := if negative then 1 else 0, SignText(negative), NumberText(kind, digits, full);
    ConstSound(TagOf(kind), v);
    IntShape(kind, v);
    var last := [Frame(NumberOps(kind))] + [];
    SignSplits(x.sym, b.next, negative, digits);
    AdvNone(b);
    if IsSigned(kind) { StepSign(x, b, negative, last); }
    AdvRoom(b, n, t, |w|);
    AdvSame(b, n, t);
    NumberRuns(x, full, Adv(b, n, t), kind, digits);
    var r := GoesTo(x, NumberOps(kind), Adv(b, n, t), NoRegs(), |digits| + 1, w);
    StepFrame(x, b, n, t, NumberOps(kind), [], NoRegs(), |digits| + 1, w, r);
    ExecNone(x, Adv(b, n + (|digits| + 1), t + w), NoRegs());
    GoesIs(x, ConstOps(TagOf(kind), v), b, NoRegs(), n + |digits| + 1, t + w, NoRegs());
  }

  lemma SignSplits(sym: string, p: nat, negative: bool, digits: string)
    requires TextAt(sym, p, (if negative then "n" else "") + digits + "_") && AllHex(digits)
    ensures Eats(sym, p, 'n') == negative && TextAt(sym, p + (if negative then 1 else 0), digits + "_")
  {
    var sign := if negative then "n" else "";
    assert sign + digits + "_" == sign + (digits + "_");
    hide TextAt;
    TextParts(sym, p, sign, digits + "_");
    FirstIs(sym, p, sign + (digits + "_"));
    if !negative && digits != "" { assert IsHex(digits[0]); }
  }

  lemma BoolShape(v: bool)
    ensures ConstOps('b', v) == [ParseHex] + ([Check(IsBool)] + ([Show(BoolText)] + []))
    ensures ConstOps('c', v) == [ParseHex] + ([Check(IsChar)] + ([Show(CharText)] + []))
    ensures ConstOps('p', v) == [Str("_")] + []
  {
    hide VariantFields, StringLiteral;
  }

  lemma LiteralRuns(x: Context, full: bool, b: State, c: Condition, what: What, digits: string, w: string, ops: seq<Op>)
    requires IsSymbol(x, full) && Live(x, b) && TextAt(x.sym, b.next, digits + "_") && AllHex(digits) && Roomy(b, |w|)
    requires ops == [ParseHex] + ([Check(c)] + ([Show(what)] + [])) && Sound(ops)
    requires var r := NoRegs().(hexStart := b.next, hexLen := |digits|);
      TextAt(x.sym, b.next, digits) ==> Holds(x.sym, c, r) && Text(x.sym, full, what, r, b.lifetimes) == Piece(w, 0)
    ensures Goes(x, ops, b, NoRegs(), |digits| + 1, w)
  {
    hide Ok, After, SinkAfter, Consumes, ConsumesOp, SoundOp, Sound, Exec, Wf, Fine, Adv, IsSymbol, TextAt, AllHex, Text, Goes, NoRegs, Holds;
    AdvNone(b);
    StepHex(x, b, 0, "", digits, [Check(c)] + ([Show(what)] + []), NoRegs());
    var r, k := NoRegs().(hexStart := b.next, hexLen := |digits|), |digits| + 1;
    StepCheck(x, b, k, "", c, [Show(what)] + [], r);
    StepText(x, full, b, k, "", what, w, [], r);
    assert "" + w == w;
    ExecNone(x, Adv(b, k, w), r);
    GoesIs(x, ops, b, NoRegs(), k, w, r);
  }

  lemma BoolRuns(x: Context, full: bool, v: bool, b: State, digits: string)
    requires IsSymbol(x, full) && Live(x, b) && TextAt(x.sym, b.next, digits + "_") && AllHex(digits) && HexNumber(digits) <= 1
    requires Roomy(b, |if HexNumber(digits) == 0 then "false" else "true"|)
    ensures Goes(x, ConstOps('b', v), b, NoRegs(), |digits| + 1, if HexNumber(digits) == 0 then "false" else "true")
  {
    hide Ok, After, SinkAfter, Consumes, ConsumesOp, SoundOp, Sound, Exec, Wf, Fine, Adv, IsSymbol, TextAt, AllHex, Text, Goes,
         NoRegs, Holds, ConstOps, HexNumber;
    ConstSound('b', v);
    BoolShape(v);
    var r := NoRegs().(hexStart := b.next, hexLen := |digits|);
    if TextAt(x.sym, b.next, digits) { BoolIs(x.sym, full, r, digits, b.lifetimes); }
    LiteralRuns(x, full, b, IsBool, BoolText, digits, if HexNumber(digits) == 0 then "false" else "true", ConstOps('b', v));
  }

  lemma CharRuns(x: Context, full: bool, v: bool, b: State, digits: string)
    requires IsSymbol(x, full) && Live(x, b) && TextAt(x.sym, b.next, digits + "_") && AllHex(digits) && Utf8.IsScalar(HexNumber(digits))
    requires Roomy(b, |"'" + RenderChar(HexNumber(digits), '\'') + "'"|)
    ensures Goes(x, ConstOps('c', v), b, NoRegs(), |digits| + 1, "'" + RenderChar(HexNumber(digits), '\'') + "'")
  {
    hide Ok, After, SinkAfter, Consumes, ConsumesOp, SoundOp, Sound, Exec, Wf, Fine, Adv, IsSymbol, TextAt, AllHex, Text, Goes,
         NoRegs, Holds, ConstOps, HexNumber, RenderChar, Utf8.IsScalar;
    ConstSound('c', v);
    BoolShape(v);
    var r := NoRegs().(hexStart := b.next, hexLen := |digits|);
    if TextAt(x.sym, b.next, digits) { CharIs(x.sym, full, r, digits, b.lifetimes); }
    LiteralRuns(x, full, b, IsChar, CharText, digits, "'" + RenderChar(HexNumber(digits), '\'') + "'", ConstOps('c', v));
  }

  lemma AnyRuns(x: Context, v: bool, b: State)
    requires Live(x, b) && Roomy(b, 1)
    ensures Goes(x, ConstOps('p', v), b, NoRegs(), 0, "_")
  {
    hide Ok, After, SinkAfter, Consumes, ConsumesOp, SoundOp, Sound, Exec, Wf, Fine, Adv, Goes, NoRegs, ConstOps;
    ConstSound('p', v);
    BoolShape(v);
    AdvNone(b);
    StepStr(x, b, 0, "", "_", [], NoRegs());
    assert "" + "_" == "_";
    ExecNone(x, Adv(b, 0, "_"), NoRegs());
    GoesIs(x, ConstOps('p', v), b, NoRegs(), 0, "_", NoRegs());
  }

  // ------------------------------------------------------------------ text literals

  lemma LiteralShape()
    ensures StringLiteral() == [ParseHex] + ([Check(IsUtf8)] + ([Show(StringText)] + [])) && Sound(StringLiteral())
  {
    PlainSound(StringLiteral());
  }

  function Quoted(codes: seq<u32>): string { "\"" + RenderText(codes) + "\"" }

  lemma StringRuns(x: Context, full: bool, b: State, codes: seq<u32>)
    requires IsSymbol(x, full) && Live(x, b) && TextAt(x.sym, b.next, MangleBytes(Utf8.EncodeAll(codes)) + "_") && Utf8.AllScalar(codes) && Roomy(b, |Quoted(codes)|)
    ensures Goes(x, StringLiteral(), b, NoRegs(), |MangleBytes(Utf8.EncodeAll(codes))| + 1, Quoted(codes))
  {
    hide Ok, After, SinkAfter, Consumes, ConsumesOp, SoundOp, Sound, Exec, Wf, Fine, Adv, IsSymbol, TextAt, AllHex, Text, Goes,
         NoRegs, Holds, StringLiteral, MangleBytes, RenderText, Utf8.AllScalar, Utf8.EncodeAll;
    LiteralShape();
    var digits := MangleBytes(Utf8.EncodeAll(codes));
    BytesAreHex(Utf8.EncodeAll(codes));
    var r := NoRegs().(hexStart := b.next, hexLen := |digits|);
    if TextAt(x.sym, b.next, digits) { TextIs(x.sym, full, r, codes, b.lifetimes); }
    LiteralRuns(x, full, b, IsUtf8, StringText, digits, Quoted(codes), StringLiteral());
  }

  // ------------------------------------------------------------------ compound constants

  function Open(v: bool): string { if v then "" else "{" }

  function Close(v: bool): string { if v then "" else "}" }

  lemma BracedIs(v: bool, t: string)
    ensures Open(v) + t + Close(v) == Braced(v, t)
    ensures |Braced(v, t)| == |t| + |Open(v)| + |Close(v)|
  {
    assert "" + t + "" == t;
  }

  lemma TextConstShape(v: bool)
    ensures ConstOps('e', v) == [Str(Open(v))] + ([Str("*")] + ([Frame(StringLiteral())] + ([Str(Close(v))] + [])))
    ensures ConstOps('B', v) == [Backref(Const(v))]
  {
    hide StringLiteral, VariantFields, LeafConstOps;
  }

  lemma RefConstShape(v: bool)
    ensures ConstOps('R', v) == [IfEat('e', [Frame(StringLiteral())] + [], RefOps(v, ""))] + []
  {
    hide StringLiteral, VariantFields, LeafConstOps;
    assert RefOps(v, "") == [Str(Open(v)), Str("&"), Call(Const(true)), Str(Close(v))];
    assert [Frame(StringLiteral())] + [] == [Frame(StringLiteral())];
  }

  lemma MutConstShape(v: bool)
    ensures ConstOps('Q', v) == [Str(Open(v))] + ([Str("&")] + ([Str("mut ")] + ([Call(Const(true))] + ([Str(Close(v))] + []))))
  {
    hide StringLiteral, VariantFields, LeafConstOps;
  }

  lemma ArrayConstShape(v: bool)
    ensures ConstOps('A', v) == [Str(Open(v))] + ([Str("[")] + ([Until(", ", [Call(Const(true))])] + ([Str("]")] + ([Str(Close(v))] + []))))
  {
    hide StringLiteral, VariantFields, LeafConstOps;
  }

  lemma TupleConstShape(v: bool)
    ensures ConstOps('T', v) == [Str(Open(v))] + ([Str("(")] + ([Until(", ", [Call(Const(true))])] + ([Show(OneComma)] + ([Str(")")] + ([Str(Close(v))] + [])))))
  {
    hide StringLiteral, VariantFields, LeafConstOps;
  }

  lemma VariantConstShape(v: bool)
    ensures ConstOps('V', v) == [Str(Open(v))] + ([Call(Path(true))] + ([ParseTag] + ([VariantFields()] + ([Str(Close(v))] + []))))
  {
    hide StringLiteral, VariantFields, LeafConstOps;
  }

  /** The operations of a constant reference behind its tag. */
  function RefOps(v: bool, mut: string): seq<Op> {
    var tail := [Call(Const(true))] + ([Str(Close(v))] + []);
    [Str(Open(v))] + ([Str("&")] + (if mut == "" then tail else [Str(mut)] + tail))
  }

  lemma TextRuns(x: Context, full: bool, v: bool, b: State, codes: seq<u32>)
    requires IsSymbol(x, full) && Live(x, b) && TextAt(x.sym, b.next, MangleBytes(Utf8.EncodeAll(codes)) + "_") && Utf8.AllScalar(codes)
    requires Roomy(b, |Braced(v, "*" + Quoted(codes))|)
    ensures Goes(x, ConstOps('e', v), b, NoRegs(), |MangleBytes(Utf8.EncodeAll(codes))| + 1, Braced(v, "*" + Quoted(codes)))
  {
    hide Ok, After, SinkAfter, Consumes, ConsumesOp, SoundOp, Sound, Exec, Wf, Fine, Adv, IsSymbol, TextAt, Goes, NoRegs,
         StringLiteral, MangleBytes, Quoted, Utf8.AllScalar, Utf8.EncodeAll, ConstOps, Braced, VariantFields, Open, Close, RefOps;
    ConstSound('e', v);
    TextConstShape(v);
    LiteralShape();
    var q, k := Quoted(codes), |MangleBytes(Utf8.EncodeAll(codes))| + 1;
    BracedIs(v, "*" + q);
    var close := [Str(Close(v))] + [];
    AdvNone(b);
    StepStr(x, b, 0, "", Open(v), [Str("*")] + ([Frame(StringLiteral())] + close), NoRegs());
    assert "" + Open(v) == Open(v);
    StepStr(x, b, 0, Open(v), "*", [Frame(StringLiteral())] + close, NoRegs());
    var s := Adv(b, 0, Open(v) + "*");
    AdvSame(b, 0, Open(v) + "*");
    AdvRoom(b, 0, Open(v) + "*", |q|);
    StringRuns(x, full, s, codes);
    var r := GoesTo(x, StringLiteral(), s, NoRegs(), k, q);
    StepFrame(x, b, 0, Open(v) + "*", StringLiteral(), close, NoRegs(), k, q, r);
    StepStr(x, b, k, Open(v) + "*" + q, Close(v), [], NoRegs());
    assert Open(v) + "*" + q == Open(v) + ("*" + q);
    ExecNone(x, Adv(b, k, Braced(v, "*" + q)), NoRegs());
    GoesIs(x, ConstOps('e', v), b, NoRegs(), k, Braced(v, "*" + q), NoRegs());
  }

  lemma RefBranches(v: bool)
    ensures Sound([Frame(StringLiteral())] + []) && Sound(RefOps(v, ""))
  {
    LiteralShape();
    FrameSound(StringLiteral());
    hide StringLiteral;
    assert [Frame(StringLiteral())] + [] == [Frame(StringLiteral())];
    assert RefOps(v, "") == [Str(Open(v)), Str("&"), Call(Const(true)), Str(Close(v))];
  }

  lemma TextRefRuns(x: Context, full: bool, v: bool, b: State, codes: seq<u32>)
    requires IsSymbol(x, full) && Live(x, b) && TextAt(x.sym, b.next, "e" + (MangleBytes(Utf8.EncodeAll(codes)) + "_")) && Utf8.AllScalar(codes) && Roomy(b, |Quoted(codes)|)
    ensures Goes(x, ConstOps('R', v), b, NoRegs(), |MangleBytes(Utf8.EncodeAll(codes))| + 2, Quoted(codes))
  {
    hide Ok, After, SinkAfter, Consumes, ConsumesOp, SoundOp, Sound, Exec, Wf, Fine, Adv, IsSymbol, TextAt, Goes, NoRegs,
         StringLiteral, MangleBytes, Quoted, Utf8.AllScalar, Utf8.EncodeAll, ConstOps, VariantFields, Open, Close, RefOps;
    ConstSound('R', v);
    RefConstShape(v);
    RefBranches(v);
    LiteralShape();
    var q, w := Quoted(codes), MangleBytes(Utf8.EncodeAll(codes));
    var op := IfEat('e', [Frame(StringLiteral())] + [], RefOps(v, ""));
    Splits(x.sym, b.next, "e", w + "_");
    FirstIs(x.sym, b.next, "e");
    AfterFirst(x, b);
    AdvNone(b);
    var s := Adv(b, 1, "");
    AdvSame(b, 1, "");
    AdvRoom(b, 1, "", |q|);
    StringRuns(x, full, s, codes);
    var r := GoesTo(x, StringLiteral(), s, NoRegs(), |w| + 1, q);
    StepFrame(x, b, 1, "", StringLiteral(), [], NoRegs(), |w| + 1, q, r);
    assert "" + q == q;
    ExecNone(x, Adv(b, 1 + (|w| + 1), q), NoRegs());
    StepEaten(x, b, 0, "", op, [], NoRegs(), |w| + 2, q, NoRegs());
    ExecNone(x, Adv(b, |w| + 2, q), NoRegs());
    GoesIs(x, ConstOps('R', v), b, NoRegs(), |w| + 2, q, NoRegs());
  }

  function RefText(isMut: bool): string { if isMut then "&mut " else "&" }

  lemma RefOpsRun(x: Context, v: bool, isMut: bool, b: State, k: nat, u: string)
    requires Live(x, b) && Roomy(b, |Braced(v, RefText(isMut) + u)|) && Sound(RefOps(v, if isMut then "mut " else ""))
    requires var s := Adv(b, 0, Open(v) + RefText(isMut)); Wf(x, s) && Enter(x, Const(true), s) == Adv(s, k, u)
    ensures Exec(x, RefOps(v, if isMut then "mut " else ""), b, NoRegs()) == Outcome(Adv(b, k, Braced(v, RefText(isMut) + u)), NoRegs(), false)
  {
    hide Ok, After, SinkAfter, Consumes, ConsumesOp, SoundOp, Sound, Exec, Enter, Wf, Fine, Adv, NoRegs, Braced, Open, Close;
    var t := RefText(isMut);
    BracedIs(v, t + u);
    var tail := [Call(Const(true))] + ([Str(Close(v))] + []);
    var rest := if isMut then [Str("mut ")] + tail else tail;
    AdvNone(b);
    StepStr(x, b, 0, "", Open(v), [Str("&")] + rest, NoRegs());
    assert "" + Open(v) == Open(v);
    StepStr(x, b, 0, Open(v), "&", rest, NoRegs());
    if isMut {
      StepStr(x, b, 0, Open(v) + "&", "mut ", tail, NoRegs());
      assert Open(v) + "&" + "mut " == Open(v) + t;
    }
    StepCall(x, b, 0, Open(v) + t, Const(true), [Str(Close(v))] + [], NoRegs(), k, u);
    StepStr(x, b, k, Open(v) + t + u, Close(v), [], NoRegs());
    assert Open(v) + t + u == Open(v) + (t + u);
    ExecNone(x, Adv(b, k, Braced(v, t + u)), NoRegs());
  }

  lemma RefConstRuns(x: Context, v: bool, isMut: bool, b: State, k: nat, u: string)
    requires Live(x, b) && Roomy(b, |Braced(v, RefText(isMut) + u)|) && (!isMut ==> !Eats(x.sym, b.next, 'e'))
    requires var s := Adv(b, 0, Open(v) + RefText(isMut)); Wf(x, s) && Enter(x, Const(true), s) == Adv(s, k, u)
    ensures Goes(x, ConstOps(if isMut then 'Q' else 'R', v), b, NoRegs(), k, Braced(v, RefText(isMut) + u))
  {
    hide Ok, After, SinkAfter, Consumes, ConsumesOp, SoundOp, Sound, Exec, Enter, Wf, Fine, Adv, NoRegs, Braced, Open, Close,
         RefOps, ConstOps, Goes, StringLiteral, VariantFields;
    var tag, w := if isMut then 'Q' else 'R', Braced(v, RefText(isMut) + u);
    ConstSound(tag, v);
    RefConstShape(v);
    MutShape(v);
    RefBranches(v);
    RefOpsRun(x, v, isMut, b, k, u);
    if !isMut {
      AdvNone(b);
      StepUneaten(x, b, 0, "", IfEat('e', [Frame(StringLiteral())] + [], RefOps(v, "")), [], NoRegs(), k, w, NoRegs());
      ExecNone(x, Adv(b, k, w), NoRegs());
    }
    GoesIs(x, ConstOps(tag, v), b, NoRegs(), k, w, NoRegs());
  }

  lemma MutShape(v: bool)
    ensures RefOps(v, "mut ") == ConstOps('Q', v)
  {
    hide ConstOps;
    MutConstShape(v);
  }

  lemma ArrayConstRuns(x: Context, v: bool, b: State, k: nat, u: string, r: Regs)
    requires Live(x, b) && Roomy(b, |Braced(v, "[" + u + "]")|) && Sound([Call(Const(true))]) && Consumes([Call(Const(true))])
    requires var s := Adv(b, 0, Open(v) + "["); Wf(x, s) && Loop(x, ", ", [Call(Const(true))], s, NoRegs(), 0) == Outcome(Adv(s, k, u), r, false)
    ensures Goes(x, ConstOps('A', v), b, NoRegs(), k, Braced(v, "[" + u + "]"))
  {
    hide Ok, After, SinkAfter, Consumes, ConsumesOp, SoundOp, Sound, Exec, Loop, Wf, Fine, Adv, NoRegs, Braced, Open, Close,
         RefOps, ConstOps, Goes, StringLiteral, VariantFields;
    ConstSound('A', v);
    ArrayConstShape(v);
    BracedIs(v, "[" + u + "]");
    var list, close := Until(", ", [Call(Const(true))]), [Str(Close(v))] + [];
    AdvNone(b);
    StepStr(x, b, 0, "", Open(v), [Str("[")] + ([list] + ([Str("]")] + close)), NoRegs());
    assert "" + Open(v) == Open(v);
    StepStr(x, b, 0, Open(v), "[", [list] + ([Str("]")] + close), NoRegs());
    StepUntil(x, b, 0, Open(v) + "[", list, [Str("]")] + close, NoRegs(), k, u, r);
    StepStr(x, b, k, Open(v) + "[" + u, "]", close, r);
    StepStr(x, b, k, Open(v) + "[" + u + "]", Close(v), [], r);
    assert Open(v) + "[" + u + "]" == Open(v) + ("[" + u + "]");
    ExecNone(x, Adv(b, k, Braced(v, "[" + u + "]")), r);
    GoesIs(x, ConstOps('A', v), b, NoRegs(), k, Braced(v, "[" + u + "]"), r);
  }

  lemma TupleConstRuns(x: Context, full: bool, v: bool, b: State, k: nat, u: string, count: nat)
    requires IsSymbol(x, full) && Live(x, b) && Roomy(b, |Braced(v, "(" + u + CommaText(count) + ")")|) && Sound([Call(Const(true))]) && Consumes([Call(Const(true))])
    requires var s := Adv(b, 0, Open(v) + "("); Wf(x, s) && Loop(x, ", ", [Call(Const(true))], s, NoRegs(), 0) == Outcome(Adv(s, k, u), NoRegs().(count := count), false)
    ensures Goes(x, ConstOps('T', v), b, NoRegs(), k, Braced(v, "(" + u + CommaText(count) + ")"))
  {
    hide Ok, After, SinkAfter, Consumes, ConsumesOp, SoundOp, Sound, Exec, Loop, Wf, Fine, Adv, NoRegs, Braced, Open, Close,
         RefOps, ConstOps, Goes, StringLiteral, VariantFields, IsSymbol, Text, CommaText;
    ConstSound('T', v);
    TupleConstShape(v);
    var c := CommaText(count);
    BracedIs(v, "(" + u + c + ")");
    var list, close, r := Until(", ", [Call(Const(true))]), [Str(Close(v))] + [], NoRegs().(count := count);
    var end := [Str(")")] + close;
    AdvNone(b);
    StepStr(x, b, 0, "", Open(v), [Str("(")] + ([list] + ([Show(OneComma)] + end)), NoRegs());
    assert "" + Open(v) == Open(v);
    StepStr(x, b, 0, Open(v), "(", [list] + ([Show(OneComma)] + end), NoRegs());
    StepUntil(x, b, 0, Open(v) + "(", list, [Show(OneComma)] + end, NoRegs(), k, u, r);
    CommaIs(x.sym, full, r, b.lifetimes);
    StepText(x, full, b, k, Open(v) + "(" + u, OneComma, c, end, r);
    StepStr(x, b, k, Open(v) + "(" + u + c, ")", close, r);
    StepStr(x, b, k, Open(v) + "(" + u + c + ")", Close(v), [], r);
    assert Open(v) + "(" + u + c + ")" == Open(v) + ("(" + u + c + ")");
    ExecNone(x, Adv(b, k, Braced(v, "(" + u + c + ")")), r);
    GoesIs(x, ConstOps('T', v), b, NoRegs(), k, Braced(v, "(" + u + c + ")"), r);
  }

  // ------------------------------------------------------------------ variants

  lemma TagParses(x: Context, st: State, c: char, r: Regs)
    requires Eats(x.sym, st.next, c)
    ensures Parse(x, ParseTag, st, r) == Outcome(st.(next := st.next + 1), r.(tag := c), false)
  {
  }

  lemma StepParseTag(x: Context, b: State, n: nat, t: string, c: char, rest: seq<Op>, r: Regs)
    requires Live(x, Adv(b, n, t)) && Sound([ParseTag] + rest) && Eats(x.sym, b.next + n, c)
    ensures Sound(rest) && Live(x, Adv(b, n + 1, t)) && Exec(x, [ParseTag] + rest, Adv(b, n, t), r) == Exec(x, rest, Adv(b, n + 1, t), r.(tag := c))
  {
    hide Ok, After, SinkAfter, Consumes, ConsumesOp, SoundOp, Sound, Exec, Wf, Fine, Adv, Parse;
    AdvParse(b, n, t, 1);
    TagParses(x, Adv(b, n, t), c, r);
    StepParse(x, b, n, t, ParseTag, rest, r, 1, r.(tag := c));
  }

  function TupleFields(): seq<Op> { [Str("(")] + ([Until(", ", [Call(Const(true))])] + ([Str(")")] + [])) }

  function StructFields(): seq<Op> { [Str(" { ")] + ([Until(", ", [Frame(StructField())])] + ([Str(" }")] + [])) }

  function StructOp(): Op { IfTag('S', StructFields(), [Fail]) }

  function TupleOp(): Op { IfTag('T', TupleFields(), [StructOp()] + []) }

  lemma VariantShape()
    ensures VariantFields() == IfTag('U', [], [TupleOp()] + [])
  {
    hide StructField;
    assert TupleFields() == [Str("("), Until(", ", [Call(Const(true))]), Str(")")];
    assert StructFields() == [Str(" { "), Until(", ", [Frame(StructField())]), Str(" }")];
    assert [StructOp()] + [] == [StructOp()] && [TupleOp()] + [] == [TupleOp()];
  }

  lemma VariantSound()
    ensures Sound(TupleFields()) && Sound(StructFields()) && Sound([Fail]) && Sound([]) && Sound([StructOp()] + []) && Sound([TupleOp()] + [])
    ensures Sound([Frame(StructField())]) && Consumes([Frame(StructField())])
  {
    hide StructField;
    StructListSound();
    StructFieldSound();
    ListSound(Call(Const(true)));
    hide Consumes, ConsumesOp;
    assert TupleFields() == [Str("("), Until(", ", [Call(Const(true))]), Str(")")];
    assert StructFields() == [Str(" { "), Until(", ", [Frame(StructField())]), Str(" }")];
    SurroundedSound("(", Until(", ", [Call(Const(true))]), ")");
    SurroundedSound(" { ", Until(", ", [Frame(StructField())]), " }");
    PlainSound([Fail]);
    PlainSound([]);
    hide Sound, TupleFields, StructFields;
    SingleSound(StructOp());
    assert [StructOp()] + [] == [StructOp()];
    SingleSound(TupleOp());
    assert [TupleOp()] + [] == [TupleOp()];
  }

  lemma StructListSound()
    ensures Sound([Frame(StructField())]) && Consumes([Frame(StructField())]) && Sound(StructField())
  {
    assert ConsumesOp(StructField()[1]);
    assert Sound(StructField());
    hide StructField;
    FrameListSound(StructField());
  }

  /** What the fields of a variant read and print, by the tag in front of them. */
  predicate FieldsGo(x: Context, s: State, r: Regs, k: nat, u: string) {
    && Live(x, s) && SoundOp(VariantFields())
    && One(x, VariantFields(), s, r).st == Adv(s, k, u) && !One(x, VariantFields(), s, r).returned
  }

  lemma FieldsGoIs(x: Context, s: State, r: Regs, k: nat, u: string, r': Regs)
    requires Live(x, s) && SoundOp(VariantFields()) && One(x, VariantFields(), s, r) == Outcome(Adv(s, k, u), r', false)
    ensures FieldsGo(x, s, r, k, u)
  {
    hide Ok, After, SinkAfter, One, SoundOp, Wf, Fine, Adv, VariantFields;
  }

  lemma UnitFields(x: Context, s: State, r: Regs)
    requires Live(x, s) && r.tag == 'U'
    ensures FieldsGo(x, s, r, 0, "")
  {
    hide Ok, After, SinkAfter, Consumes, ConsumesOp, SoundOp, Sound, Exec, One, Wf, Fine, Adv, VariantFields, FieldsGo, TupleOp;
    VariantSound();
    VariantFieldsSound();
    VariantShape();
    OneTag(x, VariantFields(), s, r);
    ExecNone(x, s, r);
    AdvNone(s);
    FieldsGoIs(x, s, r, 0, "", r);
  }

  lemma TupleFieldsRun(x: Context, s: State, r: Regs, k: nat, u: string, r': Regs)
    requires Live(x, s) && r.tag == 'T' && Roomy(s, |u| + 2) && Sound([Call(Const(true))]) && Consumes([Call(Const(true))])
    requires var q := Adv(s, 0, "("); Wf(x, q) && Loop(x, ", ", [Call(Const(true))], q, r, 0) == Outcome(Adv(q, k, u), r', false)
    ensures FieldsGo(x, s, r, k, "(" + u + ")")
  {
    hide Ok, After, SinkAfter, Consumes, ConsumesOp, SoundOp, Sound, Exec, One, Loop, Wf, Fine, Adv, VariantFields, FieldsGo, StructOp;
    VariantSound();
    VariantFieldsSound();
    VariantShape();
    AdvNone(s);
    var list := Until(", ", [Call(Const(true))]);
    StepStr(x, s, 0, "", "(", [list] + ([Str(")")] + []), r);
    assert "" + "(" == "(";
    StepUntil(x, s, 0, "(", list, [Str(")")] + [], r, k, u, r');
    StepStr(x, s, k, "(" + u, ")", [], r');
    ExecNone(x, Adv(s, k, "(" + u + ")"), r');
    StepTag(x, s, 0, "", TupleOp(), [], r, k, "(" + u + ")", r');
    ExecNone(x, Adv(s, k, "(" + u + ")"), r');
    OneTag(x, VariantFields(), s, r);
    FieldsGoIs(x, s, r, k, "(" + u + ")", r');
  }

  lemma StructFieldsRun(x: Context, s: State, r: Regs, k: nat, u: string, r': Regs)
    requires Live(x, s) && r.tag == 'S' && Roomy(s, |u| + 5) && Sound([Frame(StructField())]) && Consumes([Frame(StructField())])
    requires var q := Adv(s, 0, " { "); Wf(x, q) && Loop(x, ", ", [Frame(StructField())], q, r, 0) == Outcome(Adv(q, k, u), r', false)
    ensures FieldsGo(x, s, r, k, " { " + u + " }")
  {
    hide Ok, After, SinkAfter, Consumes, ConsumesOp, SoundOp, Sound, Exec, One, Loop, Wf, Fine, Adv, VariantFields, FieldsGo,
         StructField, TupleFields;
    VariantSound();
    VariantFieldsSound();
    VariantShape();
    AdvNone(s);
    var list, w := Until(", ", [Frame(StructField())]), " { " + u + " }";
    StepStr(x, s, 0, "", " { ", [list] + ([Str(" }")] + []), r);
    assert "" + " { " == " { ";
    StepUntil(x, s, 0, " { ", list, [Str(" }")] + [], r, k, u, r');
    StepStr(x, s, k, " { " + u, " }", [], r');
    ExecNone(x, Adv(s, k, w), r');
    StepTag(x, s, 0, "", StructOp(), [], r, k, w, r');
    ExecNone(x, Adv(s, k, w), r');
    StepTag(x, s, 0, "", TupleOp(), [], r, k, w, r');
    ExecNone(x, Adv(s, k, w), r');
    OneTag(x, VariantFields(), s, r);
    FieldsGoIs(x, s, r, k, w, r');
  }

  lemma VariantRuns(x: Context, v: bool, b: State, c: char, k: nat, u: string, k': nat, u': string)
    requires Live(x, b) && Roomy(b, |Braced(v, u + u')|)
    requires var s := Adv(b, 0, Open(v)); Wf(x, s) && Enter(x, Path(true), s) == Adv(s, k, u)
    requires Eats(x.sym, b.next + k, c) && FieldsGo(x, Adv(b, k + 1, Open(v) + u), NoRegs().(tag := c), k', u')
    ensures Goes(x, ConstOps('V', v), b, NoRegs(), k + 1 + k', Braced(v, u + u'))
  {
    hide Ok, After, SinkAfter, Consumes, ConsumesOp, SoundOp, Sound, Exec, One, Enter, Wf, Fine, Adv, NoRegs, Braced, Open, Close,
         RefOps, ConstOps, Goes, StringLiteral, VariantFields;
    ConstSound('V', v);
    VariantConstShape(v);
    BracedIs(v, u + u');
    var close := [Str(Close(v))] + [];
    AdvNone(b);
    StepStr(x, b, 0, "", Open(v), [Call(Path(true))] + ([ParseTag] + ([VariantFields()] + close)), NoRegs());
    assert "" + Open(v) == Open(v);
    StepCall(x, b, 0, Open(v), Path(true), [ParseTag] + ([VariantFields()] + close), NoRegs(), k, u);
    StepParseTag(x, b, k, Open(v) + u, c, [VariantFields()] + close, NoRegs());
    var s, r := Adv(b, k + 1, Open(v) + u), NoRegs().(tag := c);
    var r' := One(x, VariantFields(), s, r).regs;
    AdvAdv(b, k + 1, Open(v) + u, k', u');
    Step(x, b, k + 1, Open(v) + u, VariantFields(), close, r, k + 1 + k', Open(v) + u + u', r');
    StepStr(x, b, k + 1 + k', Open(v) + u + u', Close(v), [], r');
    assert Open(v) + u + u' == Open(v) + (u + u');
    ExecNone(x, Adv(b, k + 1 + k', Braced(v, u + u')), r');
    GoesIs(x, ConstOps('V', v), b, NoRegs(), k + 1 + k', Braced(v, u + u'), r');
  }

  lemma FieldShape()
    ensures StructField() == [ParseOptInteger('s')] + ([ParseIdent] + ([Show(IdentName)] + ([Str(": ")] + ([Call(Const(true))] + []))))
  {
  }

  lemma FieldRuns(x: Context, full: bool, b: State, dis: nat, name: Name, k: nat, u: string)
    requires IsSymbol(x, full) && Live(x, b) && FitsNumber(dis) && FitsName(name) && Roomy(b, |RenderName(name)| + 3 + |u|)
    requires TextAt(x.sym, b.next, MangleOpt('s', dis) + MangleName(name)) && Stands(x.sym, b.next + |MangleOpt('s', dis)|, MangleName(name))
    requires var s := Adv(b, |MangleOpt('s', dis)| + |MangleName(name)|, RenderName(name) + ": "); Wf(x, s) && Enter(x, Const(true), s) == Adv(s, k, u)
    ensures Goes(x, StructField(), b, NoRegs(), |MangleOpt('s', dis)| + |MangleName(name)| + k, RenderName(name) + ": " + u)
  {
    hide Ok, After, SinkAfter, Consumes, ConsumesOp, SoundOp, Sound, Exec, Enter, Wf, Fine, Adv, NoRegs, Goes, StructField,
         MangleOpt, MangleName, RenderName, IsSymbol, TextAt, Stands, FitsName, Holding;
    StructListSound();
    FieldShape();
    NameStarts(name);
    OptAbsent(x.sym, b.next, 's', dis, MangleName(name));
    Splits(x.sym, b.next, MangleOpt('s', dis), MangleName(name));
    AdvNone(b);
    var call := [Call(Const(true))] + [];
    var n, w := |MangleOpt('s', dis)|, RenderName(name);
    var m := n + |MangleName(name)|;
    StepOpt(x, b, 0, "", 's', dis, [ParseIdent] + ([Show(IdentName)] + ([Str(": ")] + call)), NoRegs());
    var r1 := NoRegs().(number := dis);
    var i := StepIdent(x, b, n, "", name, [Show(IdentName)] + ([Str(": ")] + call), r1);
    var r := r1.(ident := i);
    StepName(x, full, b, m, "", name, [Str(": ")] + call, r);
    assert "" + w == w;
    StepStr(x, b, m, w, ": ", call, r);
    StepCall(x, b, m, w + ": ", Const(true), [], r, k, u);
    ExecNone(x, Adv(b, m + k, w + ": " + u), r);
    GoesIs(x, StructField(), b, NoRegs(), m + k, w + ": " + u, r);
  }
}

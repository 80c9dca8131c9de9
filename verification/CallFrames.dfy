/**
 Call frame programs: how `DwarfParser` turns the instructions of a frame description entry into rows. The register
 numbers and sizes are those of x86-64.
 */
module CallFrames {
  import opened Bytes
  import opened CfaExpressions
  import opened CallFrameStandard
  import opened FrameTable

  const REG_FP: u32 := 6
  const REG_SP: u32 := 7
  const REG_PC: u32 := 16
  const REG_PLT: u32 := 128
  const REG_INVALID: u32 := 255
  const SAME_FP: int := -0x8000_0000

  /** The four variables of `parseInstructions` that make up a row. */
  datatype Regs = Regs(cfaReg: u32, cfaOff: int, fpOff: int, pcOff: int)

  function InitialRegs(): Regs { Regs(REG_SP, 8, SAME_FP, -8) }

  function BitOr(a: nat, b: nat): nat
    decreases a
  {
    if a == 0 then b else (if a % 2 == 1 || b % 2 == 1 then 1 else 0) + 2 * BitOr(a / 2, b / 2)
  }

  /** `cfa_reg | cfa_off << 8`. */
  function Packed(reg: u32, off: int): int { S32(U32(BitOr(reg, U32(256 * off)))) }

  function RuleOf(r: Regs): Rule { Rule(Packed(r.cfaReg, r.cfaOff), r.fpOff, r.pcOff) }

  /** The frame after the end of an entry: linked through the frame pointer. */
  function LinkedFrame(): Rule { Rule(Packed(REG_FP, 16), -16, -8) }

  /** What an instruction that is no advance and touches no saved state does to the variables. */
  function Executed(i: Instr, r: Regs): Regs {
    match i
    case Offset(reg, off) => if reg == REG_FP then r.(fpOff := Int32(off)) else if reg == REG_PC then r.(pcOff := Int32(off)) else r
    case Restore(reg) => if reg == REG_FP then r.(fpOff := SAME_FP) else if reg == REG_PC then r.(pcOff := -8) else r
    case RestoreExtended(reg) => if reg == REG_FP then r.(fpOff := SAME_FP) else r
    case Undefined(reg) => if reg == REG_FP then r.(fpOff := SAME_FP) else r
    case SameValue(reg) => if reg == REG_FP then r.(fpOff := SAME_FP) else r
    case DefCfa(reg, off) => r.(cfaReg := reg, cfaOff := Int32(off))
    case DefCfaRegister(reg) => r.(cfaReg := reg)
    case DefCfaOffset(off) => r.(cfaOff := Int32(off))
    case DefCfaExpression(expr) => r.(cfaReg := if expr.length == 11 then REG_PLT else REG_INVALID, cfaOff := 8)
    case ValExpression(reg, expr) =>
      var off := Parsed(expr.ops, 0, 0);
      if reg == REG_PC && off != 0 then r.(fpOff := Int32(2 * off + 1)) else r
    case _ => r
  }

  /** The rows the parser adds: it remembers one state only, and ends at the first `Nop` or `SetLoc`. */
  function Emitted(program: seq<Instr>, loc: u32, r: Regs, saved: Regs): seq<Row>
    decreases |program|
  {
    if program == [] then [Row(loc, RuleOf(r))]
    else
      var rest := program[1..];
      match program[0]
      case Nop => [Row(loc, RuleOf(r))]
      case SetLoc(_) => [Row(loc, RuleOf(r))]
      case Advance(delta) => [Row(loc, RuleOf(r))] + Emitted(rest, U32(loc + delta), r, saved)
      case Remember => Emitted(rest, loc, r, r)
      case RestoreState => Emitted(rest, loc, saved, saved)
      case Unknown => []
      case i => Emitted(rest, loc, Executed(i, r), saved)
  }

  /** `parseInstructions` on the decoded program. */
  method ParseInstructions(b: Builder, program: seq<Instr>, start: u32)
    requires b.Valid()
    modifies b
    ensures b.Valid() && b.rows == AllAdded(old(b.rows), Emitted(program, start, InitialRegs(), InitialRegs()))
  {
    hide Executed, RuleOf, Emitted, AllAdded, Added, InitialRegs;
    var loc, r, saved := start, InitialRegs(), InitialRegs();
    var n := 0;
    assert program[0..] == program;
    while n < |program|
      invariant n <= |program| && b.Valid()
      invariant AllAdded(old(b.rows), Emitted(program, start, InitialRegs(), InitialRegs())) == AllAdded(b.rows, Emitted(program[n..], loc, r, saved))
    {
      var i := program[n];
      FirstRows(program, n, loc, r, saved);
      n := n + 1;
      match i {
        case Advance(delta) =>
          AddedFirst(b.rows, Row(loc, RuleOf(r)), Emitted(program[n..], U32(loc + delta), r, saved));
          b.AddRecord(loc, RuleOf(r));
          loc := U32(loc + delta);
        case Remember => saved := r;
        case RestoreState => r := saved;
        case Nop =>
          AddedFirst(b.rows, Row(loc, RuleOf(r)), []);
          b.AddRecord(loc, RuleOf(r));
          return;
        case SetLoc(_) =>
          AddedFirst(b.rows, Row(loc, RuleOf(r)), []);
          b.AddRecord(loc, RuleOf(r));
          return;
        case Unknown =>
          AddedFirst(b.rows, Row(loc, RuleOf(r)), []);
          return;
        case _ => r := ExecutePlain(i, r);
      }
    }
    assert program[n..] == [];
    LastRow(loc, r, saved);
    AddedFirst(b.rows, Row(loc, RuleOf(r)), []);
    b.AddRecord(loc, RuleOf(r));
  }

  lemma LastRow(loc: u32, r: Regs, saved: Regs)
    ensures Emitted([], loc, r, saved) == [Row(loc, RuleOf(r))]
  {
    hide RuleOf;
  }

  /** The rows from instruction `n` on. */
  lemma FirstRows(program: seq<Instr>, n: nat, loc: u32, r: Regs, saved: Regs)
    requires n < |program|
    ensures Emitted(program[n..], loc, r, saved) ==
      match program[n]
      case Nop => [Row(loc, RuleOf(r))]
      case SetLoc(_) => [Row(loc, RuleOf(r))]
      case Advance(delta) => [Row(loc, RuleOf(r))] + Emitted(program[n + 1..], U32(loc + delta), r, saved)
      case Remember => Emitted(program[n + 1..], loc, r, r)
      case RestoreState => Emitted(program[n + 1..], loc, saved, saved)
      case Unknown => []
      case i => Emitted(program[n + 1..], loc, Executed(i, r), saved)
  {
    assert program[n..][1..] == program[n + 1..];
    hide Executed, RuleOf;
  }

  /** One instruction; expressions are parsed on the way. */
  method ExecutePlain(i: Instr, r: Regs) returns (r': Regs)
    requires Plain(i)
    ensures r' == Executed(i, r)
  {
    if i.ValExpression? && i.reg == REG_PC {
      var off := ParseExpression(i.expr);
      return if off != 0 then r.(fpOff := Int32(2 * off + 1)) else r;
    }
    hide Parsed;
    r' := Executed(i, r);
  }

  lemma AddedFirst(table: seq<Row>, row: Row, rest: seq<Row>)
    ensures AllAdded(table, [row] + rest) == AllAdded(Added(table, row), rest)
    ensures rest == [] ==> AllAdded(table, [row]) == Added(table, row)
    ensures AllAdded(table, []) == table
  {
    assert ([row] + rest)[1..] == rest;
    if rest == [] { assert [row][1..] == []; }
  }

  // ------------------------------------------------------------------ the places of rows

  /** How far a program advances before the parser ends. */
  function Span(program: seq<Instr>): nat
    decreases |program|
  {
    if program == [] || program[0].Nop? || program[0].SetLoc? then 0
    else (if program[0].Advance? then program[0].delta else 0) + Span(program[1..])
  }

  /** The rows of a program are in order, between its start and its span. */
  predicate Within(rows: seq<Row>, low: nat, high: nat) {
    Ordered(rows) && forall i | 0 <= i < |rows| :: low <= rows[i].loc <= high
  }

  lemma WithinCons(row: Row, rows: seq<Row>, low: nat, high: nat)
    requires Within(rows, low, high) && row.loc <= low <= high
    ensures Within([row] + rows, row.loc, high)
  {
  }

  lemma WithinSingle(row: Row, high: nat)
    requires row.loc <= high
    ensures Within([row], row.loc, high) && Within([], row.loc, high)
  {
  }

  lemma {:induction false} EmittedWithin(program: seq<Instr>, loc: u32, r: Regs, saved: Regs)
    requires loc + Span(program) < 0x1_0000_0000
    ensures Within(Emitted(program, loc, r, saved), loc, loc + Span(program))
    decreases |program|
  {
    hide Executed, RuleOf, Within, Emitted;
    WithinSingle(Row(loc, RuleOf(r)), loc + Span(program));
    if program == [] {
      LastRow(loc, r, saved);
    } else {
      FirstRows(program, 0, loc, r, saved);
      assert program[0..] == program;
      match program[0]
      case Advance(delta) =>
        EmittedWithin(program[1..], loc + delta, r, saved);
        WithinCons(Row(loc, RuleOf(r)), Emitted(program[1..], loc + delta, r, saved), loc + delta, loc + Span(program));
      case Remember => EmittedWithin(program[1..], loc, r, r);
      case RestoreState => EmittedWithin(program[1..], loc, saved, saved);
      case Nop =>
      case SetLoc(_) =>
      case Unknown =>
      case i => EmittedWithin(program[1..], loc, Executed(i, r), saved);
    }
  }
}

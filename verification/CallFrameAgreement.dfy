/**
 When a row of the table means what the standard's rules mean: exactly for each instruction, and for whole programs
 under conditions on the program.
 */
module CallFrameAgreement {
  import opened Bytes
  import opened CfaExpressions
  import opened CallFrameStandard
  import opened FrameTable
  import opened CallFrames

  // ------------------------------------------------------------------ what a row means

  /** The stack walker takes a row's CFA apart again. */
  function CfaReg(rule: Rule): u32 { rule.cfa % 256 }

  function CfaOff(rule: Rule): int { rule.cfa / 256 }

  /** A row with `REG_INVALID` gives no answer: the walk ends, and the CFA must be one that only an expression describes. */
  ghost predicate CfaAgrees(rule: Rule, cfa: CfaRule) {
    if CfaReg(rule) == REG_PLT then CfaOff(rule) == 8 && cfa.CfaExpression? && LinkageTable(cfa.expr)
    else if CfaReg(rule) == REG_INVALID then cfa.CfaExpression?
    else cfa == CfaRegister(CfaReg(rule), CfaOff(rule))
  }

  /** An odd offset means that the previous PC is relative to this one, and the frame pointer is the same. */
  ghost predicate LinksAgree(fpOff: int, pcOff: int, fp: RegRule, pc: RegRule) {
    if fpOff % 2 == 1 then fp == SameRule && pc.ValExpressionRule? && Relative(pc.expr, fpOff / 2)
    else fp == (if fpOff == SAME_FP then SameRule else OffsetRule(fpOff)) && pc == OffsetRule(pcOff)
  }

  /** A row says of the CFA, the frame pointer and the return address what the rules say. */
  ghost predicate Agrees(rule: Rule, st: State) {
    CfaAgrees(rule, st.cfa) && LinksAgree(rule.fpOff, rule.pcOff, st.regs(REG_FP), st.regs(REG_PC))
  }

  /** CFA rules that a row has room for. */
  predicate Encodable(reg: u32, off: int) { reg < 256 && reg != REG_PLT && reg != REG_INVALID && -0x80_0000 <= off < 0x80_0000 }

  lemma {:induction false} OrLow(a: nat, b: nat, k: nat)
    requires a < Power(k)
    ensures BitOr(a, Power(k) * b) == a + Power(k) * b
    decreases k
  {
    hide BitOr;
    if a > 0 {
      HalfPower(b, k);
      OrLow(a / 2, b, k - 1);
    }
    OrEven(a, Power(k) * b / 2, Power(k) * b);
  }

  lemma HalfPower(b: nat, k: nat)
    requires k > 0
    ensures Power(k) == 2 * Power(k - 1) && Power(k) * b == 2 * (Power(k - 1) * b)
  {
  }

  lemma OrEven(a: nat, m: nat, b: nat)
    requires a > 0 ==> b == 2 * m
    ensures BitOr(a, b) == if a == 0 then b else a % 2 + 2 * BitOr(a / 2, m)
  {
  }

  lemma Or8(a: nat, m: nat)
    requires a < 256
    ensures BitOr(a, 256 * m) == a + 256 * m
  {
    assert Power(4) == 16 && Power(8) == 256;
    OrLow(a, m, 8);
    hide BitOr, Power;
  }

  lemma PackedIs(reg: u32, off: int)
    requires reg < 256 && -0x80_0000 <= off < 0x80_0000
    ensures Packed(reg, off) == 256 * off + reg
  {
    hide BitOr;
    Or8(reg, if off < 0 then off + 0x100_0000 else off);
  }

  lemma PackedRange(reg: u32, off: int)
    ensures -0x8000_0000 <= Packed(reg, off) < 0x8000_0000
  {
    hide BitOr;
  }

  /** A CFA rule by register comes back from a row exactly if the row has room for it. */
  lemma CfaExact(reg: u32, off: int, fpOff: int, pcOff: int)
    ensures CfaAgrees(Rule(Packed(reg, Int32(off)), fpOff, pcOff), CfaRegister(reg, off)) <==> Encodable(reg, off)
  {
    PackedRange(reg, Int32(off));
    if reg < 256 && -0x80_0000 <= off < 0x80_0000 {
      Fits32(off);
      PackedIs(reg, off);
    }
    hide Packed, Int32;
  }

  // ------------------------------------------------------------------ one instruction

  /** The parser's variables stand for the rules. */
  ghost predicate Stands(r: Regs, st: State) {
    && StandsForCfa(r, st.cfa) && InWord(r.fpOff)
    && LinksAgree(r.fpOff, r.pcOff, st.regs(REG_FP), st.regs(REG_PC))
  }

  ghost predicate StandsForCfa(r: Regs, cfa: CfaRule) {
    match cfa
    case NoCfa => false
    case CfaRegister(reg, off) => r.cfaReg == reg && r.cfaOff == off && Encodable(reg, off)
    case CfaExpression(expr) => r.cfaOff == 8 && (if expr.length == 11 then r.cfaReg == REG_PLT && LinkageTable(expr) else r.cfaReg == REG_INVALID)
  }

  lemma StandsAgrees(r: Regs, st: State)
    requires Stands(r, st)
    ensures Agrees(RuleOf(r), st)
  {
    hide Packed, LinksAgree;
    if st.cfa.CfaRegister? {
      Fits32(st.cfa.off);
      CfaExact(st.cfa.reg, st.cfa.off, r.fpOff, r.pcOff);
    } else {
      PackedIs(r.cfaReg, 8);
    }
  }

  /** Both distances are the same, and a row can hold it. */
  ghost predicate SameDistance(a: Expr, b: Expr) { exists x :: -0x4000_0000 <= x < 0x4000_0000 && Relative(a, x) && Relative(b, x) }

  predicate InWord(x: int) { -0x8000_0000 <= x < 0x8000_0000 }

  /** The instruction is one the parser handles, where the standard's rules are `st` and initially `init`. */
  ghost predicate Known(i: Instr, st: State, init: State) {
    match i
    case Offset(reg, off) =>
      && (reg == REG_FP ==> InWord(off) && off % 2 == 0 && off != SAME_FP && st.regs(REG_PC).OffsetRule?)
      && (reg == REG_PC ==> InWord(off) && st.regs(REG_PC).OffsetRule?)
    case Restore(reg) => reg == REG_FP || reg == REG_PC ==> st.regs(REG_PC).OffsetRule?
    case RestoreExtended(reg) =>
      && (reg == REG_FP ==> st.regs(REG_PC).OffsetRule?)
      && (reg == REG_PC ==> st.regs(REG_PC) == init.regs(REG_PC))
    case Undefined(reg) => reg != REG_FP && reg != REG_PC
    case SameValue(reg) => reg != REG_PC && (reg == REG_FP ==> st.regs(REG_PC).OffsetRule?)
    case Register(reg, _) => reg != REG_FP && reg != REG_PC
    case DefCfa(reg, off) => Encodable(reg, off)
    case DefCfaRegister(reg) => st.cfa.CfaRegister? && Encodable(reg, st.cfa.off)
    case DefCfaOffset(off) => st.cfa.CfaRegister? && Encodable(st.cfa.reg, off)
    case DefCfaExpression(expr) => expr.length == 11 ==> LinkageTable(expr)
    case Expression(reg, _) => reg != REG_FP && reg != REG_PC
    case ValOffset(reg, _) => reg != REG_FP && reg != REG_PC
    case ValExpression(reg, expr) =>
      && reg != REG_FP
      && (reg == REG_PC ==>
            var off := Parsed(expr.ops, 0, 0);
            && st.regs(REG_FP) == SameRule
            && (if off == 0 then st.regs(REG_PC).ValExpressionRule? && SameDistance(expr, st.regs(REG_PC).expr)
                else Relative(expr, Int32(2 * off + 1) / 2)))
    case ArgsSize => true
    case _ => false
  }

  /** The rules that the parser takes for granted at the start of an entry. */
  ghost predicate Usual(init: State) { init.cfa == CfaRegister(REG_SP, 8) && init.regs(REG_FP) == SameRule && init.regs(REG_PC) == OffsetRule(-8) }

  predicate OnCfa(i: Instr) { i.DefCfa? || i.DefCfaRegister? || i.DefCfaOffset? || i.DefCfaExpression? }

  lemma CfaStepExact(i: Instr, r: Regs, st: State, init: State)
    requires Stands(r, st) && OnCfa(i) && Execute(i, st, init).Some?
    ensures Agrees(RuleOf(Executed(i, r)), Execute(i, st, init).value) <==> Known(i, st, init)
    ensures Known(i, st, init) ==> Stands(Executed(i, r), Execute(i, st, init).value)
  {
    hide Packed, LinksAgree, LinkageTable, Int32, Parsed, Relative;
    var st' := Execute(i, st, init).value;
    if st.cfa.CfaRegister? { Fits32(st.cfa.off); }
    if st'.cfa.CfaRegister? {
      CfaExact(st'.cfa.reg, st'.cfa.off, r.fpOff, r.pcOff);
      if Encodable(st'.cfa.reg, st'.cfa.off) { Fits32(st'.cfa.off); }
    } else {
      PackedIs(REG_PLT, 8);
      PackedIs(REG_INVALID, 8);
    }
  }

  lemma DistanceExact(expr: Expr, e0: Expr, fpOff: int)
    requires Relative(e0, fpOff / 2) && -0x8000_0000 <= fpOff < 0x8000_0000
    ensures Relative(expr, fpOff / 2) <==> SameDistance(expr, e0)
  {
    var x := fpOff / 2;
    if SameDistance(expr, e0) {
      var y :| -0x4000_0000 <= y < 0x4000_0000 && Relative(expr, y) && Relative(e0, y);
      OneDistance(e0, x, y);
      hide Relative;
    }
    hide Relative;
  }

  /** The frame pointer and the return address, without the rest of the state. */
  lemma LinkStepExact(i: Instr, r: Regs, st: State, init: State)
    requires Stands(r, st) && Usual(init) && Plain(i) && !OnCfa(i) && !i.ValExpression?
    ensures Execute(i, st, init).Some?
    ensures var r', st' := Executed(i, r), Execute(i, st, init).value;
      && r'.cfaReg == r.cfaReg && r'.cfaOff == r.cfaOff && st'.cfa == st.cfa && InWord(r'.fpOff)
      && (LinksAgree(r'.fpOff, r'.pcOff, st'.regs(REG_FP), st'.regs(REG_PC)) <==> Known(i, st, init))
  {
    hide Relative, Parsed, LinkageTable, StandsForCfa;
  }

  lemma ExpressionStepExact(i: Instr, r: Regs, st: State, init: State)
    requires Stands(r, st) && i.ValExpression?
    ensures Execute(i, st, init).Some?
    ensures var r', st' := Executed(i, r), Execute(i, st, init).value;
      && r'.cfaReg == r.cfaReg && r'.cfaOff == r.cfaOff && st'.cfa == st.cfa && InWord(r'.fpOff)
      && (LinksAgree(r'.fpOff, r'.pcOff, st'.regs(REG_FP), st'.regs(REG_PC)) <==> Known(i, st, init))
  {
    hide Relative, Parsed, LinkageTable, StandsForCfa, SameDistance;
    var off := Parsed(i.expr.ops, 0, 0);
    OddWord(off);
    hide Int32;
    if st.regs(REG_PC).ValExpressionRule? { DistanceExact(i.expr, st.regs(REG_PC).expr, r.fpOff); }
  }

  lemma OddWord(off: int)
    ensures Int32(2 * off + 1) % 2 == 1 && InWord(Int32(2 * off + 1))
  {
    var q := (2 * off + 1) / 0x1_0000_0000;
    assert U32(2 * off + 1) == 2 * (off - 0x8000_0000 * q) + 1;
  }

  /** Exactly the known instructions are handled: after any other, the row at that place would not say what the rules say. */
  lemma StepExact(i: Instr, r: Regs, st: State, init: State)
    requires Stands(r, st) && Usual(init) && Plain(i) && Execute(i, st, init).Some?
    ensures Agrees(RuleOf(Executed(i, r)), Execute(i, st, init).value) <==> Known(i, st, init)
    ensures Known(i, st, init) ==> Stands(Executed(i, r), Execute(i, st, init).value)
  {
    if OnCfa(i) {
      CfaStepExact(i, r, st, init);
    } else {
      StandsAgrees(r, st);
      if i.ValExpression? { ExpressionStepExact(i, r, st, init); } else { LinkStepExact(i, r, st, init); }
    }
    hide Executed, Execute, Known, LinksAgree, StandsForCfa, CfaAgrees, Usual, Packed;
  }

  // ------------------------------------------------------------------ where the parser ends early

  /** A row for `st0` serves `st` as well. */
  ghost predicate Alike(st0: State, st: State) {
    && (match st0.cfa
        case CfaExpression(expr) => st.cfa.CfaExpression? && (expr.length == 11 ==> LinkageTable(st.cfa.expr))
        case _ => st.cfa == st0.cfa)
    && st.regs(REG_FP) == st0.regs(REG_FP)
    && (match st0.regs(REG_PC)
        case ValExpressionRule(expr) => st.regs(REG_PC).ValExpressionRule? && SameDistance(st.regs(REG_PC).expr, expr)
        case _ => st.regs(REG_PC) == st0.regs(REG_PC))
  }

  lemma AlikeExact(r: Regs, st0: State, st: State)
    requires Stands(r, st0)
    ensures Agrees(RuleOf(r), st) <==> Alike(st0, st)
  {
    StandsAgrees(r, st0);
    hide Packed, LinkageTable, Relative, SameDistance;
    if st0.cfa.CfaExpression? { PackedIs(r.cfaReg, 8); }
    if st0.regs(REG_PC).ValExpressionRule? && st.regs(REG_PC).ValExpressionRule? {
      DistanceExact(st.regs(REG_PC).expr, st0.regs(REG_PC).expr, r.fpOff);
    }
  }

  const END: nat := 0x1_0000_0000

  /** From here on the program changes no rule that the table keeps, at any address from `low` on. */
  ghost predicate Idle(program: seq<Instr>, loc: nat, low: nat, st0: State, st: State, stack: seq<State>, init: State)
    decreases |program|
  {
    low >= END ||
    if program == [] then Alike(st0, st)
    else
      var rest := program[1..];
      match program[0]
      case Nop => Idle(rest, loc, low, st0, st, stack, init)
      case SetLoc(addr) => (low < addr ==> Alike(st0, st)) && Idle(rest, addr, if low < addr then addr else low, st0, st, stack, init)
      case Advance(delta) =>
        (low < loc + delta ==> Alike(st0, st)) && Idle(rest, loc + delta, if low < loc + delta then loc + delta else low, st0, st, stack, init)
      case Remember => Idle(rest, loc, low, st0, st, stack + [st], init)
      case RestoreState => stack != [] && Idle(rest, loc, low, st0, stack[|stack| - 1], stack[..|stack| - 1], init)
      case Unknown => false
      case i => Execute(i, st, init).Some? && Idle(rest, loc, low, st0, Execute(i, st, init).value, stack, init)
  }

  ghost predicate Serves(program: seq<Instr>, loc: nat, low: nat, st0: State, st: State, stack: seq<State>, init: State) {
    forall pc: u32 | low <= pc :: RuleAt(program, loc, st, stack, init, pc).Some? && Alike(st0, RuleAt(program, loc, st, stack, init, pc).value)
  }

  /** `Serves` where execution moves to location `next`. */
  lemma ServesMove(program: seq<Instr>, loc: nat, next: nat, low: nat, st0: State, st: State, stack: seq<State>, init: State)
    requires program != [] && low < END
    requires forall pc: u32 ::
      RuleAt(program, loc, st, stack, init, pc) == if next > pc then Some(st) else RuleAt(program[1..], next, st, stack, init, pc)
    ensures Serves(program, loc, low, st0, st, stack, init) <==>
      (low < next ==> Alike(st0, st)) && Serves(program[1..], next, if low < next then next else low, st0, st, stack, init)
  {
    hide RuleAt, Alike;
    var low' := if low < next then next else low;
    if Serves(program, loc, low, st0, st, stack, init) {
      if low < next { assert RuleAt(program, loc, st, stack, init, low) == Some(st); }
      forall pc: u32 | low' <= pc
        ensures RuleAt(program[1..], next, st, stack, init, pc).Some? && Alike(st0, RuleAt(program[1..], next, st, stack, init, pc).value)
      {
        assert RuleAt(program, loc, st, stack, init, pc) == RuleAt(program[1..], next, st, stack, init, pc);
      }
    }
  }

  lemma ServesSame(program: seq<Instr>, program': seq<Instr>, loc: nat, low: nat, st0: State, st: State, st': State,
                   stack: seq<State>, stack': seq<State>, init: State)
    requires forall pc: u32 :: RuleAt(program, loc, st, stack, init, pc) == RuleAt(program', loc, st', stack', init, pc)
    ensures Serves(program, loc, low, st0, st, stack, init) <==> Serves(program', loc, low, st0, st', stack', init)
  {
    hide RuleAt, Alike;
  }

  lemma {:induction false} IdleExact(program: seq<Instr>, loc: nat, low: nat, st0: State, st: State, stack: seq<State>, init: State)
    ensures Idle(program, loc, low, st0, st, stack, init) <==> Serves(program, loc, low, st0, st, stack, init)
    decreases |program|
  {
    hide Alike, Execute;
    if low < END {
      if program == [] {
        assert forall pc: u32 :: RuleAt(program, loc, st, stack, init, pc) == Some(st);
        var pc: u32 := low;
        assert RuleAt(program, loc, st, stack, init, pc) == Some(st);
      } else {
        var i, rest := program[0], program[1..];
        if i.Nop? {
          ServesSame(program, rest, loc, low, st0, st, st, stack, stack, init);
          IdleExact(rest, loc, low, st0, st, stack, init);
        } else if i.SetLoc? || i.Advance? {
          var to := if i.SetLoc? then i.addr else loc + i.delta;
          ServesMove(program, loc, to, low, st0, st, stack, init);
          IdleExact(rest, to, if low < to then to else low, st0, st, stack, init);
        } else if i.Remember? {
          ServesSame(program, rest, loc, low, st0, st, st, stack, stack + [st], init);
          IdleExact(rest, loc, low, st0, st, stack + [st], init);
        } else if i.RestoreState? {
          if stack == [] {
            var pc: u32 := low;
            assert RuleAt(program, loc, st, stack, init, pc) == None;
          } else {
            var top, below := stack[|stack| - 1], stack[..|stack| - 1];
            ServesSame(program, rest, loc, low, st0, st, top, stack, below, init);
            IdleExact(rest, loc, low, st0, top, below, init);
          }
        } else if i.Unknown? || Execute(i, st, init).None? {
          NotValid(i, program, loc, st, stack, init, low);
        } else {
          var next := Execute(i, st, init).value;
          ServesSame(program, rest, loc, low, st0, st, next, stack, stack, init);
          IdleExact(rest, loc, low, st0, next, stack, init);
        }
      }
    }
  }

  lemma NotValid(i: Instr, program: seq<Instr>, loc: nat, st: State, stack: seq<State>, init: State, pc: u32)
    requires program != [] && program[0] == i && (i.Unknown? || (Plain(i) && Execute(i, st, init).None?))
    ensures RuleAt(program, loc, st, stack, init, pc) == None
  {
  }

  /** The rows answer rightly from `loc` on. */
  ghost predicate AllAnswered(rows: seq<Row>, program: seq<Instr>, loc: u32, st: State, stack: seq<State>, init: State) {
    forall pc: u32 | loc <= pc :: Answers(rows, pc, RuleAt(program, loc, st, stack, init, pc))
  }

  /** Where the parser ends early, its last row answers for all addresses behind exactly if the rest of the program is idle. */
  lemma EarlyEndExact(program: seq<Instr>, loc: u32, r: Regs, saved: Regs, st: State, stack: seq<State>, init: State)
    requires Stands(r, st) && program != [] && (program[0].Nop? || program[0].SetLoc?)
    ensures AllAnswered(Emitted(program, loc, r, saved), program, loc, st, stack, init) <==> Idle(program, loc, loc, st, st, stack, init)
  {
    hide Answers, Emitted, RuleAt, Idle, Stands, Alike;
    IdleExact(program, loc, loc, st, st, stack, init);
    var rows := Emitted(program, loc, r, saved);
    if AllAnswered(rows, program, loc, st, stack, init) {
      forall pc: u32 | loc <= pc
        ensures RuleAt(program, loc, st, stack, init, pc).Some? && Alike(st, RuleAt(program, loc, st, stack, init, pc).value)
      {
        assert Answers(rows, pc, RuleAt(program, loc, st, stack, init, pc));
        EarlyEndAt(program, loc, r, saved, st, RuleAt(program, loc, st, stack, init, pc), pc);
      }
    }
    if Serves(program, loc, loc, st, st, stack, init) {
      forall pc: u32 | loc <= pc ensures Answers(rows, pc, RuleAt(program, loc, st, stack, init, pc)) {
        EarlyEndAt(program, loc, r, saved, st, RuleAt(program, loc, st, stack, init, pc), pc);
      }
    }
  }

  lemma EarlyEndAt(program: seq<Instr>, loc: u32, r: Regs, saved: Regs, st: State, rules: Option<State>, pc: u32)
    requires Stands(r, st) && program != [] && (program[0].Nop? || program[0].SetLoc?) && loc <= pc
    ensures Answers(Emitted(program, loc, r, saved), pc, rules) <==> rules.Some? && Alike(st, rules.value)
  {
    hide Emitted, Stands, Lookup, Alike, Agrees, RuleOf;
    FirstRows(program, 0, loc, r, saved);
    assert program[0..] == program;
    LookupSingle(Row(loc, RuleOf(r)), pc);
    if rules.Some? { AlikeExact(r, st, rules.value); }
  }

  /** The rows' answer at `pc` says what the rules say. */
  ghost predicate Answers(rows: seq<Row>, pc: u32, rules: Option<State>) {
    Lookup(rows, pc).Some? && rules.Some? && Agrees(Lookup(rows, pc).value, rules.value)
  }

  // ------------------------------------------------------------------ whole programs

  /**
   Every instruction is known where it stands; a restore directly follows, among saves and restores, a save (`open`);
   and where the parser ends early, the rest is idle.
   */
  ghost predicate Handled(program: seq<Instr>, loc: nat, st: State, stack: seq<State>, init: State, open: bool)
    decreases |program|
  {
    program == [] ||
    var rest := program[1..];
    match program[0]
    case Nop => Idle(program, loc, loc, st, st, stack, init)
    case SetLoc(_) => Idle(program, loc, loc, st, st, stack, init)
    case Advance(delta) => Handled(rest, loc + delta, st, stack, init, open)
    case Remember => Handled(rest, loc, st, stack + [st], init, true)
    case RestoreState => open && stack != [] && Handled(rest, loc, stack[|stack| - 1], stack[..|stack| - 1], init, false)
    case Unknown => false
    case i => Execute(i, st, init).Some? && Known(i, st, init) && Handled(rest, loc, Execute(i, st, init).value, stack, init, open)
  }

  ghost predicate SavedStands(saved: Regs, stack: seq<State>, open: bool) { open ==> stack != [] && Stands(saved, stack[|stack| - 1]) }

  /** A program that advances: either its own row answers, or one of those behind. */
  lemma RowAtAdvance(program: seq<Instr>, loc: u32, delta: nat, r: Regs, saved: Regs, st: State, pc: u32)
    requires program != [] && program[0] == Advance(delta) && loc + Span(program) < END && loc <= pc && Stands(r, st)
    ensures loc + delta < END && loc + delta + Span(program[1..]) < END
    ensures loc + delta > pc ==> Answers(Emitted(program, loc, r, saved), pc, Some(st))
    ensures loc + delta <= pc && Lookup(Emitted(program[1..], loc + delta, r, saved), pc).Some? ==>
      Lookup(Emitted(program, loc, r, saved), pc) == Lookup(Emitted(program[1..], loc + delta, r, saved), pc)
  {
    hide Emitted, Lookup, Stands, Agrees;
    var rows := Emitted(program[1..], loc + delta, r, saved);
    FirstRows(program, 0, loc, r, saved);
    assert program[0..] == program;
    LookupAppend([Row(loc, RuleOf(r))], rows, pc);
    LookupSingle(Row(loc, RuleOf(r)), pc);
    StandsAgrees(r, st);
    if loc + delta > pc {
      EmittedWithin(program[1..], loc + delta, r, saved);
      LookupAbove(rows, pc);
    }
  }

  /** The rows of a handled program say at every address what the standard's rules for that address say. */
  lemma {:induction false} RowsGiveRule(program: seq<Instr>, loc: u32, r: Regs, saved: Regs, st: State, stack: seq<State>, init: State, open: bool, pc: u32)
    requires Usual(init) && Stands(r, st) && SavedStands(saved, stack, open) && Handled(program, loc, st, stack, init, open)
    requires loc + Span(program) < END && loc <= pc
    ensures Answers(Emitted(program, loc, r, saved), pc, RuleAt(program, loc, st, stack, init, pc))
    decreases |program|
  {
    hide Executed, Execute, Known, Stands, Emitted, Lookup, Agrees, Idle;
    if program == [] {
      LastRow(loc, r, saved);
      LookupSingle(Row(loc, RuleOf(r)), pc);
      StandsAgrees(r, st);
    } else {
      FirstRows(program, 0, loc, r, saved);
      assert program[0..] == program;
      var rest := program[1..];
      match program[0]
      case Nop => EarlyEndExact(program, loc, r, saved, st, stack, init);
      case SetLoc(_) => EarlyEndExact(program, loc, r, saved, st, stack, init);
      case Advance(delta) =>
        RowAtAdvance(program, loc, delta, r, saved, st, pc);
        if loc + delta <= pc { RowsGiveRule(rest, loc + delta, r, saved, st, stack, init, open, pc); }
      case Remember => RowsGiveRule(rest, loc, r, r, st, stack + [st], init, true, pc);
      case Unknown =>
      case RestoreState => RowsGiveRule(rest, loc, saved, saved, stack[|stack| - 1], stack[..|stack| - 1], init, false, pc);
      case i =>
        StepExact(i, r, st, init);
        RowsGiveRule(rest, loc, Executed(i, r), saved, Execute(i, st, init).value, stack, init, open, pc);
    }
  }

  lemma UsualStands(init: State)
    requires Usual(init)
    ensures Stands(InitialRegs(), init)
  {
    hide LinkageTable, Relative;
  }

  /** The parser starts with the right row exactly if the common information entry has the usual rules. */
  lemma UsualExact(init: State)
    ensures Agrees(RuleOf(InitialRegs()), init) <==> Usual(init)
  {
    hide LinkageTable, Relative, Packed;
    PackedIs(REG_SP, 8);
  }
}

/** Call frame information as section 6.4 of the DWARF 5 standard defines it: a rule for every register at every address. */
module CallFrameStandard {
  import opened Bytes
  import opened CfaExpressions

  /** Call frame instructions; offsets and deltas are already multiplied by the alignment factors. */
  datatype Instr =
    | Nop
    | SetLoc(addr: u32)
    | Advance(delta: nat)
    | Offset(reg: u32, off: int)
    | Restore(reg: u32)
    | RestoreExtended(reg: u32)
    | Undefined(reg: u32)
    | SameValue(reg: u32)
    | Register(reg: u32, other: u32)
    | Remember
    | RestoreState
    | DefCfa(reg: u32, off: int)
    | DefCfaRegister(reg: u32)
    | DefCfaOffset(off: int)
    | DefCfaExpression(expr: Expr)
    | Expression(reg: u32, expr: Expr)
    | ValOffset(reg: u32, off: int)
    | ValExpression(reg: u32, expr: Expr)
    | ArgsSize
    | Unknown

  /** Section 6.4.1: where the previous value of a register is. */
  datatype RegRule =
    | UndefinedRule
    | SameRule
    | OffsetRule(off: int)
    | ValOffsetRule(off: int)
    | RegisterRule(reg: u32)
    | ExpressionRule(expr: Expr)
    | ValExpressionRule(expr: Expr)

  datatype CfaRule = NoCfa | CfaRegister(reg: u32, off: int) | CfaExpression(expr: Expr)

  /** A row of the table: the CFA rule and a rule for every register. */
  datatype State = State(cfa: CfaRule, regs: u32 -> RegRule)

  function With(st: State, reg: u32, rule: RegRule): State { st.(regs := (r: u32) => if r == reg then rule else st.regs(r)) }

  /** Neither advances nor touches saved states. */
  predicate Plain(i: Instr) { !i.Nop? && !i.SetLoc? && !i.Advance? && !i.Remember? && !i.RestoreState? && !i.Unknown? }

  /** Sections 6.4.2.2 and 6.4.2.3. `init` has the rules of the initial instructions; `None` where the instruction is not valid. */
  function Execute(i: Instr, st: State, init: State): Option<State> {
    match i
    case Offset(reg, off) => Some(With(st, reg, OffsetRule(off)))
    case Restore(reg) => Some(With(st, reg, init.regs(reg)))
    case RestoreExtended(reg) => Some(With(st, reg, init.regs(reg)))
    case Undefined(reg) => Some(With(st, reg, UndefinedRule))
    case SameValue(reg) => Some(With(st, reg, SameRule))
    case Register(reg, other) => Some(With(st, reg, RegisterRule(other)))
    case DefCfa(reg, off) => Some(st.(cfa := CfaRegister(reg, off)))
    case DefCfaRegister(reg) => if st.cfa.CfaRegister? then Some(st.(cfa := CfaRegister(reg, st.cfa.off))) else None
    case DefCfaOffset(off) => if st.cfa.CfaRegister? then Some(st.(cfa := CfaRegister(st.cfa.reg, off))) else None
    case DefCfaExpression(expr) => Some(st.(cfa := CfaExpression(expr)))
    case Expression(reg, expr) => Some(With(st, reg, ExpressionRule(expr)))
    case ValOffset(reg, off) => Some(With(st, reg, ValOffsetRule(off)))
    case ValExpression(reg, expr) => Some(With(st, reg, ValExpressionRule(expr)))
    case ArgsSize => Some(st)
    case _ => None
  }

  /** Section 6.4.3: instructions are processed until one moves the location beyond `pc`. Saved states form a stack. */
  function RuleAt(program: seq<Instr>, loc: nat, st: State, stack: seq<State>, init: State, pc: u32): Option<State>
    decreases |program|
  {
    if program == [] then Some(st)
    else
      var rest := program[1..];
      match program[0]
      case Nop => RuleAt(rest, loc, st, stack, init, pc)
      case SetLoc(addr) => if addr > pc then Some(st) else RuleAt(rest, addr, st, stack, init, pc)
      case Advance(delta) => if loc + delta > pc then Some(st) else RuleAt(rest, loc + delta, st, stack, init, pc)
      case Remember => RuleAt(rest, loc, st, stack + [st], init, pc)
      case RestoreState =>
        if stack == [] then None else RuleAt(rest, loc, stack[|stack| - 1], stack[..|stack| - 1], init, pc)
      case i =>
        match Execute(i, st, init)
        case None => None
        case Some(st') => RuleAt(rest, loc, st', stack, init, pc)
  }

  // ------------------------------------------------------------------ common information entries

  /** Instructions as they are stored: some operands are to be multiplied by an alignment factor. */
  datatype Cfi =
    | AdvanceBy(units: u32)
    | OffsetBy(reg: u32, n: int)
    | DefCfaBy(reg: u32, n: int)
    | DefCfaOffsetBy(n: int)
    | ValOffsetBy(reg: u32, n: int)
    | Unscaled(instr: Instr)

  datatype Factors = Factors(code: u32, data: int)

  function Scaled(c: Cfi, f: Factors): Instr {
    match c
    case AdvanceBy(units) => Advance(units * f.code)
    case OffsetBy(reg, n) => Offset(reg, n * f.data)
    case DefCfaBy(reg, n) => DefCfa(reg, n * f.data)
    case DefCfaOffsetBy(n) => DefCfaOffset(n * f.data)
    case ValOffsetBy(reg, n) => ValOffset(reg, n * f.data)
    case Unscaled(instr) => instr
  }

  function AllScaled(cs: seq<Cfi>, f: Factors): seq<Instr> { seq(|cs|, i requires 0 <= i < |cs| => Scaled(cs[i], f)) }

  /** A common information entry. */
  datatype Cie = Cie(factors: Factors, initial: seq<Cfi>)

  /** The rules of the initial instructions, from the defaults of the platform: there is nothing to restore yet. */
  function Initial(program: seq<Instr>, st: State): Option<State>
    decreases |program|
  {
    if program == [] then Some(st)
    else if program[0].Nop? then Initial(program[1..], st)
    else if program[0].Restore? || program[0].RestoreExtended? then None
    else
      match Execute(program[0], st, st)
      case None => None
      case Some(st') => Initial(program[1..], st')
  }

  function InitialState(cie: Cie, defaults: u32 -> RegRule): Option<State> { Initial(AllScaled(cie.initial, cie.factors), State(NoCfa, defaults)) }
}

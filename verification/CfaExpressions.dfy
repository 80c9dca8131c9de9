/**
 DWARF expressions in call frame rules, by the stack machine of section 2.5 of the DWARF 5 standard, and the subset
 that `DwarfParser` understands: the previous PC relative to the current one.
 */
module CfaExpressions {
  import opened Bytes

  const SP: u32 := 7
  const PC: u32 := 16

  /** `Const` stands for the operations with an operand (`DW_OP_const1u` to `DW_OP_consts`), `Lit` for `DW_OP_lit0` to `DW_OP_lit31`. */
  datatype Op = Breg(reg: u32, n: int) | Const(c: int) | Lit(c: int) | Plus | Minus | And | Ge | Shl | Other

  /** The operations of an expression and its length in bytes. */
  datatype Expr = Expr(length: u32, ops: seq<Op>)

  // ------------------------------------------------------------------ the standard

  /** 64-bit addresses. */
  function Word(x: int): u64 { x % 0x1_0000_0000_0000_0000 }

  /** Bit by bit. */
  function BitAnd(a: nat, b: nat): (r: nat)
    ensures r <= a
  {
    if a == 0 || b == 0 then 0 else a % 2 * (b % 2) + 2 * BitAnd(a / 2, b / 2)
  }

  function Power(k: nat): nat { if k == 0 then 1 else 2 * Power(k - 1) }

  /** Two operands: `a` was below `b`. Comparison is signed. */
  function Binary(op: Op, a: u64, b: u64): Option<u64> {
    match op
    case Plus => Some(Word(a + b))
    case Minus => Some(Word(a - b))
    case And => Some(BitAnd(a, b))
    case Ge => Some(if Signed(a) >= Signed(b) then 1 else 0)
    case Shl => Some(if b < 64 then Word(a * Power(b)) else 0)
    case _ => None
  }

  function Signed(x: u64): int { if x < 0x8000_0000_0000_0000 then x else x - 0x1_0000_0000_0000_0000 }

  /** The stack after the operations, its top at the end; `None` for operations outside this model. */
  function Eval(ops: seq<Op>, stack: seq<u64>, regs: u32 -> u64): Option<seq<u64>>
    decreases |ops|
  {
    if ops == [] then Some(stack)
    else
      match ops[0]
      case Breg(reg, n) => Eval(ops[1..], stack + [Word(regs(reg) + n)], regs)
      case Const(c) => Eval(ops[1..], stack + [Word(c)], regs)
      case Lit(c) => Eval(ops[1..], stack + [Word(c)], regs)
      case Other => None
      case op =>
        var n := |stack|;
        if n < 2 then None
        else
          match Binary(op, stack[n - 2], stack[n - 1])
          case None => None
          case Some(v) => Eval(ops[1..], stack[..n - 2] + [v], regs)
  }

  function Value(ops: seq<Op>, stack: seq<u64>, regs: u32 -> u64): Option<u64> {
    match Eval(ops, stack, regs)
    case None => None
    case Some(s) => if s == [] then None else Some(s[|s| - 1])
  }

  /** The previous PC is `x` behind the current one, in every frame: the CFA is on the stack when evaluation starts. */
  ghost predicate Relative(e: Expr, x: int) {
    forall regs: u32 -> u64, cfa: u64 :: Value(e.ops, [cfa], regs) == Some(Word(regs(PC) + x))
  }

  /** The CFA of a procedure linkage table: one slot, or two after the push at offset 11 of an entry. */
  ghost predicate LinkageTable(e: Expr) {
    forall regs: u32 -> u64 :: Value(e.ops, [], regs) == Some(Word(regs(SP) + (if regs(PC) % 16 >= 11 then 16 else 8)))
  }

  // ------------------------------------------------------------------ the parser

  function Int32(x: int): int { S32(U32(x)) }

  /** What `parseExpression` makes of the operations that are left. */
  function Parsed(ops: seq<Op>, off: int, tos: int): int
    decreases |ops|
  {
    if ops == [] then off
    else
      match ops[0]
      case Breg(reg, n) => if reg == PC then Parsed(ops[1..], Int32(n), tos) else 0
      case Const(c) => Parsed(ops[1..], off, Int32(c))
      case Minus => Parsed(ops[1..], Int32(off - tos), tos)
      case Plus => Parsed(ops[1..], Int32(off + tos), tos)
      case _ => 0
  }

  /** `parseExpression` on decoded operations. */
  method ParseExpression(e: Expr) returns (off: int)
    ensures off == Parsed(e.ops, 0, 0)
  {
    var tos := 0;
    off := 0;
    for i := 0 to |e.ops|
      invariant Parsed(e.ops[i..], off, tos) == Parsed(e.ops, 0, 0)
    {
      assert e.ops[i..][1..] == e.ops[i + 1..];
      match e.ops[i]
      case Breg(reg, n) =>
        if reg != PC { return 0; }
        off := Int32(n);
      case Const(c) => tos := Int32(c);
      case Minus => off := Int32(off - tos);
      case Plus => off := Int32(off + tos);
      case _ => return 0;
    }
  }

  /** The form compilers emit: constants added or subtracted one by one. */
  function Sums(cs: seq<int>): seq<Op> {
    if cs == [] then [] else [Const(Abs(cs[0]))] + ([if cs[0] < 0 then Minus else Plus] + Sums(cs[1..]))
  }

  function Abs(x: int): nat { if x < 0 then -x else x }

  function Total(cs: seq<int>): int { if cs == [] then 0 else cs[0] + Total(cs[1..]) }

  function Size(cs: seq<int>): nat { if cs == [] then 0 else Abs(cs[0]) + Size(cs[1..]) }

  lemma {:induction false} SumsParsed(cs: seq<int>, off: int, tos: int)
    requires Abs(off) + Size(cs) < 0x8000_0000
    ensures Parsed(Sums(cs), off, tos) == off + Total(cs)
    decreases |cs|
  {
    if cs != [] {
      var c, rest := cs[0], Sums(cs[1..]);
      var op := if c < 0 then Minus else Plus;
      assert Sums(cs)[0] == Const(Abs(c)) && Sums(cs)[1..] == [op] + rest && ([op] + rest)[1..] == rest;
      SumsParsed(cs[1..], off + c, Abs(c));
      Fits32(Abs(c));
      Fits32(off + c);
      hide Sums, Int32;
      assert Parsed([op] + rest, off, Abs(c)) == Parsed(rest, off + c, Abs(c));
    }
  }

  lemma Fits32(x: int)
    requires -0x8000_0000 <= x < 0x8000_0000
    ensures Int32(x) == x
  {
  }

  lemma {:induction false} SumsValue(cs: seq<int>, below: u64, w: u64, regs: u32 -> u64)
    ensures Eval(Sums(cs), [below, w], regs) == Some([below, Word(w + Total(cs))])
    decreases |cs|
  {
    if cs != [] {
      var c, rest := cs[0], Sums(cs[1..]);
      var op := if c < 0 then Minus else Plus;
      assert Sums(cs)[0] == Const(Abs(c)) && Sums(cs)[1..] == [op] + rest && ([op] + rest)[1..] == rest;
      AddWord(w, c);
      SumsValue(cs[1..], below, Word(w + c), regs);
      AddTwice(w, c, Total(cs[1..]));
      hide Word, Sums;
      assert [below, w] + [Word(Abs(c))] == [below, w, Word(Abs(c))];
      assert [below, w, Word(Abs(c))][..1] + [Word(w + c)] == [below, Word(w + c)];
      assert Eval([op] + rest, [below, w, Word(Abs(c))], regs) == Eval(rest, [below, Word(w + c)], regs);
    }
  }

  lemma AddWord(w: u64, c: int)
    ensures Binary(if c < 0 then Minus else Plus, w, Word(Abs(c))) == Some(Word(w + c))
  {
    if c < 0 { SubMod(w, -c); } else { AddMod(w, c); }
  }

  lemma AddMod(a: int, b: int)
    ensures Word(a + Word(b)) == Word(a + b)
  {
  }

  lemma SubMod(a: int, b: int)
    ensures Word(a - Word(b)) == Word(a - b)
  {
  }

  lemma AddTwice(w: int, c: int, d: int)
    ensures Word(Word(w + c) + d) == Word(w + c + d)
  {
    AddMod(d, w + c);
  }

  /** In that form the parser's number is the distance between the two PCs. */
  lemma SumsAreRelative(e: Expr, n: int, cs: seq<int>)
    requires e.ops == [Breg(PC, n)] + Sums(cs) && Abs(n) + Size(cs) < 0x8000_0000
    ensures Parsed(e.ops, 0, 0) == n + Total(cs) && Relative(e, Parsed(e.ops, 0, 0))
  {
    hide Sums, Total, Size, Parsed, Value, Word, Abs;
    PcParsed(e.ops, n, cs);
    forall regs: u32 -> u64, cfa: u64 ensures Value(e.ops, [cfa], regs) == Some(Word(regs(PC) + (n + Total(cs)))) {
      PcValue(e.ops, n, cs, cfa, regs);
    }
  }

  lemma PcParsed(ops: seq<Op>, n: int, cs: seq<int>)
    requires ops == [Breg(PC, n)] + Sums(cs) && Abs(n) + Size(cs) < 0x8000_0000
    ensures Parsed(ops, 0, 0) == n + Total(cs)
  {
    hide Sums, Total, Size, Int32;
    assert ops[0] == Breg(PC, n) && ops[1..] == Sums(cs);
    SumsParsed(cs, n, 0);
    Fits32(n);
  }

  lemma PcValue(ops: seq<Op>, n: int, cs: seq<int>, cfa: u64, regs: u32 -> u64)
    requires ops == [Breg(PC, n)] + Sums(cs)
    ensures Value(ops, [cfa], regs) == Some(Word(regs(PC) + (n + Total(cs))))
  {
    hide Sums, Total, Word;
    assert ops[0] == Breg(PC, n) && ops[1..] == Sums(cs);
    SumsValue(cs, cfa, Word(regs(PC) + n), regs);
    AddTwice(regs(PC), n, Total(cs));
    assert [cfa] + [Word(regs(PC) + n)] == [cfa, Word(regs(PC) + n)];
  }

  /** An expression has one distance, up to the width of addresses. */
  lemma OneDistance(e: Expr, x: int, y: int)
    requires Relative(e, x) && Relative(e, y)
    ensures Word(x) == Word(y)
  {
    var zero := (_: u32) => 0 as u64;
    assert Value(e.ops, [0], zero) == Some(Word(zero(PC) + x));
    assert Value(e.ops, [0], zero) == Some(Word(zero(PC) + y));
  }

  /** The eleven bytes that linkers write for procedure linkage tables. */
  function LinkageTableExpr(): Expr {
    Expr(11, [Breg(SP, 8), Breg(PC, 0), Lit(15), And, Lit(11), Ge, Lit(3), Shl, Plus])
  }

  lemma LowBits(a: u64)
    ensures BitAnd(a, 15) == a % 16
  {
    assert BitAnd(a / 2 / 2 / 2, 1) == a / 2 / 2 / 2 % 2;
    assert BitAnd(a / 2 / 2, 3) == a / 2 / 2 % 2 + 2 * BitAnd(a / 2 / 2 / 2, 1);
    assert BitAnd(a / 2, 7) == a / 2 % 2 + 2 * BitAnd(a / 2 / 2, 3);
  }

  /** One operation with two operands on top of a stack. */
  lemma EvalBinary(op: Op, rest: seq<Op>, below: seq<u64>, a: u64, b: u64, regs: u32 -> u64)
    requires Binary(op, a, b).Some?
    ensures Eval([op] + rest, below + [a, b], regs) == Eval(rest, below + [Binary(op, a, b).value], regs)
  {
    assert ([op] + rest)[1..] == rest;
    assert (below + [a, b])[..|below|] == below;
    hide Word, Power;
  }

  lemma EvalPush(op: Op, rest: seq<Op>, stack: seq<u64>, v: u64, regs: u32 -> u64)
    requires (op.Breg? && v == Word(regs(op.reg) + op.n)) || (op.Lit? && v == op.c)
    ensures Eval([op] + rest, stack, regs) == Eval(rest, stack + [v], regs)
  {
    assert ([op] + rest)[1..] == rest;
  }

  /** The steps of the linkage table's expression: bit four of the offset decides between one slot and two. */
  lemma LinkageSteps(sp: u64, pc: u64)
    ensures var bit: u64 := if pc % 16 >= 11 then 1 else 0;
      && Binary(And, pc, 15) == Some(pc % 16) && Binary(Ge, pc % 16, 11) == Some(bit)
      && Binary(Shl, bit, 3) == Some(8 * bit) && Binary(Plus, sp, 8 * bit) == Some(Word(sp + 8 * bit))
  {
    hide Power;
    LowBits(pc);
    PowerOfThree();
  }

  lemma PowerOfThree()
    ensures Power(3) == 8
  {
    assert Power(1) == 2 && Power(2) == 4;
  }

  function Shift(): seq<Op> { [Lit(3)] + ([Shl] + ([Plus] + [])) }

  function Compare(): seq<Op> { [Lit(15)] + ([And] + ([Lit(11)] + ([Ge] + Shift()))) }

  lemma ShiftValue(sp: u64, bit: u64, regs: u32 -> u64)
    requires Binary(Shl, bit, 3) == Some(8 * bit) && Binary(Plus, sp, 8 * bit) == Some(Word(sp + 8 * bit)) && bit <= 1
    ensures Eval(Shift(), [sp, bit], regs) == Some([Word(sp + 8 * bit)])
  {
    hide Eval, Binary, Word;
    EvalPush(Lit(3), [Shl] + ([Plus] + []), [sp, bit], 3, regs);
    assert [sp, bit] + [3] == [sp] + [bit, 3];
    EvalBinary(Shl, [Plus] + [], [sp], bit, 3, regs);
    assert [sp] + [8 * bit] == [] + [sp, 8 * bit];
    EvalBinary(Plus, [], [], sp, 8 * bit, regs);
    assert [] + [Word(sp + 8 * bit)] == [Word(sp + 8 * bit)];
    EvalNothing([Word(sp + 8 * bit)], regs);
  }

  lemma CompareValue(sp: u64, pc: u64, bit: u64, regs: u32 -> u64)
    requires Binary(And, pc, 15) == Some(pc % 16) && Binary(Ge, pc % 16, 11) == Some(bit)
    ensures Eval(Compare(), [sp, pc], regs) == Eval(Shift(), [sp, bit], regs)
  {
    hide Eval, Binary, Shift;
    EvalPush(Lit(15), [And] + ([Lit(11)] + ([Ge] + Shift())), [sp, pc], 15, regs);
    assert [sp, pc] + [15] == [sp] + [pc, 15];
    EvalBinary(And, [Lit(11)] + ([Ge] + Shift()), [sp], pc, 15, regs);
    EvalPush(Lit(11), [Ge] + Shift(), [sp] + [pc % 16], 11, regs);
    assert [sp] + [pc % 16] + [11] == [sp] + [pc % 16, 11];
    EvalBinary(Ge, Shift(), [sp], pc % 16, 11, regs);
    assert [sp] + [bit] == [sp, bit];
  }

  lemma LinkageParts(pc: u64)
    ensures LinkageTableExpr().ops == [Breg(SP, 8)] + ([Breg(PC, 0)] + Compare()) && pc == Word(pc + 0)
  {
  }

  lemma LinkageTableValue(regs: u32 -> u64)
    ensures Value(LinkageTableExpr().ops, [], regs) == Some(Word(regs(SP) + (if regs(PC) % 16 >= 11 then 16 else 8)))
  {
    hide Eval, Binary, Shift, Compare, LinkageTableExpr, Word;
    var sp, pc := Word(regs(SP) + 8), regs(PC);
    var bit: u64 := if pc % 16 >= 11 then 1 else 0;
    LinkageParts(pc);
    LinkageSteps(sp, pc);
    EvalPush(Breg(SP, 8), [Breg(PC, 0)] + Compare(), [], sp, regs);
    EvalPush(Breg(PC, 0), Compare(), [] + [sp], pc, regs);
    assert [] + [sp] + [pc] == [sp, pc];
    CompareValue(sp, pc, bit, regs);
    ShiftValue(sp, bit, regs);
    AddTwice(regs(SP), 8, 8 * bit);
  }

  lemma EvalNothing(stack: seq<u64>, regs: u32 -> u64)
    ensures Eval([], stack, regs) == Some(stack)
  {
  }

  /** It is the rule that the stack walker applies to rows of the linkage table. */
  lemma LinkageTableExact()
    ensures LinkageTable(LinkageTableExpr())
  {
    forall regs: u32 -> u64
      ensures Value(LinkageTableExpr().ops, [], regs) == Some(Word(regs(SP) + (if regs(PC) % 16 >= 11 then 16 else 8)))
    {
      LinkageTableValue(regs);
    }
    hide Value, Word, LinkageTableExpr;
  }
}

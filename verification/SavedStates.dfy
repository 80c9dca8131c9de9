/** Saved states: the parser keeps one where the standard keeps a stack. Exactly which uses of saves and restores it gets right. */
module SavedStates {
  import opened Bytes
  import opened CfaExpressions
  import opened CallFrameStandard
  import opened FrameTable
  import opened CallFrames
  import opened CallFrameAgreement

  /** The saves (`true`) and restores of a program, up to where the parser ends. */
  function Saves(program: seq<Instr>): seq<bool>
    decreases |program|
  {
    if program == [] || program[0].Nop? || program[0].SetLoc? then []
    else if program[0].Remember? then [true] + Saves(program[1..])
    else if program[0].RestoreState? then [false] + Saves(program[1..])
    else Saves(program[1..])
  }

  /** Every restore directly follows a save. */
  predicate OneAtATime(w: seq<bool>, open: bool) { w == [] || ((w[0] || open) && OneAtATime(w[1..], w[0])) }

  /** There is always a state to restore. */
  predicate Balanced(w: seq<bool>, depth: nat) {
    w == [] || (if w[0] then Balanced(w[1..], depth + 1) else depth > 0 && Balanced(w[1..], depth - 1))
  }

  /** `Handled` without the condition on saved states. */
  ghost predicate Apart(program: seq<Instr>, loc: nat, st: State, stack: seq<State>, init: State)
    decreases |program|
  {
    program == [] ||
    var rest := program[1..];
    match program[0]
    case Nop => Idle(program, loc, loc, st, st, stack, init)
    case SetLoc(_) => Idle(program, loc, loc, st, st, stack, init)
    case Advance(delta) => Apart(rest, loc + delta, st, stack, init)
    case Remember => Apart(rest, loc, st, stack + [st], init)
    case RestoreState => stack != [] && Apart(rest, loc, stack[|stack| - 1], stack[..|stack| - 1], init)
    case Unknown => false
    case i => Execute(i, st, init).Some? && Known(i, st, init) && Apart(rest, loc, Execute(i, st, init).value, stack, init)
  }

  lemma {:induction false} ApartHandled(program: seq<Instr>, loc: nat, st: State, stack: seq<State>, init: State, open: bool)
    requires Apart(program, loc, st, stack, init) && OneAtATime(Saves(program), open)
    ensures Handled(program, loc, st, stack, init, open)
    decreases |program|
  {
    hide Idle, Execute, Known;
    if program != [] {
      var rest := program[1..];
      match program[0]
      case Nop =>
      case SetLoc(_) =>
      case Advance(delta) => ApartHandled(rest, loc + delta, st, stack, init, open);
      case Remember =>
        assert ([true] + Saves(rest))[1..] == Saves(rest);
        ApartHandled(rest, loc, st, stack + [st], init, true);
      case RestoreState =>
        assert ([false] + Saves(rest))[1..] == Saves(rest);
        ApartHandled(rest, loc, stack[|stack| - 1], stack[..|stack| - 1], init, false);
      case Unknown =>
      case i => ApartHandled(rest, loc, Execute(i, st, init).value, stack, init, open);
    }
  }

  // ------------------------------------------------------------------ a program for every bad pattern

  function Ops(w: seq<bool>): seq<Instr> { if w == [] then [] else [if w[0] then Remember else RestoreState] + Ops(w[1..]) }

  function Depth(w: seq<bool>, depth: nat): nat { if w == [] then depth else Depth(w[1..], if w[0] then depth + 1 else if depth > 0 then depth - 1 else 0) }

  function Copies(st: State, n: nat): seq<State> { seq(n, _ => st) }

  lemma CopiesParts(st: State, n: nat)
    ensures Copies(st, n) + [st] == Copies(st, n + 1) && |Copies(st, n)| == n
    ensures n > 0 ==> Copies(st, n) != [] && Copies(st, n)[n - 1] == st && Copies(st, n)[..n - 1] == Copies(st, n - 1)
  {
  }

  lemma {:induction false} FirstOp(w: seq<bool>, rest: seq<Instr>)
    requires w != []
    ensures Ops(w) + rest != [] && (Ops(w) + rest)[0] == (if w[0] then Remember else RestoreState) && (Ops(w) + rest)[1..] == Ops(w[1..]) + rest
  {
    var op := if w[0] then Remember else RestoreState;
    assert Ops(w) + rest == [op] + (Ops(w[1..]) + rest);
    hide Ops;
  }

  /** A save or restore at the start of a program, with copies of one state on the stack. */
  lemma OneOp(p: seq<Instr>, save: bool, loc: u32, st: State, depth: nat, init: State, r: Regs, saved: Regs, pc: u32)
    requires p != [] && p[0] == (if save then Remember else RestoreState) && (save || (depth > 0 && saved == r))
    ensures var depth' := if save then depth + 1 else depth - 1;
      && RuleAt(p, loc, st, Copies(st, depth), init, pc) == RuleAt(p[1..], loc, st, Copies(st, depth'), init, pc)
      && (Apart(p, loc, st, Copies(st, depth), init) <==> Apart(p[1..], loc, st, Copies(st, depth'), init))
    ensures Emitted(p, loc, r, saved) == Emitted(p[1..], loc, r, r) && Saves(p) == [save] + Saves(p[1..]) && Span(p) == Span(p[1..])
  {
    CopiesParts(st, depth);
    hide Idle, Execute, Known, Executed, Copies, RuleOf;
  }

  /** Saving and restoring one and the same state changes nothing. */
  lemma {:induction false} SameStateSaved(w: seq<bool>, rest: seq<Instr>, loc: u32, st: State, depth: nat, init: State, r: Regs, saved: Regs, pc: u32)
    requires Balanced(w, depth) && (depth > 0 ==> saved == r)
    ensures RuleAt(Ops(w) + rest, loc, st, Copies(st, depth), init, pc) == RuleAt(rest, loc, st, Copies(st, Depth(w, depth)), init, pc)
    ensures Apart(Ops(w) + rest, loc, st, Copies(st, depth), init) <==> Apart(rest, loc, st, Copies(st, Depth(w, depth)), init)
    ensures Emitted(Ops(w) + rest, loc, r, saved) == Emitted(rest, loc, r, if w == [] then saved else r)
    ensures Saves(Ops(w) + rest) == w + Saves(rest)
    ensures Span(Ops(w) + rest) == Span(rest)
    decreases |w|
  {
    hide RuleAt, Apart, Emitted, Saves, Span, Copies;
    if w == [] {
      assert Ops(w) + rest == rest;
    } else {
      FirstOp(w, rest);
      hide Ops;
      OneOp(Ops(w) + rest, w[0], loc, st, depth, init, r, saved, pc);
      SameStateSaved(w[1..], rest, loc, st, if w[0] then depth + 1 else depth - 1, init, r, r, pc);
      assert w == [w[0]] + w[1..];
    }
  }

  /** Saves `y`, restores it, and restores once more: what was saved before is `x`. */
  function Bad(y: int, v: seq<bool>): seq<Instr> {
    [Offset(REG_PC, y)] + ([Remember] + ([RestoreState] + ([RestoreState] + ([Advance(1)] + Ops(v)))))
  }

  function Program(x: int, y: int, u: seq<bool>, v: seq<bool>): seq<Instr> { [Offset(REG_PC, x)] + (Ops(u) + Bad(y, v)) }

  lemma Cons(i: Instr, rest: seq<Instr>)
    ensures ([i] + rest)[0] == i && ([i] + rest)[1..] == rest
  {
  }

  lemma BadParts(y: int, v: seq<bool>)
    ensures var p := Bad(y, v);
      && |p| >= 5 && p[0] == Offset(REG_PC, y) && p[1..][0] == Remember && p[1..][1..][0] == RestoreState
      && p[1..][1..][1..][0] == RestoreState && p[1..][1..][1..][1..][0] == Advance(1) && p[1..][1..][1..][1..][1..] == Ops(v)
  {
    hide Ops;
    var p4 := [Advance(1)] + Ops(v);
    var p3 := [RestoreState] + p4;
    var p2 := [RestoreState] + p3;
    var p1 := [Remember] + p2;
    Cons(Offset(REG_PC, y), p1);
    Cons(Remember, p2);
    Cons(RestoreState, p3);
    Cons(RestoreState, p4);
    Cons(Advance(1), Ops(v));
  }

  /** One instruction in either reading. */
  lemma Steps(p: seq<Instr>, loc: nat, st: State, stack: seq<State>, init: State, r: Regs, saved: Regs, pc: u32)
    requires p != [] && (p[0].Remember? || (p[0].RestoreState? && stack != []) || (Plain(p[0]) && Execute(p[0], st, init).Some? && Known(p[0], st, init)))
    ensures var top := if p[0].RestoreState? then stack[|stack| - 1] else if p[0].Remember? then st else Execute(p[0], st, init).value;
      var stack' := if p[0].RestoreState? then stack[..|stack| - 1] else if p[0].Remember? then stack + [st] else stack;
      && RuleAt(p, loc, st, stack, init, pc) == RuleAt(p[1..], loc, top, stack', init, pc)
      && (Apart(p, loc, st, stack, init) <==> Apart(p[1..], loc, top, stack', init))
  {
    hide Execute, Known, Idle;
  }

  /** Likewise for the rows. */
  lemma RowSteps(p: seq<Instr>, loc: u32, r: Regs, saved: Regs)
    requires p != [] && (p[0].Remember? || p[0].RestoreState? || Plain(p[0]))
    ensures Emitted(p, loc, r, saved) ==
      (if p[0].Remember? then Emitted(p[1..], loc, r, r) else if p[0].RestoreState? then Emitted(p[1..], loc, saved, saved)
       else Emitted(p[1..], loc, Executed(p[0], r), saved))
    ensures Saves(p) == (if p[0].Remember? then [true] else if p[0].RestoreState? then [false] else []) + Saves(p[1..]) && Span(p) == Span(p[1..])
  {
    hide Executed, RuleOf;
  }

  lemma AdvanceSteps(p: seq<Instr>, st: State, stack: seq<State>, init: State, r: Regs, saved: Regs)
    requires p != [] && p[0] == Advance(1)
    ensures RuleAt(p, 0, st, stack, init, 0) == Some(st) && (Apart(p, 0, st, stack, init) <==> Apart(p[1..], 1, st, stack, init))
    ensures Emitted(p, 0, r, saved) == [Row(0, RuleOf(r))] + Emitted(p[1..], 1, r, saved) && Saves(p) == Saves(p[1..]) && Span(p) == 1 + Span(p[1..])
  {
    hide Execute, Known, Idle, RuleOf, Executed;
  }

  /** The rules after the second restore are `st`; apart from its saved states, the program is one that the parser handles. */
  lemma BadRules(y: int, v: seq<bool>, st: State, depth: nat, init: State, r: Regs)
    requires depth > 0 && Balanced(v, depth - 1) && -0x8000_0000 <= y < 0x8000_0000 && st.regs(REG_PC).OffsetRule?
    ensures RuleAt(Bad(y, v), 0, st, Copies(st, depth), init, 0) == Some(st) && Apart(Bad(y, v), 0, st, Copies(st, depth), init)
  {
    hide *;
    var p0, st', stack := Bad(y, v), With(st, REG_PC, OffsetRule(y)), Copies(st, depth);
    BadParts(y, v);
    var p1, p2 := p0[1..], p0[1..][1..];
    var p3, p4 := p2[1..], p2[1..][1..];
    CopiesParts(st, depth);
    BadStep(p0, y, r, st, init);
    OpsApart(v, st, depth - 1, init);
    AdvanceSteps(p4, st, stack[..depth - 1], init, r, r);
    Steps(p3, 0, st', stack, init, r, r, 0);
    assert (stack + [st'])[..depth] == stack;
    Steps(p2, 0, st', stack + [st'], init, r, r, 0);
    Steps(p1, 0, st', stack, init, r, r, 0);
    Steps(p0, 0, st, stack, init, r, r, 0);
  }

  lemma OpsApart(v: seq<bool>, st: State, depth: nat, init: State)
    requires Balanced(v, depth)
    ensures Apart(Ops(v), 1, st, Copies(st, depth), init) && Saves(Ops(v)) == v && Span(Ops(v)) == 0
  {
    assert Ops(v) + [] == Ops(v) && v + [] == v;
    SameStateSaved(v, [], 1, st, depth, init, InitialRegs(), InitialRegs(), 0);
    assert Apart([], 1, st, Copies(st, Depth(v, depth)), init);
    hide Ops, Copies, Depth;
  }

  /** The parser's row still has `y`. */
  lemma BadRows(y: int, v: seq<bool>, r: Regs, saved: Regs, st: State, init: State)
    requires -0x8000_0000 <= y < 0x8000_0000 && st.regs(REG_PC).OffsetRule?
    ensures Emitted(Bad(y, v), 0, r, saved) == [Row(0, RuleOf(r.(pcOff := y)))] + Emitted(Ops(v), 1, r.(pcOff := y), r.(pcOff := y))
    ensures Saves(Bad(y, v)) == [true, false, false] + Saves(Ops(v)) && Span(Bad(y, v)) == 1 + Span(Ops(v))
  {
    hide *;
    var p0, r' := Bad(y, v), r.(pcOff := y);
    BadParts(y, v);
    var p1, p2 := p0[1..], p0[1..][1..];
    var p3, p4 := p2[1..], p2[1..][1..];
    BadStep(p0, y, r, st, init);
    RowSteps(p0, 0, r, saved);
    RowSteps(p1, 0, r', saved);
    RowSteps(p2, 0, r', r');
    RowSteps(p3, 0, r', r');
    AdvanceSteps(p4, st, [], init, r', r');
    assert [true] + ([false] + ([false] + Saves(Ops(v)))) == [true, false, false] + Saves(Ops(v));
  }

  lemma BadStep(p: seq<Instr>, y: int, r: Regs, st: State, init: State)
    requires p != [] && p[0] == Offset(REG_PC, y) && -0x8000_0000 <= y < 0x8000_0000 && st.regs(REG_PC).OffsetRule?
    ensures Plain(p[0]) && Known(p[0], st, init)
    ensures Execute(p[0], st, init) == Some(With(st, REG_PC, OffsetRule(y))) && Executed(p[0], r) == r.(pcOff := y)
  {
    Fits32(y);
    hide Parsed, Int32, Relative, LinkageTable;
  }

  /** In the program for `u`, save, restore, restore, `v`, the row at its start is wrong. */
  lemma ProgramFails(x: int, y: int, u: seq<bool>, v: seq<bool>, init: State)
    requires Usual(init) && Balanced(u, 0) && Depth(u, 0) > 0 && Balanced(v, Depth(u, 0) - 1)
    requires x != y && -0x8000_0000 <= x < 0x8000_0000 && -0x8000_0000 <= y < 0x8000_0000
    ensures var p := Program(x, y, u, v);
      && Saves(p) == u + [true, false, false] + v && Apart(p, 0, init, [], init) && Span(p) == 1
      && !Answers(Emitted(p, 0, InitialRegs(), InitialRegs()), 0, RuleAt(p, 0, init, [], init, 0))
  {
    var p, st, r := Program(x, y, u, v), With(init, REG_PC, OffsetRule(x)), InitialRegs().(pcOff := x);
    assert st.regs(REG_PC) == OffsetRule(x) && Copies(st, 0) == [];
    var rest := Ops(u) + Bad(y, v);
    assert p == [Offset(REG_PC, x)] + rest && init.regs(REG_PC).OffsetRule?;
    hide *;
    Cons(Offset(REG_PC, x), rest);
    BadStep(p, x, InitialRegs(), init, init);
    Steps(p, 0, init, [], init, r, r, 0);
    RowSteps(p, 0, InitialRegs(), InitialRegs());
    SameStateSaved(u, Bad(y, v), 0, st, 0, init, r, r, 0);
    SameStateSaved(u, Bad(y, v), 0, st, 0, init, r, InitialRegs(), 0);
    BadRules(y, v, st, Depth(u, 0), init, r);
    BadRows(y, v, r, if u == [] then InitialRegs() else r, st, init);
    OpsApart(v, st, Depth(u, 0) - 1, init);
    WrongRow(Emitted(Ops(v), 1, r.(pcOff := y), r.(pcOff := y)), v, r, y, st, x);
    assert [] + (u + ([true, false, false] + v)) == u + [true, false, false] + v;
  }

  lemma WrongRow(behind: seq<Row>, v: seq<bool>, r: Regs, y: int, st: State, x: int)
    requires behind == Emitted(Ops(v), 1, r.(pcOff := y), r.(pcOff := y)) && Span(Ops(v)) == 0 && x != y && st.regs(REG_PC) == OffsetRule(x)
    ensures !Answers([Row(0, RuleOf(r.(pcOff := y)))] + behind, 0, Some(st))
  {
    var r' := r.(pcOff := y);
    EmittedWithin(Ops(v), 1, r', r');
    LookupAbove(behind, 0);
    hide Emitted, Ops, Lookup, Packed, Relative;
    LookupAppend([Row(0, RuleOf(r'))], behind, 0);
    LookupSingle(Row(0, RuleOf(r')), 0);
  }

  // ------------------------------------------------------------------ exactly

  /** Where restores do not come one at a time, one is restored and then another that was saved earlier. */
  lemma {:induction false} FindBad(w: seq<bool>, depth: nat) returns (u: seq<bool>, v: seq<bool>)
    requires w != [] && w[0] && Balanced(w, depth) && !OneAtATime(w[1..], true)
    ensures w == u + [true, false, false] + v && Balanced(u, depth) && Depth(u, depth) > 0 && Balanced(v, Depth(u, depth) - 1)
    decreases |w|
  {
    var w1 := w[1..];
    if w1[0] {
      u, v := FindBad(w1, depth + 1);
      var u0 := u;
      u := [true] + u;
      Prepended([true], u0, v, w1, w);
      assert u[1..] == u0;
    } else {
      var w2 := w1[1..];
      assert Balanced(w2, depth) && !OneAtATime(w2, false);
      if w2[0] {
        u, v := FindBad(w2, depth);
        var u0 := u;
        u := [true, false] + u;
        Prepended([true, false], u0, v, w2, w);
        assert u[1..] == [false] + u0 && u[1..][1..] == u0;
        assert Balanced(u[1..], depth + 1) && Depth(u[1..], depth + 1) == Depth(u0, depth);
      } else {
        u, v := [], w2[1..];
        assert w == [true, false, false] + v;
      }
    }
  }

  lemma Prepended(a: seq<bool>, u: seq<bool>, v: seq<bool>, rest: seq<bool>, w: seq<bool>)
    requires rest == u + [true, false, false] + v && w == a + rest
    ensures w == a + u + [true, false, false] + v
  {
  }

  /** All programs with these saves and restores, otherwise handled, are answered rightly. */
  ghost predicate AlwaysRight(w: seq<bool>, init: State) {
    forall program: seq<Instr>, loc: u32 | Saves(program) == w && Apart(program, loc, init, [], init) && loc + Span(program) < END ::
      AllAnswered(Emitted(program, loc, InitialRegs(), InitialRegs()), program, loc, init, [], init)
  }

  /** Among programs valid by the standard, exactly those patterns are always answered rightly in which every restore directly follows a save. */
  lemma SavesExact(w: seq<bool>, init: State)
    requires Usual(init) && Balanced(w, 0)
    ensures AlwaysRight(w, init) <==> OneAtATime(w, false)
  {
    if OneAtATime(w, false) {
      forall program: seq<Instr>, loc: u32 | Saves(program) == w && Apart(program, loc, init, [], init) && loc + Span(program) < END
        ensures AllAnswered(Emitted(program, loc, InitialRegs(), InitialRegs()), program, loc, init, [], init)
      {
        OneAtATimeIsRight(program, loc, init);
      }
    } else {
      var u, v := FindBad(w, 0);
      var p := Program(0, 8, u, v);
      hide Balanced, OneAtATime, Saves, Apart, Emitted, RuleAt, Span, Answers, Program, Depth, Usual;
      ProgramFails(0, 8, u, v, init);
      assert !AllAnswered(Emitted(p, 0, InitialRegs(), InitialRegs()), p, 0, init, [], init);
    }
  }

  lemma OneAtATimeIsRight(program: seq<Instr>, loc: u32, init: State)
    requires Usual(init) && OneAtATime(Saves(program), false) && Apart(program, loc, init, [], init) && loc + Span(program) < END
    ensures AllAnswered(Emitted(program, loc, InitialRegs(), InitialRegs()), program, loc, init, [], init)
  {
    hide Usual, OneAtATime, Saves, Apart, Emitted, RuleAt, Span, Answers, Handled;
    ApartHandled(program, loc, init, [], init, false);
    UsualStands(init);
    forall pc: u32 | loc <= pc ensures Answers(Emitted(program, loc, InitialRegs(), InitialRegs()), pc, RuleAt(program, loc, init, [], init, pc)) {
      RowsGiveRule(program, loc, InitialRegs(), InitialRegs(), init, [], init, false, pc);
    }
  }

  // ------------------------------------------------------------------ an early end

  function HiddenChange(x: int, y: int, delta: nat): seq<Instr> { [DefCfaOffset(x)] + ([Nop] + ([Advance(delta)] + [DefCfaOffset(y)])) }

  /** A no-op ends the parser: a change behind it is not seen. */
  lemma NopHidesTheRest(x: int, y: int, delta: nat, loc: u32, init: State, pc: u32)
    requires Usual(init) && Encodable(REG_SP, x) && loc + delta <= pc
    ensures var p := HiddenChange(x, y, delta);
      Answers(Emitted(p, loc, InitialRegs(), InitialRegs()), pc, RuleAt(p, loc, init, [], init, pc)) <==> x == y
  {
    var p, r := HiddenChange(x, y, delta), InitialRegs().(cfaOff := x);
    var p3 := [DefCfaOffset(y)];
    var p2 := [Advance(delta)] + p3;
    var p1 := [Nop] + p2;
    Cons(DefCfaOffset(x), p1);
    Cons(Nop, p2);
    Cons(Advance(delta), p3);
    Fits32(x);
    var st := init.(cfa := CfaRegister(REG_SP, x));
    var st' := init.(cfa := CfaRegister(REG_SP, y));
    UsualStands(init);
    assert p3[1..] == [];
    assert RuleAt(p3, loc + delta, st, [], init, pc) == Some(st');
    assert RuleAt(p1, loc, st, [], init, pc) == Some(st');
    assert Stands(r, st);
    hide Stands, Packed, LinkageTable, Relative, Lookup, RuleOf;
    EarlyEndAt(p1, loc, r, InitialRegs(), st, Some(st'), pc);
  }

  predicate Padding(program: seq<Instr>) { forall i | 0 <= i < |program| :: program[i].Nop? }

  /** No-ops at the end do no harm. */
  lemma {:induction false} PaddingIsIdle(program: seq<Instr>, loc: nat, low: nat, r: Regs, st: State, stack: seq<State>, init: State)
    requires Padding(program) && Stands(r, st)
    ensures Idle(program, loc, low, st, st, stack, init)
    decreases |program|
  {
    StandsAgrees(r, st);
    AlikeExact(r, st, st);
    hide Stands, Alike, Agrees;
    if program != [] { PaddingIsIdle(program[1..], loc, low, r, st, stack, init); }
  }
}

/**
 Instrumentation preserves meaning: every run of a method is matched, step by step, by a run of its
 rewritten form, until both return the same value, let the same exception escape, or run on.
 */
module Simulation {
  import opened Bytes
  import opened Jvm
  import opened Opcodes
  import opened Layout
  import opened Emission
  import opened Patching
  import opened Preservation

  /** A method, its rewritten form, the number of parameter slots and the callbacks used. */
  datatype Rewrite = Rewrite(source: Method, target: Method, newLocal: byte, probe: Probe)

  function MovedHandler(code: seq<byte>, newLocal: nat, h: Handler): Handler {
    Handler(Image(code, newLocal, h.start), Image(code, newLocal, h.end), Image(code, newLocal, h.handler), h.catchType)
  }

  function MovedHandlers(code: seq<byte>, newLocal: nat, hs: seq<Handler>): (r: seq<Handler>)
    ensures |r| == |hs|
  {
    seq(|hs|, k requires 0 <= k < |hs| => MovedHandler(code, newLocal, hs[k]))
  }

  predicate HandlersOk(code: seq<byte>, hs: seq<Handler>) {
    forall h | h in hs ::
      && 0 <= h.start && IsStart(code, h.start)
      && 0 <= h.end && IsStart(code, h.end)
      && 0 <= h.handler < |code| && IsStart(code, h.handler)
  }

  /** No two-slot variable lies half below and half above the inserted one. */
  predicate NoStraddle(i: Instr, newLocal: nat) {
    (i.Load? || i.Store?) && Width(i.kind) == 2 ==> i.slot + 1 != newLocal
  }

  ghost predicate Rewritten(r: Rewrite) {
    var code := r.source.code;
    && WellFormed(code) && HandlersOk(code, r.source.handlers)
    && Copied(code, r.newLocal, r.probe, r.target.code)
    && r.target.handlers == MovedHandlers(code, r.newLocal, r.source.handlers)
    && r.target.maxStack == r.source.maxStack + 4
    && forall i: nat | i < |code| && IsStart(code, i) && Decode(code, i).Some? ::
         OperandFits(Raw(code, i), r.newLocal) && NoStraddle(Decode(code, i).value.instr, r.newLocal)
  }

  /** `b` pushes two words and touches nothing else. */
  ghost predicate PushesTwo<H(!new)>(env: Env<H>, b: seq<byte>) {
    forall st, h ::
      && (env.exec)(b, st, h).Next? && (env.exec)(b, st, h).heap == h
      && |(env.exec)(b, st, h).stack| == |st| + 2 && (env.exec)(b, st, h).stack[..|st|] == st
  }

  ghost predicate Pops<H(!new)>(env: Env<H>, b: seq<byte>, n: nat) {
    forall st, h | |st| >= n :: (env.exec)(b, st, h) == Next(st[..|st| - n], h)
  }

  /** The callbacks take and give what their descriptors say and leave the program's heap alone. */
  ghost predicate Benign<H(!new)>(env: Env<H>, p: Probe) {
    && (forall st, h :: (env.exec)([0], st, h) == Next(st, h))
    && PushesTwo(env, CallBack(p.nanoTime))
    && (p.latency > 0 ==> PushesTwo(env, Constant(p.latencyConst)) && Pops(env, CallBack(p.recordExit), 4))
    && (p.latency == 0 ==> Pops(env, CallBack(p.recordExit0), 2))
  }

  /** The same variables, with two extra slots at `newLocal`. */
  ghost predicate Renumbered(a: seq<Word>, b: seq<Word>, newLocal: nat) {
    newLocal <= |a| && |b| == |a| + 2 && b[..newLocal] == a[..newLocal] && b[newLocal + 2..] == a[newLocal..]
  }

  ghost predicate Matches<H>(r: Rewrite, s: State<H>, t: State<H>) {
    match s
    case Running(pc, stack, locals, heap) =>
      && t.Running? && 0 <= pc <= |r.source.code| && IsStart(r.source.code, pc)
      && t.pc == Image(r.source.code, r.newLocal, pc)
      && t.stack == stack && |stack| <= r.source.maxStack && t.heap == heap
      && Renumbered(locals, t.locals, r.newLocal)
    case Returned(_, _) => t == s
    case Uncaught(_, _) => t == s
    case Stuck => true
  }

  lemma LoadRenumbered(a: seq<Word>, b: seq<Word>, newLocal: nat, slot: nat, w: nat)
    requires Renumbered(a, b, newLocal) && 1 <= w <= 2 && slot + w <= |a| && !(w == 2 && slot + 1 == newLocal)
    ensures var s' := MovedSlot(slot, newLocal); s' + w <= |b| && b[s'..s' + w] == a[slot..slot + w]
  {
    var s' := MovedSlot(slot, newLocal);
    if slot >= newLocal {
      assert b[s'..s' + w] == b[newLocal + 2..][slot - newLocal..slot - newLocal + w];
      assert a[slot..slot + w] == a[newLocal..][slot - newLocal..slot - newLocal + w];
    } else {
      assert b[s'..s' + w] == b[..newLocal][slot..slot + w];
    }
  }

  lemma StoreRenumbered(a: seq<Word>, b: seq<Word>, newLocal: nat, slot: nat, v: seq<Word>)
    requires Renumbered(a, b, newLocal) && 1 <= |v| <= 2 && slot + |v| <= |a| && !(|v| == 2 && slot + 1 == newLocal)
    ensures var s' := MovedSlot(slot, newLocal);
            s' + |v| <= |b| && Renumbered(a[..slot] + v + a[slot + |v|..], b[..s'] + v + b[s' + |v|..], newLocal)
  {
    var s' := MovedSlot(slot, newLocal);
    var a', b' := a[..slot] + v + a[slot + |v|..], b[..s'] + v + b[s' + |v|..];
    forall k | 0 <= k < newLocal ensures b'[k] == a'[k] {
      assert b[..newLocal][k] == a[..newLocal][k];
    }
    forall k | newLocal <= k < |a| ensures b'[k + 2] == a'[k] {
      assert b[newLocal + 2..][k - newLocal] == a[newLocal..][k - newLocal];
    }
    assert b'[newLocal + 2..] == a'[newLocal..];
  }

  /** Handlers are found for the same exceptions, wherever inside the instruction's new bytes they rise. */
  lemma {:induction false} HandlerMoved<H>(code: seq<byte>, newLocal: nat, hs: seq<Handler>, env: Env<H>, pc: nat, x: int, exc: Word, heap: H)
    requires HandlersOk(code, hs) && pc < |code| && IsStart(code, pc) && Decode(code, pc).Some?
    requires Image(code, newLocal, pc) <= x < Image(code, newLocal, pc) + Decode(code, pc).value.len + Growth(code, newLocal, pc)
    ensures FindHandler(MovedHandlers(code, newLocal, hs), env, x, exc, heap)
         == match FindHandler(hs, env, pc, exc, heap) case None => None case Some(h) => Some(Image(code, newLocal, h))
    ensures FindHandler(hs, env, pc, exc, heap).Some? ==>
              var h := FindHandler(hs, env, pc, exc, heap).value; 0 <= h < |code| && IsStart(code, h)
  {
    hide Decode, IsStart, Shift, Growth;
    if hs != [] {
      assert hs[0] in hs;
      ShiftMonotone(code, newLocal, hs[0].start, pc);
      ShiftMonotone(code, newLocal, pc, hs[0].start);
      ShiftMonotone(code, newLocal, pc, hs[0].end);
      HandlerMoved(code, newLocal, hs[1..], env, pc, x, exc, heap);
      assert MovedHandlers(code, newLocal, hs)[1..] == MovedHandlers(code, newLocal, hs[1..]);
    }
  }

  lemma ThrowMatches<H>(r: Rewrite, env: Env<H>, pc: nat, x: int, a: seq<Word>, b: seq<Word>, exc: Word, heap: H)
    requires Rewritten(r) && pc < |r.source.code| && IsStart(r.source.code, pc) && Decode(r.source.code, pc).Some?
    requires var at := Image(r.source.code, r.newLocal, pc);
             at <= x < at + Decode(r.source.code, pc).value.len + Growth(r.source.code, r.newLocal, pc)
    requires Renumbered(a, b, r.newLocal)
    ensures Matches(r, Throw(r.source, env, pc, a, exc, heap), Throw(r.target, env, x, b, exc, heap))
  {
    hide Decode, IsStart, Shift, Growth, WellFormed, Copied, OperandFits, HandlersOk, Renumbered;
    HandlerMoved(r.source.code, r.newLocal, r.source.handlers, env, pc, x, exc, heap);
  }

  /** `t` continues like `s`, but at the pc `next` where `s` simply continues after its instruction. */
  ghost predicate Resumes<H>(r: Rewrite, s: State<H>, after: int, t: State<H>, next: int) {
    Matches(r, s, t)
    || (s.Running? && s.pc == after && t.Running? && t.pc == next && t.stack == s.stack && |s.stack| <= r.source.maxStack
        && t.heap == s.heap && Renumbered(s.locals, t.locals, r.newLocal))
  }

  lemma IncRenumbered(a: seq<Word>, b: seq<Word>, newLocal: nat, slot: nat, delta: int)
    requires Renumbered(a, b, newLocal) && slot < |a|
    ensures var s' := MovedSlot(slot, newLocal);
            s' < |b| && Renumbered(a[slot := a[slot] + delta], b[s' := b[s'] + delta], newLocal)
  {
    var v, s' := a[slot] + delta, MovedSlot(slot, newLocal);
    LoadRenumbered(a, b, newLocal, slot, 1);
    assert b[s'] == b[s'..s' + 1][0] == a[slot..slot + 1][0] == a[slot];
    StoreRenumbered(a, b, newLocal, slot, [v]);
    assert a[slot := v] == a[..slot] + [v] + a[slot + 1..];
    assert b[s' := v] == b[..s'] + [v] + b[s' + 1..];
  }

  lemma LocalResumes<H>(r: Rewrite, env: Env<H>, i: Instr, len: nat, n: nat, s: State<H>, t: State<H>)
    requires s.Running? && Matches(r, s, t) && (i.Load? || i.Store? || i.Inc?) && NoStraddle(i, r.newLocal)
    requires r.target.maxStack == r.source.maxStack + 4
    requires Exec(r.source, env, Decoded(i, len), s) != Stuck
    ensures Resumes(r, Exec(r.source, env, Decoded(i, len), s), s.pc + len,
                    Exec(r.target, env, Decoded(MovedInstr(r.source.code, r.newLocal, i), n), t), t.pc + n)
  {
    hide Decode, IsStart, Shift, Renumbered, MovedSlot;
    if i.Load? {
      LoadRenumbered(s.locals, t.locals, r.newLocal, i.slot, Width(i.kind));
    } else if i.Store? {
      StoreRenumbered(s.locals, t.locals, r.newLocal, i.slot, s.stack[|s.stack| - Width(i.kind)..]);
    } else {
      IncRenumbered(s.locals, t.locals, r.newLocal, i.slot, i.delta);
    }
  }

  lemma ControlResumes<H>(r: Rewrite, env: Env<H>, i: Instr, len: nat, n: nat, s: State<H>, t: State<H>)
    requires s.Running? && Matches(r, s, t) && (i.Branch? || (i.Switch? && |i.keys| == |i.targets|))
    requires TargetsOk(r.source.code, Targets(i))
    requires r.target.maxStack == r.source.maxStack + 4
    requires Exec(r.source, env, Decoded(i, len), s) != Stuck
    ensures Resumes(r, Exec(r.source, env, Decoded(i, len), s), s.pc + len,
                    Exec(r.target, env, Decoded(MovedInstr(r.source.code, r.newLocal, i), n), t), t.pc + n)
  {
    hide Decode, IsStart, Shift, FindKey, Renumbered;
    match i
    case Branch(op, target) => assert Targets(i)[0] == target;
    case Switch(d, keys, targets) =>
      if |s.stack| > 0 {
        var k := FindKey(keys, s.stack[|s.stack| - 1]);
        assert Targets(i)[0] == d;
        assert k < |keys| ==> Targets(i)[k + 1] == targets[k];
      }
  }

  lemma OtherResumes<H>(r: Rewrite, env: Env<H>, i: Instr, len: nat, n: nat, s: State<H>, t: State<H>)
    requires Rewritten(r) && s.Running? && Matches(r, s, t) && i.Other?
    requires s.pc < |r.source.code| && Decode(r.source.code, s.pc) == Some(Decoded(i, len))
    requires Exec(r.source, env, Decoded(i, len), s) != Stuck
    ensures Resumes(r, Exec(r.source, env, Decoded(i, len), s), s.pc + len,
                    Exec(r.target, env, Decoded(MovedInstr(r.source.code, r.newLocal, i), n), t), t.pc + n)
  {
    hide Decode, IsStart, Shift, Renumbered, WellFormed, Copied, OperandFits, HandlersOk;
    match (env.exec)(i.bytes, s.stack, s.heap)
    case Next(_, _) =>
    case Thrown(e, h) => ThrowMatches(r, env, s.pc, t.pc, s.locals, t.locals, e, h);
  }

  lemma NopStep<H(!new)>(m: Method, env: Env<H>, p: Probe, t: State<H>)
    requires Benign(env, p) && t.Running? && IsNop(m.code, t.pc) && |t.stack| <= m.maxStack
    ensures Step(m, env, t) == Running(t.pc + 1, t.stack, t.locals, t.heap)
  {
    hide Decode, PushesTwo, Pops;
  }

  lemma NopSteps<H(!new)>(m: Method, env: Env<H>, p: Probe, t: State<H>)
    requires Benign(env, p) && t.Running? && |t.stack| <= m.maxStack
    requires IsNop(m.code, t.pc) && IsNop(m.code, t.pc + 1) && IsNop(m.code, t.pc + 2)
    ensures Run(m, env, t, 3) == Running(t.pc + 3, t.stack, t.locals, t.heap)
  {
    hide Decode, Benign, IsNop, Step;
    NopStep(m, env, p, t);
    var u := Step(m, env, t);
    NopStep(m, env, p, u);
    var v := Step(m, env, u);
    NopStep(m, env, p, v);
    assert Run(m, env, t, 3) == Run(m, env, u, 2) == Run(m, env, v, 1) == Step(m, env, v);
  }

  /** One instruction other than a return. */
  lemma PlainStepMatches<H(!new)>(r: Rewrite, env: Env<H>, s: State<H>, t: State<H>) returns (k: nat)
    requires Rewritten(r) && Benign(env, r.probe) && s.Running? && Matches(r, s, t)
    requires s.pc < |r.source.code| && Decode(r.source.code, s.pc).Some? && !IsReturn(r.source.code[s.pc])
    requires Step(r.source, env, s) != Stuck
    ensures k >= 1 && Matches(r, Step(r.source, env, s), Run(r.target, env, t, k))
  {
    hide Decode, IsStart, Shift, Renumbered, OperandFits, HandlersOk, InstrCopied, Benign, IsNop, TargetsOk, Walks, Raw;
    var code, pc := r.source.code, s.pc;
    var d := Decode(code, pc).value;
    InstrStands(code, r.newLocal, r.probe, r.target.code, pc);
    ShiftStep(code, r.newLocal, pc);
    KindsOf(code, pc);
    var n := if Outgrows(code[pc], r.newLocal) then 2 else d.len;
    if d.instr.Load? || d.instr.Store? || d.instr.Inc? {
      LocalResumes(r, env, d.instr, d.len, n, s, t);
    } else if d.instr.Branch? || d.instr.Switch? {
      ControlResumes(r, env, d.instr, d.len, n, s, t);
    } else {
      OtherResumes(r, env, d.instr, d.len, n, s, t);
    }
    var s1, t1 := Step(r.source, env, s), Step(r.target, env, t);
    assert Run(r.target, env, t, 1) == t1;
    k := 1;
    if !Matches(r, s1, t1) && Outgrows(code[pc], r.newLocal) {
      NopSteps(r.target, env, r.probe, t1);
      RunAdds(r.target, env, t, 1, 3);
      k := 4;
    }
  }

  lemma KindsOf(code: seq<byte>, pc: nat)
    requires Decode(code, pc).Some?
    ensures var i := Decode(code, pc).value.instr;
            && (i.Return? <==> IsReturn(code[pc]))
            && (i.Return? ==> i.op == code[pc] && Decode(code, pc).value.len == 1)
            && (i.Switch? ==> |i.keys| == |i.targets|)
            && (Outgrows(code[pc], 0) ==> Decode(code, pc).value.len == 1)
  {
  }

  lemma PushStep<H(!new)>(m: Method, env: Env<H>, b: seq<byte>, n: nat, t: State<H>) returns (stack: seq<Word>)
    requires PushesTwo(env, b) && t.Running? && DecodesTo(m.code, t.pc, Other(b), n) && |t.stack| + 2 <= m.maxStack
    ensures |stack| == |t.stack| + 2 && stack[..|t.stack|] == t.stack
    ensures Step(m, env, t) == Running(t.pc + n, stack, t.locals, t.heap)
  {
    hide Decode;
    stack := (env.exec)(b, t.stack, t.heap).stack;
  }

  lemma PopStep<H(!new)>(m: Method, env: Env<H>, b: seq<byte>, n: nat, w: nat, t: State<H>, stack: seq<Word>)
    requires Pops(env, b, w) && t.Running? && DecodesTo(m.code, t.pc, Other(b), n) && |stack| <= m.maxStack
    requires |t.stack| == |stack| + w && t.stack[..|stack|] == stack
    ensures Step(m, env, t) == Running(t.pc + n, stack, t.locals, t.heap)
  {
    hide Decode;
  }

  /** The timing code before a return runs through and leaves the frame as it was. */
  lemma ExitCodeRuns<H(!new)>(m: Method, env: Env<H>, p: Probe, newLocal: byte, op: byte, t: State<H>) returns (k: nat)
    requires Benign(env, p) && t.Running? && ReturnAt(m.code, t.pc, newLocal, p, op)
    requires |t.stack| + 4 <= m.maxStack && newLocal + 2 <= |t.locals|
    ensures k >= 1 && Run(m, env, t, k) == Running(t.pc + 8, t.stack, t.locals, t.heap)
  {
    hide Decode, PushesTwo, Pops, IsNop;
    var t1 := Running(t.pc + 2, t.stack + t.locals[newLocal..newLocal + 2], t.locals, t.heap);
    assert Step(m, env, t) == t1;
    hide Step, Exec;
    if p.latency > 0 {
      var st := PushStep(m, env, Constant(p.latencyConst), 3, t1);
      var t2 := Running(t1.pc + 3, st, t.locals, t.heap);
      assert t2.stack[..|t.stack|] == t2.stack[..|t1.stack|][..|t.stack|] == t.stack;
      PopStep(m, env, CallBack(p.recordExit), 3, 4, t2, t.stack);
      k := 3;
      assert Run(m, env, t, 3) == Run(m, env, t1, 2) == Run(m, env, t2, 1) == Step(m, env, t2);
    } else {
      NopSteps(m, env, p, t1);
      var t2 := Running(t1.pc + 3, t1.stack, t.locals, t.heap);
      PopStep(m, env, CallBack(p.recordExit0), 3, 2, t2, t.stack);
      k := 5;
      RunAdds(m, env, t1, 3, 1);
      assert Run(m, env, t, 5) == Run(m, env, t1, 4);
      assert Run(m, env, t2, 1) == Step(m, env, t2);
    }
  }

  lemma ReturnStepMatches<H(!new)>(r: Rewrite, env: Env<H>, s: State<H>, t: State<H>) returns (k: nat)
    requires Rewritten(r) && Benign(env, r.probe) && s.Running? && Matches(r, s, t)
    requires s.pc < |r.source.code| && Decode(r.source.code, s.pc).Some? && IsReturn(r.source.code[s.pc])
    requires Step(r.source, env, s) != Stuck
    ensures k >= 1 && Matches(r, Step(r.source, env, s), Run(r.target, env, t, k))
  {
    hide *;
    var op := r.source.code[s.pc];
    ReturnFacts(r, s, t);
    k := ExitCodeRuns(r.target, env, r.probe, r.newLocal, op, t);
    var u := Running(t.pc + 8, t.stack, t.locals, t.heap);
    RunAdds(r.target, env, t, k, 1);
    RunOne(r.target, env, u);
    k := k + 1;
    ReturnEnds(r, env, s, t);
  }

  lemma RunOne<H>(m: Method, env: Env<H>, s: State<H>)
    ensures Run(m, env, s, 1) == Step(m, env, s)
  {
    hide Step;
    assert Run(m, env, Step(m, env, s), 0) == Step(m, env, s);
  }

  /** Where the rewritten method stands when the original is about to return. */
  lemma ReturnFacts<H>(r: Rewrite, s: State<H>, t: State<H>)
    requires Rewritten(r) && s.Running? && Matches(r, s, t)
    requires s.pc < |r.source.code| && Decode(r.source.code, s.pc).Some? && IsReturn(r.source.code[s.pc])
    ensures 0 <= s.pc && IsStart(r.source.code, s.pc) && t.Running? && t.pc == Image(r.source.code, r.newLocal, s.pc)
    ensures t.stack == s.stack && t.heap == s.heap && Renumbered(s.locals, t.locals, r.newLocal)
    ensures ReturnAt(r.target.code, t.pc, r.newLocal, r.probe, r.source.code[s.pc])
    ensures |t.stack| + 4 <= r.target.maxStack && r.newLocal + 2 <= |t.locals|
  {
    hide Decode, IsStart, Shift, OperandFits, HandlersOk, InstrCopied, IsNop, TargetsOk, Walks, Raw, ReturnAt;
    ReturnDecodes(r.source.code, r.newLocal, r.probe, r.target.code, s.pc);
  }

  /** The return at the end of the exit code does what the original does. */
  lemma ReturnEnds<H>(r: Rewrite, env: Env<H>, s: State<H>, t: State<H>)
    requires Rewritten(r) && s.Running? && Matches(r, s, t)
    requires s.pc < |r.source.code| && Decode(r.source.code, s.pc).Some? && IsReturn(r.source.code[s.pc])
    requires t.Running? && Step(r.source, env, s) != Stuck
    ensures Matches(r, Step(r.source, env, s), Step(r.target, env, Running(t.pc + 8, t.stack, t.locals, t.heap)))
  {
    hide Decode, IsStart, Image, Rewritten, Renumbered, IsNop, Throw, Growth;
    ReturnFacts(r, s, t);
    KindsOf(r.source.code, s.pc);
    match (env.retThrows)(r.source.code[s.pc], s.heap)
    case None =>
    case Some(e) =>
      ReturnGrowth(r.source.code, r.newLocal, s.pc);
      ThrowMatches(r, env, s.pc, t.pc + 8, s.locals, t.locals, e, s.heap);
  }

  lemma ReturnGrowth(code: seq<byte>, newLocal: byte, pc: nat)
    requires pc < |code| && Decode(code, pc).Some? && IsReturn(code[pc])
    ensures Growth(code, newLocal, pc) == 8
  {
    hide Decode;
  }

  /** Every step of the original is matched by at least one step of the rewritten method. */
  lemma StepMatches<H(!new)>(r: Rewrite, env: Env<H>, s: State<H>, t: State<H>) returns (k: nat)
    requires Rewritten(r) && Benign(env, r.probe) && Matches(r, s, t) && Step(r.source, env, s) != Stuck
    ensures k >= 1 && Matches(r, Step(r.source, env, s), Run(r.target, env, t, k))
  {
    hide Decode, Rewritten, Benign, IsStart, Renumbered, Exec;
    if !s.Running? {
      k := 1;
      assert Run(r.target, env, t, 1) == Step(r.target, env, t) == t;
    } else {
      if IsReturn(r.source.code[s.pc]) {
        k := ReturnStepMatches(r, env, s, t);
      } else {
        k := PlainStepMatches(r, env, s, t);
      }
    }
  }

  lemma {:induction false} StuckStays<H>(m: Method, env: Env<H>, n: nat)
    ensures Run(m, env, Stuck, n) == Stuck
  {
    if n > 0 { StuckStays(m, env, n - 1); }
  }

  lemma {:induction false} RunMatches<H(!new)>(r: Rewrite, env: Env<H>, s: State<H>, t: State<H>, n: nat) returns (k: nat)
    requires Rewritten(r) && Benign(env, r.probe) && Matches(r, s, t) && Run(r.source, env, s, n) != Stuck
    ensures k >= n && Matches(r, Run(r.source, env, s, n), Run(r.target, env, t, k))
    decreases n
  {
    hide Step, Rewritten, Benign, Matches;
    if n == 0 {
      k := 0;
    } else {
      var s1 := Step(r.source, env, s);
      if s1 == Stuck { StuckStays(r.source, env, n - 1); }
      var j := StepMatches(r, env, s, t);
      var rest := RunMatches(r, env, s1, Run(r.target, env, t, j), n - 1);
      RunAdds(r.target, env, t, j, rest);
      k := j + rest;
    }
  }

  lemma StoreStep<H>(m: Method, env: Env<H>, slot: nat, t: State<H>, v: seq<Word>)
    requires t.Running? && t.stack == v && |v| == 2 && DecodesTo(m.code, t.pc, Store(1, slot), 2) && slot + 2 <= |t.locals|
    ensures Step(m, env, t) == Running(t.pc + 2, [], t.locals[..slot] + v + t.locals[slot + 2..], t.heap)
  {
    hide Decode;
    assert v[0..] == v && v[..0] == [];
  }

  /** The entry code stores a start time and hands over to the first instruction. */
  lemma EntryCodeRuns<H(!new)>(r: Rewrite, env: Env<H>, a: seq<Word>, b: seq<Word>, heap: H) returns (k: nat)
    requires Rewritten(r) && Benign(env, r.probe) && Renumbered(a, b, r.newLocal)
    ensures Matches(r, Running(0, [], a, heap), Run(r.target, env, Running(0, [], b, heap), k))
  {
    hide Decode, InstrCopied, TargetsOk, Walks, OperandFits, Raw, HandlersOk, PushesTwo, Pops;
    var m := r.target;
    EntryDecodes(r.newLocal, r.probe, m.code);
    hide IsNop;
    var t := Running(0, [], b, heap);
    var st := PushStep(m, env, CallBack(r.probe.nanoTime), 3, t);
    var t1 := Running(3, st, b, heap);
    var b' := b[..r.newLocal] + st + b[r.newLocal + 2..];
    var t2 := Running(5, [], b', heap);
    StoreStep(m, env, r.newLocal, t1, st);
    hide Step, EntryStands;
    NopSteps(m, env, r.probe, t2);
    RunAdds(m, env, t2, 0, 3);
    assert Run(m, env, t, 5) == Run(m, env, t1, 4) == Run(m, env, t2, 3);
    k := 5;
    assert Image(r.source.code, r.newLocal, 0) == 8;
    assert Renumbered(a, b', r.newLocal);
  }

  /**
   Instrumentation preserves meaning. Whatever the original method has done after `n` steps, the
   rewritten one has done too after some `k >= n` steps: it is at the image of the same instruction
   with the same operand stack, heap and variables, or has returned the same value, or has let the
   same exception escape.
   */
  lemma InstrumentationPreservesMeaning<H(!new)>(r: Rewrite, env: Env<H>, a: seq<Word>, b: seq<Word>, heap: H, n: nat) returns (k: nat)
    requires Rewritten(r) && Benign(env, r.probe) && Renumbered(a, b, r.newLocal)
    requires Run(r.source, env, Running(0, [], a, heap), n) != Stuck
    ensures k >= n && Matches(r, Run(r.source, env, Running(0, [], a, heap), n), Run(r.target, env, Running(0, [], b, heap), k))
  {
    hide *;
    var e := EntryCodeRuns(r, env, a, b, heap);
    var t := Running(0, [], b, heap);
    var rest := RunMatches(r, env, Running(0, [], a, heap), Run(r.target, env, t, e), n);
    RunAdds(r.target, env, t, e, rest);
    k := e + rest;
  }

  lemma {:induction false} HaltedStays<H>(m: Method, env: Env<H>, s: State<H>, n: nat)
    requires !s.Running?
    ensures Run(m, env, s, n) == s
    decreases n
  {
    if n > 0 { HaltedStays(m, env, s, n - 1); }
  }

  /** Conversely, the rewritten method halts only as the original does, and it never gets stuck. */
  lemma InstrumentationAddsNothing<H(!new)>(r: Rewrite, env: Env<H>, a: seq<Word>, b: seq<Word>, heap: H, n: nat)
    requires Rewritten(r) && Benign(env, r.probe) && Renumbered(a, b, r.newLocal)
    requires Run(r.source, env, Running(0, [], a, heap), n) != Stuck
    requires !Run(r.target, env, Running(0, [], b, heap), n).Running?
    ensures Run(r.source, env, Running(0, [], a, heap), n) == Run(r.target, env, Running(0, [], b, heap), n)
  {
    hide Rewritten, Benign, Renumbered, Run, Step;
    var s, t := Running(0, [], a, heap), Running(0, [], b, heap);
    var k := InstrumentationPreservesMeaning(r, env, a, b, heap, n);
    RunAdds(r.target, env, t, n, k - n);
    HaltedStays(r.target, env, Run(r.target, env, t, n), k - n);
  }
}

/** More room in the buffer changes nothing but the room left, as long as the smaller buffer is enough. */
module RustRoom {
  import opened Bytes
  import opened RustLexer
  import opened RustPrinter
  import opened RustInterpreter

  /** The same state with `d` more bytes of room. */
  function Wider(st: State, d: nat): State { if st.sink.Silent? then st else st.(sink := Sink(st.sink.text, st.sink.room + d)) }

  function WiderOutcome(o: Outcome, d: nat): Outcome { Outcome(Wider(o.st, d), o.regs, o.returned) }

  lemma WiderWf(x: Context, st: State, d: nat)
    ensures Wf(x, Wider(st, d)) == Wf(x, st) && Fine(Wider(st, d)) == Fine(st) && Budget(Wider(st, d)) == Budget(st)
    ensures Wider(st, d) == st.(sink := Wider(st, d).sink) && Wider(st, d).sink.Silent? == st.sink.Silent?
  {
  }

  lemma PutWider(st: State, p: Piece, d: nat)
    requires !Put(st, p).overflow
    ensures Put(Wider(st, d), p) == Wider(Put(st, p), d)
  {
  }

  lemma BrokenWider(st: State, status: Status, d: nat)
    requires !Broken(st, status).overflow
    ensures Broken(Wider(st, d), status) == Wider(Broken(st, status), d)
  {
    PutWider(st, Piece(Message(status), 0), d);
  }

  lemma LifetimeWider(x: Context, op: Op, st: State, regs: Regs, d: nat)
    requires op.Lifetime? && !ShowLifetime(x, op, st, regs).overflow
    ensures ShowLifetime(x, op, Wider(st, d), regs) == Wider(ShowLifetime(x, op, st, regs), d)
  {
    hide Put, Broken;
    if st.sink.Sink? && !(op.unlessZero && regs.number == 0) {
      var s1 := Print(st, op.before + "'");
      var fits := regs.number <= s1.lifetimes || regs.number == 0;
      var s2 := if fits then Shown(x, LifetimeName, regs, s1) else Broken(s1, Invalid);
      PutStays(s2, Piece(op.after, 0));
      if fits { PutStays(s1, x.shown(LifetimeName, regs, s1.lifetimes)); } else { BrokenStays(s1, Invalid); }
      PutStays(st, Piece(op.before + "'", 0));
      PutWider(st, Piece(op.before + "'", 0), d);
      if fits { PutWider(s1, x.shown(LifetimeName, regs, s1.lifetimes), d); } else { BrokenWider(s1, Invalid, d); }
      PutWider(s2, Piece(op.after, 0), d);
    }
  }

  /** An overflow stays. */
  lemma PutStays(st: State, p: Piece)
    ensures st.overflow ==> Put(st, p).overflow
    ensures Put(st, p).lifetimes == st.lifetimes && Put(st, p).sink.Silent? == st.sink.Silent?
  {
  }

  lemma BrokenStays(st: State, status: Status)
    ensures st.overflow ==> Broken(st, status).overflow
  {
  }

  lemma ParseWider(x: Context, op: Op, st: State, regs: Regs, d: nat)
    requires (Takes(op) || op.ParseOptInteger?) && !Parse(x, op, st, regs).st.overflow
    ensures Parse(x, op, Wider(st, d), regs) == WiderOutcome(Parse(x, op, st, regs), d)
  {
    hide Integer62, OptInteger62, Identifier, HexNibbles, Broken;
    if !Broken(st, Invalid).overflow { BrokenWider(st, Invalid, d); }
  }

  lemma DoWider(x: Context, op: Op, st: State, regs: Regs, d: nat)
    requires Simple(op) && !Do(x, op, st, regs).st.overflow
    ensures Do(x, op, Wider(st, d), regs) == WiderOutcome(Do(x, op, st, regs), d)
  {
    hide Parse, Holds, ShowLifetime, Put, Broken;
    if op.Lifetime? { LifetimeWider(x, op, st, regs, d); }
    if op.Str? { PutWider(st, Piece(op.text, 0), d); }
    if op.Show? { PutWider(st, x.shown(op.what, regs, st.lifetimes), d); }
    if op.StrIfBad? && st.status != Good { PutWider(st, Piece(op.text, 0), d); }
    if (op.Check? && !Holds(x.sym, op.condition, regs)) || op.Fail? { BrokenWider(st, Invalid, d); }
    if Takes(op) || op.ParseOptInteger? {
      if st.status == Good { ParseWider(x, op, st, regs, d); } else { PutWider(st, Piece("?", 0), d); }
    }
  }

  /** No overflow after means none before. */
  lemma NoneBefore(x: Context, st: State, st': State)
    requires After(x, st, st') && !st'.overflow
    ensures !st.overflow && Wf(x, st')
  {
  }

  lemma {:induction false} ExecWider(x: Context, ops: seq<Op>, st: State, regs: Regs, d: nat)
    requires Wf(x, st) && Sound(ops) && !Exec(x, ops, st, regs).st.overflow
    ensures Wf(x, Wider(st, d)) && Exec(x, ops, Wider(st, d), regs) == WiderOutcome(Exec(x, ops, st, regs), d)
    decreases Budget(st), |x.sym| - st.next, Weight(ops), 0
  {
    hide Sound, SoundOp, Consumes, ConsumesOp, One, After, SinkAfter, Wf;
    WiderWf(x, st, d);
    NoneBefore(x, st, Exec(x, ops, st, regs).st);
    if ops != [] {
      ConsumesParts(ops);
      var o := One(x, ops[0], st, regs);
      OneMoves(x, ops[0], st, regs);
      if !o.returned { NoneBefore(x, o.st, Exec(x, ops[1..], o.st, o.regs).st); }
      OneWider(x, ops[0], st, regs, d);
      if !o.returned {
        ExecWider(x, ops[1..], o.st, o.regs, d);
      }
    }
  }

  lemma OneMoves(x: Context, op: Op, st: State, regs: Regs)
    requires Wf(x, st) && SoundOp(op)
    ensures var o := One(x, op, st, regs); Wf(x, o.st) && Budget(o.st) <= Budget(st) && st.next <= o.st.next <= |x.sym|
  {
    hide One, SoundOp, Consumes;
  }

  lemma ExecMoves(x: Context, ops: seq<Op>, st: State, regs: Regs)
    requires Wf(x, st) && Sound(ops)
    ensures var o := Exec(x, ops, st, regs); Wf(x, o.st) && Budget(o.st) <= Budget(st) && st.next <= o.st.next <= |x.sym| && (Consumes(ops) && Fine(o.st) ==> st.next < o.st.next)
  {
    hide Exec, Sound, Consumes;
  }

  lemma {:induction false} OneWider(x: Context, op: Op, st: State, regs: Regs, d: nat)
    requires Wf(x, st) && SoundOp(op) && !One(x, op, st, regs).st.overflow
    ensures Wf(x, Wider(st, d)) && One(x, op, Wider(st, d), regs) == WiderOutcome(One(x, op, st, regs), d)
    decreases Budget(st), |x.sym| - st.next, WeightOp(op), 2
  {
    hide Do, Nested, Loop, EatLoop, Enter, Back, Bind, Consumes, ConsumesOp, After, SinkAfter, Wf;
    WiderWf(x, st, d);
    if Simple(op) {
      DoWider(x, op, st, regs, d);
    } else if op.IfTag? || op.IfEat? || op.Frame? || op.Opens? || op.Quiet? {
      NestedWider(x, op, st, regs, d);
    } else if op.Until? {
      LoopWider(x, op.sep, op.body, st, regs, 0, d);
    } else if op.WhileEat? {
      EatLoopWider(x, op.c, op.body, st, regs, d);
    } else if op.Call? {
      EnterWider(x, op.rule, st, d);
    } else if op.Backref? {
      BackWider(x, op.rule, st, regs, d);
    } else {
      BindWider(x, op.body, st, regs, d);
    }
  }

  lemma {:induction false} NestedWider(x: Context, op: Op, st: State, regs: Regs, d: nat)
    requires Wf(x, st) && SoundOp(op) && (op.IfTag? || op.IfEat? || op.Frame? || op.Opens? || op.Quiet?) && !Nested(x, op, st, regs).st.overflow
    ensures Wf(x, Wider(st, d)) && Nested(x, op, Wider(st, d), regs) == WiderOutcome(Nested(x, op, st, regs), d)
    decreases Budget(st), |x.sym| - st.next, WeightOp(op), 1
  {
    hide Exec, Consumes, ConsumesOp, After, SinkAfter, Ok;
    WiderWf(x, st, d);
    if op.IfTag? {
      ExecWider(x, if regs.tag == op.c then op.yes else op.no, st, regs, d);
    } else if op.IfEat? {
      if st.status == Good && Eats(x.sym, st.next, op.c) { ExecWider(x, op.yes, st.(next := st.next + 1), regs, d); } else { ExecWider(x, op.no, st, regs, d); }
    } else if op.Quiet? {
      ExecWider(x, op.body, st.(sink := Silent), regs, d);
      QuietStays(x, op.body, st.(sink := Silent), regs);
    } else {
      ExecWider(x, op.body, st, NoRegs(), d);
    }
  }

  lemma QuietStays(x: Context, body: seq<Op>, st: State, regs: Regs)
    requires Wf(x, st) && Sound(body) && st.sink.Silent?
    ensures Exec(x, body, st, regs).st.sink.Silent?
  {
    hide Exec, Sound, Consumes;
  }

  lemma {:induction false} LoopWider(x: Context, sep: string, body: seq<Op>, st: State, regs: Regs, count: nat, d: nat)
    requires Wf(x, st) && Sound(body) && Consumes(body) && !Loop(x, sep, body, st, regs, count).st.overflow
    ensures Wf(x, Wider(st, d)) && Loop(x, sep, body, Wider(st, d), regs, count) == WiderOutcome(Loop(x, sep, body, st, regs, count), d)
    decreases Budget(st), |x.sym| - st.next, Weight(body), 1
  {
    hide Exec, Sound, Consumes, After, SinkAfter, Ok, Wf, Loop, Spaced;
    WiderWf(x, st, d);
    if !Fine(st) {
      LoopStops(x, sep, body, st, regs, count);
      LoopStops(x, sep, body, Wider(st, d), regs, count);
    } else {
      LoopUnfolds(x, sep, body, st, regs, count);
      LoopUnfolds(x, sep, body, Wider(st, d), regs, count);
      if !Eats(x.sym, st.next, 'E') {
        var s1 := Spaced(st, sep, count);
        var o := Exec(x, body, s1, regs);
        if !(o.returned || !Fine(o.st)) { assert !o.st.overflow; }
        SpacedWider(x, body, st, sep, count, regs, d);
        ExecWider(x, body, s1, regs, d);
        WiderWf(x, o.st, d);
        if !(o.returned || !Fine(o.st)) {
          ExecMoves(x, body, s1, regs);
          LoopWider(x, sep, body, o.st, o.regs, count + 1, d);
        }
      }
    }
  }

  lemma LoopStops(x: Context, sep: string, body: seq<Op>, st: State, regs: Regs, count: nat)
    requires Wf(x, st) && Sound(body) && Consumes(body) && !Fine(st)
    ensures Loop(x, sep, body, st, regs, count) == Outcome(st, regs.(count := count), st.overflow)
  {
    hide Exec, Sound, Consumes;
  }

  lemma SpacedWider(x: Context, body: seq<Op>, st: State, sep: string, count: nat, regs: Regs, d: nat)
    requires Wf(x, st) && Sound(body) && Wf(x, Spaced(st, sep, count)) && !Exec(x, body, Spaced(st, sep, count), regs).st.overflow
    ensures Spaced(Wider(st, d), sep, count) == Wider(Spaced(st, sep, count), d)
    ensures Budget(Spaced(st, sep, count)) == Budget(st) && Spaced(st, sep, count).next == st.next
  {
    hide Exec, Sound, Consumes;
    NoneBefore(x, Spaced(st, sep, count), Exec(x, body, Spaced(st, sep, count), regs).st);
    if count > 0 { PutWider(st, Piece(sep, 0), d); }
  }

  lemma {:induction false} EatLoopWider(x: Context, c: char, body: seq<Op>, st: State, regs: Regs, d: nat)
    requires Wf(x, st) && Sound(body) && !EatLoop(x, c, body, st, regs).st.overflow
    ensures Wf(x, Wider(st, d)) && EatLoop(x, c, body, Wider(st, d), regs) == WiderOutcome(EatLoop(x, c, body, st, regs), d)
    decreases Budget(st), |x.sym| - st.next, Weight(body), 1
  {
    hide Exec, Sound, Consumes, SinkAfter;
    WiderWf(x, st, d);
    if Fine(st) && Eats(x.sym, st.next, c) {
      var s1 := st.(next := st.next + 1);
      var o := Exec(x, body, s1, regs);
      ExecWider(x, body, s1, regs, d);
      WiderWf(x, o.st, d);
      if !(o.returned || !Fine(o.st)) { EatLoopWider(x, c, body, o.st, o.regs, d); }
    }
  }

  lemma {:induction false} BackWider(x: Context, rule: Rule, st: State, regs: Regs, d: nat)
    requires Wf(x, st) && !Back(x, rule, st, regs).st.overflow
    ensures Wf(x, Wider(st, d)) && Back(x, rule, Wider(st, d), regs) == WiderOutcome(Back(x, rule, st, regs), d)
    decreases Budget(st), |x.sym| - st.next, 0, 1
  {
    hide Follow, Integer62, After, SinkAfter, Broken, Put;
    WiderWf(x, st, d);
    if st.status != Good {
      PutWider(st, Piece("?", 0), d);
    } else if st.next == 0 {
      BrokenWider(st, Bug, d);
    } else {
      var n := Integer62(x.sym, st.next);
      if n.NoNumber? {
        BrokenWider(st, Invalid, d);
      } else {
        var past := st.(next := n.next);
        if n.value >= st.next - 1 {
          BrokenWider(past, Invalid, d);
        } else if st.depth == MAX_DEPTH {
          BrokenWider(past, Recursed, d);
        } else if st.sink.Sink? {
          FollowWider(x, rule, st.(next := n.value, depth := st.depth + 1), d);
          FollowPrints(x, rule, st.(next := n.value, depth := st.depth + 1));
        }
      }
    }
  }

  lemma FollowPrints(x: Context, rule: Rule, st: State)
    requires Wf(x, st)
    ensures st.sink.Sink? ==> Follow(x, rule, st).st.sink.Sink?
  {
    hide Follow;
  }

  lemma {:induction false} FollowWider(x: Context, rule: Rule, st: State, d: nat)
    requires Wf(x, st) && !Follow(x, rule, st).st.overflow
    ensures Wf(x, Wider(st, d)) && Follow(x, rule, Wider(st, d)) == WiderOutcome(Follow(x, rule, st), d)
    decreases Budget(st), |x.sym| - st.next, Weight(GenericsOps()), 2
  {
    hide Exec, Enter, GenericsOps, Sound, Consumes, After, SinkAfter, Ok;
    WiderWf(x, st, d);
    if rule.Generics? {
      GenericsSound();
      ExecWider(x, GenericsOps(), st, NoRegs(), d);
    } else {
      EnterWider(x, rule, st, d);
    }
  }

  lemma {:induction false} BindWider(x: Context, body: seq<Op>, st: State, regs: Regs, d: nat)
    requires Wf(x, st) && Sound(body) && !Bind(x, body, st, regs).overflow
    ensures Wf(x, Wider(st, d)) && Bind(x, body, Wider(st, d), regs) == Wider(Bind(x, body, st, regs), d)
    decreases Budget(st), |x.sym| - st.next, Weight(body), 1
  {
    hide Exec, OptInteger62, Sound, Consumes, SinkAfter, Broken, Put;
    WiderWf(x, st, d);
    if st.status != Good {
      PutWider(st, Piece("?", 0), d);
    } else {
      var n := OptInteger62(x.sym, st.next, 'G');
      if n.NoNumber? {
        BrokenWider(st, Invalid, d);
      } else {
        var past := st.(next := n.next);
        if st.sink.Silent? {
          ExecWider(x, body, past, NoRegs(), d);
        } else {
          ShownAfter(x, BinderNames, regs.(number := n.value), past);
          BinderWider(x, body, past, regs.(number := n.value), n.value, d);
          var st1 := Shown(x, BinderNames, regs.(number := n.value), past);
          ExecWider(x, body, st1.(lifetimes := st1.lifetimes + n.value), NoRegs(), d);
        }
      }
    }
  }

  lemma BinderWider(x: Context, body: seq<Op>, past: State, regs: Regs, n: nat, d: nat)
    requires Wf(x, past) && Sound(body) && Wf(x, Shown(x, BinderNames, regs, past))
    requires var st1 := Shown(x, BinderNames, regs, past); !Exec(x, body, st1.(lifetimes := st1.lifetimes + n), NoRegs()).st.overflow
    ensures Shown(x, BinderNames, regs, Wider(past, d)) == Wider(Shown(x, BinderNames, regs, past), d)
  {
    hide Exec, Sound, Consumes, Put;
    var st1 := Shown(x, BinderNames, regs, past);
    NoneBefore(x, st1.(lifetimes := st1.lifetimes + n), Exec(x, body, st1.(lifetimes := st1.lifetimes + n), NoRegs()).st);
    PutWider(past, x.shown(BinderNames, regs, past.lifetimes), d);
  }

  lemma {:induction false} EnterWider(x: Context, rule: Rule, st: State, d: nat)
    requires Wf(x, st) && !rule.Generics? && !Enter(x, rule, st).overflow
    ensures Wf(x, Wider(st, d)) && Enter(x, rule, Wider(st, d)) == Wider(Enter(x, rule, st), d)
    decreases Budget(st), |x.sym| - st.next, 0, 1
  {
    hide EnterPath, EnterConst, EnterType, After, SinkAfter, Put;
    WiderWf(x, st, d);
    if st.status != Good {
      PutWider(st, Piece("?", 0), d);
    } else if rule.Path? {
      PathWider(x, rule.inValue, st, d);
    } else if rule.Type? {
      TypeWider(x, st, d);
    } else {
      ConstWider(x, rule.inValue, st, d);
    }
  }

  lemma {:induction false} PathWider(x: Context, v: bool, st: State, d: nat)
    requires Wf(x, st) && st.status == Good && !EnterPath(x, v, st).overflow
    ensures Wf(x, Wider(st, d)) && EnterPath(x, v, Wider(st, d)) == Wider(EnterPath(x, v, st), d)
    decreases Budget(st), |x.sym| - st.next, 0, 0
  {
    hide PathOps, Entered, After, SinkAfter, Broken, Sound;
    WiderWf(x, st, d);
    if st.depth == MAX_DEPTH {
      BrokenWider(st.(depth := st.depth + 1), Recursed, d);
    } else if st.next == |x.sym| {
      BrokenWider(st.(depth := st.depth + 1), Invalid, d);
    } else {
      PathSound(x.sym[st.next], v);
      EnteredWider(x, PathOps(x.sym[st.next], v), st, d);
    }
  }

  lemma {:induction false} ConstWider(x: Context, v: bool, st: State, d: nat)
    requires Wf(x, st) && st.status == Good && !EnterConst(x, v, st).overflow
    ensures Wf(x, Wider(st, d)) && EnterConst(x, v, Wider(st, d)) == Wider(EnterConst(x, v, st), d)
    decreases Budget(st), |x.sym| - st.next, 0, 0
  {
    hide ConstOps, Entered, After, SinkAfter, Broken, Sound;
    WiderWf(x, st, d);
    if st.next == |x.sym| {
      BrokenWider(st, Invalid, d);
    } else if st.depth == MAX_DEPTH {
      BrokenWider(st.(next := st.next + 1, depth := st.depth + 1), Recursed, d);
    } else {
      ConstSound(x.sym[st.next], v);
      EnteredWider(x, ConstOps(x.sym[st.next], v), st, d);
    }
  }

  lemma {:induction false} TypeWider(x: Context, st: State, d: nat)
    requires Wf(x, st) && st.status == Good && !EnterType(x, st).overflow
    ensures Wf(x, Wider(st, d)) && EnterType(x, Wider(st, d)) == Wider(EnterType(x, st), d)
    decreases Budget(st), |x.sym| - st.next, 0, 0
  {
    hide TypeOps, Entered, IsBasicType, After, SinkAfter, Broken, Sound, Enter, Put;
    WiderWf(x, st, d);
    if st.next == |x.sym| {
      BrokenWider(st, Invalid, d);
    } else {
      var tag, past := x.sym[st.next], st.(next := st.next + 1);
      if IsBasicType(tag) {
        PutWider(past, x.shown(BasicName, NoRegs().(tag := tag), past.lifetimes), d);
      } else if st.depth == MAX_DEPTH {
        BrokenWider(past.(depth := st.depth + 1), Recursed, d);
      } else if TypeOps(tag).None? {
        EnterWider(x, Path(false), st.(depth := st.depth + 1), d);
      } else {
        TypeSound(tag);
        EnteredWider(x, TypeOps(tag).value, st, d);
      }
    }
  }

  lemma {:induction false} EnteredWider(x: Context, ops: seq<Op>, st: State, d: nat)
    requires Wf(x, st) && st.status == Good && st.depth < MAX_DEPTH && st.next < |x.sym| && Sound(ops) && !Entered(x, ops, st).overflow
    ensures Wf(x, Wider(st, d)) && Entered(x, ops, Wider(st, d)) == Wider(Entered(x, ops, st), d)
    decreases Budget(st.(depth := st.depth + 1)), |x.sym| - st.next, Weight(ops), 1
  {
    hide Exec, Sound, Consumes, After, SinkAfter, Ok;
    WiderWf(x, st, d);
    ExecWider(x, ops, st.(next := st.next + 1, depth := st.depth + 1), NoRegs(), d);
  }
}

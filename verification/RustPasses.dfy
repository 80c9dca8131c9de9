/** The silent pass and the printing pass read the symbol alike. */
module RustPasses {
  import opened Bytes
  import opened RustLexer
  import opened RustPrinter
  import opened RustInterpreter

  predicate AlikeRule(a: Rule, b: Rule) { a == b || (a.Path? && b.Path?) || (a.Const? && b.Const?) }

  /** Lists that differ in the constant text they print, and in the rules' `in_value` flag, only. */
  predicate Alike(a: seq<Op>, b: seq<Op>) { |a| == |b| && forall i | 0 <= i < |a| :: AlikeOp(a[i], b[i]) }

  predicate AlikeOp(a: Op, b: Op) {
    || a == b
    || (a.Str? && b.Str?)
    || (a.Call? && b.Call? && AlikeRule(a.rule, b.rule))
    || (a.Backref? && b.Backref? && AlikeRule(a.rule, b.rule))
    || (a.IfEat? && b.IfEat? && a.c == b.c && Alike(a.yes, b.yes) && Alike(a.no, b.no))
  }

  lemma AlikeSelf(a: seq<Op>)
    ensures Alike(a, a)
  {
  }

  lemma PathAlike(tag: char, v: bool, w: bool)
    ensures Alike(PathOps(tag, v), PathOps(tag, w))
  {
    hide GenericArgs;
  }

  lemma ConstAlike(tag: char, v: bool, w: bool)
    ensures Alike(ConstOps(tag, v), ConstOps(tag, w))
  {
    AlikeSelf(LeafConstOps(tag));
    hide LeafConstOps, StringLiteral, VariantFields;
    if tag == 'R' {
      var open, close := Str(if v then "" else "{"), Str(if v then "" else "}");
      var open', close' := Str(if w then "" else "{"), Str(if w then "" else "}");
      assert Alike([open, Str("&"), Call(Const(true)), close], [open', Str("&"), Call(Const(true)), close']);
      AlikeSelf([Frame(StringLiteral())]);
    }
  }

  /** `q` is silent and at the same place as the good state `st`. */
  predicate Shadows(st: State, q: State) {
    st.status == Good && q.status == Good && q.sink.Silent? && !q.overflow && q.next == st.next && q.depth == st.depth
  }

  /** A silent pass does not learn whether a list was left open, and prints nothing that depends on it. */
  predicate SameRegs(r: Regs, s: Regs) { s == r.(open := s.open) }

  /** After a good outcome the shadow is still at the same place. */
  predicate Together(o: Outcome, p: Outcome) { Shadows(o.st, p.st) && !p.returned && SameRegs(o.regs, p.regs) }

  lemma PrintShadow(st: State, q: State, text: string, text': string)
    requires Shadows(st, q)
    ensures Shadows(Print(st, text), Print(q, text'))
  {
  }

  lemma ShownShadow(x: Context, what: What, regs: Regs, s: Regs, st: State, q: State)
    requires Shadows(st, q)
    ensures Shadows(Shown(x, what, regs, st), Shown(x, what, s, q))
  {
  }

  lemma ParseTogether(x: Context, op: Op, st: State, q: State, regs: Regs, s: Regs)
    requires Wf(x, st) && Wf(x, q) && (Takes(op) || op.ParseOptInteger?) && Shadows(st, q) && SameRegs(regs, s) && Fine(Parse(x, op, st, regs).st)
    ensures Together(Parse(x, op, st, regs), Parse(x, op, q, s))
  {
    hide Integer62, OptInteger62, Identifier, HexNibbles;
  }

  lemma HoldsAlike(sym: string, c: Condition, r: Regs, s: Regs)
    requires SameRegs(r, s)
    ensures Holds(sym, c, r) == Holds(sym, c, s)
  {
    hide ParseUint, NibbleBytes;
  }

  lemma DoTogether(x: Context, a: Op, b: Op, st: State, q: State, regs: Regs, s: Regs)
    requires Wf(x, st) && Wf(x, q) && Simple(a) && Simple(b) && AlikeOp(a, b) && Shadows(st, q) && SameRegs(regs, s) && Fine(Do(x, a, st, regs).st)
    ensures Together(Do(x, a, st, regs), Do(x, b, q, s))
  {
    hide Parse, Holds, Alike;
    if a.Check? { HoldsAlike(x.sym, a.condition, regs, s); }
    if a.Str? { PrintShadow(st, q, a.text, b.text); }
    if a.Show? { ShownShadow(x, a.what, regs, s, st, q); }
    if Takes(a) || a.ParseOptInteger? { ParseTogether(x, a, st, q, regs, s); }
  }

  // ------------------------------------------------------------------ the two passes, operation by operation

  lemma FineBefore(x: Context, st: State, st': State)
    requires After(x, st, st') && Fine(st')
    ensures Fine(st) && st.depth == st'.depth
  {
  }

  lemma AlikeParts(a: seq<Op>, b: seq<Op>)
    requires Alike(a, b) && a != []
    ensures b != [] && AlikeOp(a[0], b[0]) && Alike(a[1..], b[1..])
  {
    hide AlikeOp;
  }

  lemma {:induction false} ExecTogether(x: Context, a: seq<Op>, b: seq<Op>, st: State, q: State, regs: Regs, s: Regs)
    requires Wf(x, st) && Wf(x, q) && Sound(a) && Sound(b) && Alike(a, b) && Shadows(st, q) && SameRegs(regs, s) && Fine(Exec(x, a, st, regs).st)
    ensures Together(Exec(x, a, st, regs), Exec(x, b, q, s))
    decreases Budget(st), |x.sym| - st.next, Weight(a), 0
  {
    FineBefore(x, st, Exec(x, a, st, regs).st);
    if a != [] {
      AlikeParts(a, b);
      ConsumesParts(a);
      ConsumesParts(b);
      var o, p := One(x, a[0], st, regs), One(x, b[0], q, s);
      hide Alike, AlikeOp, Sound, SoundOp, Consumes, ConsumesOp, One;
      if !o.returned {
        FineBefore(x, o.st, Exec(x, a[1..], o.st, o.regs).st);
        OneTogether(x, a[0], b[0], st, q, regs, s);
        ExecTogether(x, a[1..], b[1..], o.st, p.st, o.regs, p.regs);
      }
    }
  }

  lemma {:induction false} OneTogether(x: Context, a: Op, b: Op, st: State, q: State, regs: Regs, s: Regs)
    requires Wf(x, st) && Wf(x, q) && SoundOp(a) && SoundOp(b) && AlikeOp(a, b) && Shadows(st, q) && SameRegs(regs, s) && Fine(One(x, a, st, regs).st)
    ensures Together(One(x, a, st, regs), One(x, b, q, s))
    decreases Budget(st), |x.sym| - st.next, WeightOp(a), 2
  {
    hide Do, Nested, Loop, EatLoop, Enter, Back, Bind, Alike, Consumes, ConsumesOp, After;
    if Simple(a) {
      DoTogether(x, a, b, st, q, regs, s);
    } else if a.IfTag? || a.IfEat? || a.Frame? || a.Opens? || a.Quiet? {
      NestedTogether(x, a, b, st, q, regs, s);
    } else if a.Until? {
      LoopTogether(x, a.sep, a.body, st, q, regs, s, 0);
    } else if a.WhileEat? {
      EatLoopTogether(x, a.c, a.body, st, q, regs, s);
    } else if a.Call? {
      EnterTogether(x, a.rule, b.rule, st, q);
    } else if a.Backref? {
      BackTogether(x, a.rule, b.rule, st, q, regs, s);
    } else {
      BindTogether(x, a.body, st, q, regs, s);
    }
  }

  lemma {:induction false} NestedTogether(x: Context, a: Op, b: Op, st: State, q: State, regs: Regs, s: Regs)
    requires Wf(x, st) && Wf(x, q) && SoundOp(a) && SoundOp(b) && AlikeOp(a, b) && Shadows(st, q) && SameRegs(regs, s)
    requires (a.IfTag? || a.IfEat? || a.Frame? || a.Opens? || a.Quiet?) && Fine(Nested(x, a, st, regs).st)
    ensures Together(Nested(x, a, st, regs), Nested(x, b, q, s))
    decreases Budget(st), |x.sym| - st.next, WeightOp(a), 1
  {
    if a.IfEat? {
      EatTogether(x, a, b, st, q, regs, s);
    } else if a.IfTag? {
      TagTogether(x, a, st, q, regs, s);
    } else {
      hide AlikeOp, Alike;
      assert a == b by { SameBody(a, b); }
      BodyTogether(x, a, st, q, regs, s);
    }
  }

  lemma SameBody(a: Op, b: Op)
    requires AlikeOp(a, b) && (a.Frame? || a.Opens? || a.Quiet?)
    ensures a == b
  {
  }

  lemma {:induction false} TagTogether(x: Context, a: Op, st: State, q: State, regs: Regs, s: Regs)
    requires Wf(x, st) && Wf(x, q) && SoundOp(a) && Shadows(st, q) && SameRegs(regs, s) && a.IfTag? && Fine(Nested(x, a, st, regs).st)
    ensures Together(Nested(x, a, st, regs), Nested(x, a, q, s))
    decreases Budget(st), |x.sym| - st.next, WeightOp(a), 0
  {
    hide Exec, Alike, Consumes, ConsumesOp, After;
    var branch := if regs.tag == a.c then a.yes else a.no;
    AlikeSelf(branch);
    ExecTogether(x, branch, branch, st, q, regs, s);
  }

  lemma {:induction false} EatTogether(x: Context, a: Op, b: Op, st: State, q: State, regs: Regs, s: Regs)
    requires Wf(x, st) && Wf(x, q) && SoundOp(a) && SoundOp(b) && AlikeOp(a, b) && Shadows(st, q) && SameRegs(regs, s)
    requires a.IfEat? && Fine(Nested(x, a, st, regs).st)
    ensures Together(Nested(x, a, st, regs), Nested(x, b, q, s))
    decreases Budget(st), |x.sym| - st.next, WeightOp(a), 0
  {
    hide Exec, Alike, Consumes, ConsumesOp, After;
    AlikeSelf(a.yes);
    AlikeSelf(a.no);
    if Eats(x.sym, st.next, a.c) {
      ExecTogether(x, a.yes, b.yes, st.(next := st.next + 1), q.(next := q.next + 1), regs, s);
    } else {
      ExecTogether(x, a.no, b.no, st, q, regs, s);
    }
  }

  lemma {:induction false} BodyTogether(x: Context, a: Op, st: State, q: State, regs: Regs, s: Regs)
    requires Wf(x, st) && Wf(x, q) && SoundOp(a) && Shadows(st, q) && SameRegs(regs, s)
    requires (a.Frame? || a.Opens? || a.Quiet?) && Fine(Nested(x, a, st, regs).st)
    ensures Together(Nested(x, a, st, regs), Nested(x, a, q, s))
    decreases Budget(st), |x.sym| - st.next, WeightOp(a), 0
  {
    hide Exec, Alike, Consumes, ConsumesOp, After;
    AlikeSelf(a.body);
    if a.Quiet? {
      ExecTogether(x, a.body, a.body, st.(sink := Silent), q.(sink := Silent), regs, s);
    } else {
      ExecTogether(x, a.body, a.body, st, q, NoRegs(), NoRegs());
    }
  }

  lemma {:induction false} LoopTogether(x: Context, sep: string, body: seq<Op>, st: State, q: State, regs: Regs, s: Regs, count: nat)
    requires Wf(x, st) && Wf(x, q) && Sound(body) && Consumes(body) && Shadows(st, q) && SameRegs(regs, s) && Fine(Loop(x, sep, body, st, regs, count).st)
    ensures Together(Loop(x, sep, body, st, regs, count), Loop(x, sep, body, q, s, count))
    decreases Budget(st), |x.sym| - st.next, Weight(body), 1
  {
    hide *;
    LoopFine(x, sep, body, st, regs, count);
    ShadowFacts(st, q);
    LoopUnfolds(x, sep, body, st, regs, count);
    LoopUnfolds(x, sep, body, q, s, count);
    if Eats(x.sym, st.next, 'E') {
      EndsTogether(st, q, regs, s, count);
    } else {
      var st1, q1 := Spaced(st, sep, count), Spaced(q, sep, count);
      SpacedTogether(x, st, q, sep, count);
      AlikeSelf(body);
      var o, p := Exec(x, body, st1, regs), Exec(x, body, q1, s);
      ExecMoves(x, body, st1, regs);
      ExecMoves(x, body, q1, s);
      ExecTogether(x, body, body, st1, q1, regs, s);
      TogetherFacts(o, p);
      LoopTogether(x, sep, body, o.st, p.st, o.regs, p.regs, count + 1);
    }
  }

  lemma LoopFine(x: Context, sep: string, body: seq<Op>, st: State, regs: Regs, count: nat)
    requires Wf(x, st) && Sound(body) && Consumes(body) && Fine(Loop(x, sep, body, st, regs, count).st)
    ensures Fine(st)
  {
    hide Loop, Sound, Consumes;
  }

  lemma ShadowFacts(st: State, q: State)
    requires Shadows(st, q)
    ensures q.next == st.next && Fine(q)
  {
  }

  lemma EndsTogether(st: State, q: State, regs: Regs, s: Regs, count: nat)
    requires Shadows(st, q) && SameRegs(regs, s)
    ensures Together(Outcome(st.(next := st.next + 1), regs.(count := count), false), Outcome(q.(next := q.next + 1), s.(count := count), false))
  {
  }

  lemma TogetherFacts(o: Outcome, p: Outcome)
    requires Together(o, p)
    ensures Shadows(o.st, p.st) && SameRegs(o.regs, p.regs) && !p.returned && Fine(p.st)
  {
  }

  /** A list that goes well moves on and comes back to its depth. */
  lemma ExecMoves(x: Context, body: seq<Op>, st: State, regs: Regs)
    requires Wf(x, st) && Sound(body) && Consumes(body)
    ensures var o := Exec(x, body, st, regs); Wf(x, o.st) && (Fine(o.st) ==> !o.returned && Budget(o.st) == Budget(st) && st.next < o.st.next <= |x.sym|)
  {
    hide Exec, Sound, Consumes;
  }

  lemma SpacedTogether(x: Context, st: State, q: State, sep: string, count: nat)
    requires Wf(x, st) && Shadows(st, q)
    ensures Shadows(Spaced(st, sep, count), Spaced(q, sep, count)) && Spaced(st, sep, count).next == st.next
    ensures Budget(Spaced(st, sep, count)) == Budget(st)
  {
    PrintAfter(x, st, sep);
    PrintShadow(st, q, sep, sep);
  }

  lemma {:induction false} EatLoopTogether(x: Context, c: char, body: seq<Op>, st: State, q: State, regs: Regs, s: Regs)
    requires Wf(x, st) && Wf(x, q) && Sound(body) && Shadows(st, q) && SameRegs(regs, s) && Fine(EatLoop(x, c, body, st, regs).st)
    ensures Together(EatLoop(x, c, body, st, regs), EatLoop(x, c, body, q, s))
    decreases Budget(st), |x.sym| - st.next, Weight(body), 1
  {
    hide Exec, Sound, Consumes, Alike;
    FineBefore(x, st, EatLoop(x, c, body, st, regs).st);
    if Eats(x.sym, st.next, c) {
      var st1, q1 := st.(next := st.next + 1), q.(next := q.next + 1);
      AlikeSelf(body);
      var o, p := Exec(x, body, st1, regs), Exec(x, body, q1, s);
      ExecTogether(x, body, body, st1, q1, regs, s);
      EatLoopTogether(x, c, body, o.st, p.st, o.regs, p.regs);
    }
  }

  /** Behind a back-reference both passes go on at the same place, whatever the target holds. */
  lemma BackTogether(x: Context, a: Rule, b: Rule, st: State, q: State, regs: Regs, s: Regs)
    requires Wf(x, st) && Wf(x, q) && Shadows(st, q) && SameRegs(regs, s) && Fine(Back(x, a, st, regs).st)
    ensures Together(Back(x, a, st, regs), Back(x, b, q, s))
  {
    hide Follow, Integer62;
  }

  lemma {:induction false} BindTogether(x: Context, body: seq<Op>, st: State, q: State, regs: Regs, s: Regs)
    requires Wf(x, st) && Wf(x, q) && Sound(body) && Shadows(st, q) && Fine(Bind(x, body, st, regs))
    ensures Shadows(Bind(x, body, st, regs), Bind(x, body, q, s))
    decreases Budget(st), |x.sym| - st.next, Weight(body), 1
  {
    var n := OptInteger62(x.sym, st.next, 'G');
    if n.Number? {
      var past, past' := st.(next := n.next), q.(next := n.next);
      AlikeSelf(body);
      if st.sink.Silent? {
        ExecTogether(x, body, body, past, past', NoRegs(), NoRegs());
      } else {
        ShownAfter(x, BinderNames, regs.(number := n.value), past);
        var st1 := Shown(x, BinderNames, regs.(number := n.value), past);
        hide Exec, Sound, Consumes, Alike, Shown, OptInteger62;
        ExecTogether(x, body, body, st1.(lifetimes := st1.lifetimes + n.value), past', NoRegs(), NoRegs());
      }
    }
  }

  lemma LeftTogether(o: Outcome, p: Outcome)
    requires Fine(Left(o)) && (o.returned ==> !Fine(o.st)) && Together(o, p)
    ensures Shadows(Left(o), Left(p))
  {
  }

  lemma {:induction false} EnterTogether(x: Context, a: Rule, b: Rule, st: State, q: State)
    requires Wf(x, st) && Wf(x, q) && !a.Generics? && !b.Generics? && AlikeRule(a, b) && Shadows(st, q) && Fine(Enter(x, a, st))
    ensures Shadows(Enter(x, a, st), Enter(x, b, q))
    decreases Budget(st), |x.sym| - st.next, 0, 1
  {
    FineBefore(x, st, Enter(x, a, st));
    hide EnterPath, EnterConst, EnterType;
    if a.Path? {
      PathTogether(x, a.inValue, b.inValue, st, q);
    } else if a.Const? {
      ConstTogether(x, a.inValue, b.inValue, st, q);
    } else {
      TypeTogether(x, st, q);
    }
  }

  lemma {:induction false} PathTogether(x: Context, v: bool, w: bool, st: State, q: State)
    requires Wf(x, st) && Wf(x, q) && Shadows(st, q) && Fine(EnterPath(x, v, st))
    ensures Shadows(EnterPath(x, v, st), EnterPath(x, w, q))
    decreases Budget(st), |x.sym| - st.next, 0, 0
  {
    hide PathOps, Entered;
    if st.next < |x.sym| && st.depth < MAX_DEPTH {
      PathSound(x.sym[st.next], v);
      PathSound(x.sym[st.next], w);
      PathAlike(x.sym[st.next], v, w);
      EnteredTogether(x, PathOps(x.sym[st.next], v), PathOps(x.sym[st.next], w), st, q);
    }
  }

  lemma {:induction false} ConstTogether(x: Context, v: bool, w: bool, st: State, q: State)
    requires Wf(x, st) && Wf(x, q) && Shadows(st, q) && Fine(EnterConst(x, v, st))
    ensures Shadows(EnterConst(x, v, st), EnterConst(x, w, q))
    decreases Budget(st), |x.sym| - st.next, 0, 0
  {
    hide ConstOps, Entered;
    if st.next < |x.sym| && st.depth < MAX_DEPTH {
      ConstSound(x.sym[st.next], v);
      ConstSound(x.sym[st.next], w);
      ConstAlike(x.sym[st.next], v, w);
      EnteredTogether(x, ConstOps(x.sym[st.next], v), ConstOps(x.sym[st.next], w), st, q);
    }
  }

  lemma {:induction false} TypeTogether(x: Context, st: State, q: State)
    requires Wf(x, st) && Wf(x, q) && Shadows(st, q) && Fine(EnterType(x, st))
    ensures Shadows(EnterType(x, st), EnterType(x, q))
    decreases Budget(st), |x.sym| - st.next, 0, 0
  {
    hide TypeOps, Entered, IsBasicType;
    if st.next < |x.sym| && st.depth < MAX_DEPTH && !IsBasicType(x.sym[st.next]) {
      var tag := x.sym[st.next];
      if TypeOps(tag).Some? {
        TypeSound(tag);
        AlikeSelf(TypeOps(tag).value);
        EnteredTogether(x, TypeOps(tag).value, TypeOps(tag).value, st, q);
      } else {
        hide Enter;
        EnterTogether(x, Path(false), Path(false), st.(depth := st.depth + 1), q.(depth := q.depth + 1));
      }
    }
  }

  lemma {:induction false} EnteredTogether(x: Context, a: seq<Op>, b: seq<Op>, st: State, q: State)
    requires Wf(x, st) && Wf(x, q) && Sound(a) && Sound(b) && Alike(a, b) && Shadows(st, q) && st.depth < MAX_DEPTH && st.next < |x.sym|
    requires Fine(Entered(x, a, st))
    ensures Shadows(Entered(x, a, st), Entered(x, b, q))
    decreases Budget(st.(depth := st.depth + 1)), |x.sym| - st.next, Weight(a), 1
  {
    hide Exec, Sound, Consumes, Alike;
    var inner, inner' := st.(next := st.next + 1, depth := st.depth + 1), q.(next := q.next + 1, depth := q.depth + 1);
    var o, p := Exec(x, a, inner, NoRegs()), Exec(x, b, inner', NoRegs());
    ExecTogether(x, a, b, inner, inner', NoRegs(), NoRegs());
    LeftTogether(o, p);
  }

  // ------------------------------------------------------------------ demangling a symbol

  function Start(sink: Sink): State { State(0, 0, Good, sink, 0, false) }

  /** `try_parse_path` from the start of the symbol: the pass that accepts it and finds its end. */
  function ParsedPath(x: Context): State { Enter(x, Path(false), Start(Silent)) }

  /** `rust_demangle_v0_display_demangle`: the pass that prints it into a buffer of the given room. */
  function PrintedPath(x: Context, room: nat): State { Enter(x, Path(true), Start(Sink("", room))) }

  /** A printing pass that ends well ends where the silent pass ended, for every symbol and every way to show its parts. */
  lemma PassesAgree(x: Context, room: nat)
    requires Fine(PrintedPath(x, room))
    ensures Fine(ParsedPath(x)) && ParsedPath(x).next == PrintedPath(x, room).next && ParsedPath(x).depth == PrintedPath(x, room).depth == 0
  {
    hide Enter;
    EnterTogether(x, Path(true), Path(false), Start(Sink("", room)), Start(Silent));
  }

  /** The silent pass cannot overflow; the printing pass fits its buffer. */
  lemma OutputFits(x: Context, room: nat)
    ensures !ParsedPath(x).overflow && ParsedPath(x).sink.Silent?
    ensures PrintedPath(x, room).sink.Sink? && |PrintedPath(x, room).sink.text| + PrintedPath(x, room).sink.room == room
  {
    hide Enter;
  }
}

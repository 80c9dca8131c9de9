/** The functions that print trait objects, given what the functions they call do. */
module RustTraitPhrases {
  import opened Bytes
  import opened RustLexer
  import opened RustSyntax
  import opened RustPlaces
  import opened RustPrinter
  import opened RustInterpreter
  import opened RustText
  import opened RustTokens
  import opened RustSteps
  import opened RustPhrases
  import opened RustTypePhrases

  /** The list reads `k` characters, prints `u` and, when it prints, says whether it left brackets open. */
  predicate Leaves(x: Context, ops: seq<Op>, b: State, k: nat, u: string, open: bool) {
    Goes(x, ops, b, NoRegs(), k, u) && (b.sink.Sink? ==> Exec(x, ops, b, NoRegs()).regs.open == open)
  }

  lemma LeavesIs(x: Context, ops: seq<Op>, b: State, k: nat, u: string, open: bool, r: Regs)
    requires Live(x, b) && Sound(ops) && Exec(x, ops, b, NoRegs()) == Outcome(Adv(b, k, u), r, false) && (b.sink.Sink? ==> r.open == open)
    ensures Leaves(x, ops, b, k, u, open)
  {
    hide Ok, After, SinkAfter, Consumes, Exec, Sound, Wf, Fine, Adv, NoRegs;
  }

  lemma LeavesTo(x: Context, ops: seq<Op>, b: State, k: nat, u: string, open: bool) returns (r: Regs)
    requires Leaves(x, ops, b, k, u, open)
    ensures Live(x, b) && Sound(ops) && Exec(x, ops, b, NoRegs()) == Outcome(Adv(b, k, u), r, false) && (b.sink.Sink? ==> r.open == open)
  {
    hide Ok, After, SinkAfter, Consumes, Exec, Sound, Wf, Fine, Adv, NoRegs;
    r := Exec(x, ops, b, NoRegs()).regs;
  }

  // ------------------------------------------------------------------ the path of a trait

  function TraitOp(): Op { IfEat('B', [Backref(Generics)], [OpenPath()] + []) }

  function OpenOps(): seq<Op> { [Call(Path(false))] + ([Str("<")] + ([Until(", ", [Frame(GenericArg())])] + ([Take(IsOpen)] + []))) }

  lemma GenericsShape()
    ensures GenericsOps() == [TraitOp()] + [] && OpenPath() == IfEat('I', OpenOps(), [Call(Path(false))])
    ensures Sound(GenericsOps()) && Sound(OpenOps()) && Sound([Call(Path(false))]) && Sound([Backref(Generics)]) && Sound([OpenPath()] + [])
  {
    hide Consumes, ConsumesOp;
    GenericsSound();
    OpenPathSound();
    OpenShape();
    OpenSound();
    hide OpenPath;
    assert [OpenPath()] + [] == [OpenPath()];
    SingleSound(OpenPath());
    CallSound(Path(false));
    RefSound(Generics);
  }

  lemma OpenShape()
    ensures OpenPath() == IfEat('I', OpenOps(), [Call(Path(false))])
  {
    hide GenericArg;
    assert OpenOps() == [Call(Path(false)), Str("<"), Until(", ", [Frame(GenericArg())]), Take(IsOpen)];
  }

  lemma OpenSound()
    ensures Sound(OpenOps())
  {
    hide Consumes;
    OpenShape();
    OpenPathSound();
    hide OpenOps;
  }

  /** A trait without parameters. */
  lemma PlainTraitRuns(x: Context, b: State, k: nat, u: string)
    requires Live(x, b) && !Eats(x.sym, b.next, 'B') && !Eats(x.sym, b.next, 'I') && Roomy(b, |u|) && Enter(x, Path(false), b) == Adv(b, k, u)
    ensures Leaves(x, GenericsOps(), b, k, u, false)
  {
    hide Ok, After, SinkAfter, Consumes, ConsumesOp, SoundOp, Sound, Exec, Enter, Wf, Fine, Adv, GenericsOps, OpenPath, OpenOps, NoRegs, Leaves;
    GenericsShape();
    NotOpen();
    AdvNone(b);
    CallAlone(x, Path(false), b, NoRegs(), k, u);
    StepUneaten(x, b, 0, "", OpenPath(), [], NoRegs(), k, u, NoRegs());
    ExecNone(x, Adv(b, k, u), NoRegs());
    StepUneaten(x, b, 0, "", TraitOp(), [], NoRegs(), k, u, NoRegs());
    LeavesIs(x, GenericsOps(), b, k, u, false, NoRegs());
  }

  /** A trait with parameters, whose bracket stays open. */
  lemma OpenTraitRuns(x: Context, b: State, k: nat, u: string, k': nat, u': string, r: Regs)
    requires Live(x, b) && Eats(x.sym, b.next, 'I') && Roomy(b, |u| + |u'| + 1) && Sound([Frame(GenericArg())]) && Consumes([Frame(GenericArg())])
    requires var s := Adv(b, 1, ""); Wf(x, s) && Enter(x, Path(false), s) == Adv(s, k, u)
    requires var s := Adv(b, 1 + k, u + "<"); Wf(x, s) && Loop(x, ", ", [Frame(GenericArg())], s, NoRegs(), 0) == Outcome(Adv(s, k', u'), r, false)
    ensures Leaves(x, GenericsOps(), b, 1 + k + k', u + "<" + u', true)
  {
    hide Ok, After, SinkAfter, Consumes, ConsumesOp, SoundOp, Sound, Exec, Enter, Loop, Wf, Fine, Adv, GenericsOps, OpenPath,
         NoRegs, Leaves, GenericArg;
    GenericsShape();
    AdvNone(b);
    AfterFirst(x, b);
    var list, end := Until(", ", [Frame(GenericArg())]), [Take(IsOpen)] + [];
    StepCall(x, b, 1, "", Path(false), [Str("<")] + ([list] + end), NoRegs(), k, u);
    assert "" + u == u;
    StepStr(x, b, 1 + k, u, "<", [list] + end, NoRegs());
    StepUntil(x, b, 1 + k, u + "<", list, end, NoRegs(), k', u', r);
    var m, w, r' := 1 + k + k', u + "<" + u', r.(open := true);
    StepTake(x, b, m, w, IsOpen, [], r);
    ExecNone(x, Adv(b, m, w), r');
    StepEaten(x, b, 0, "", OpenPath(), [], NoRegs(), m, w, r');
    ExecNone(x, Adv(b, m, w), r');
    StepUneaten(x, b, 0, "", TraitOp(), [], NoRegs(), m, w, r');
    LeavesIs(x, GenericsOps(), b, m, w, true, r');
  }

  /** A back-reference to the path of a trait. */
  lemma TraitRefRuns(x: Context, b: State, at: nat, n: nat, u: string, open: bool)
    requires Live(x, b) && b.depth < MAX_DEPTH && at < b.next && FitsNumber(at) && TextAt(x.sym, b.next, "B" + Encode62(at)) && Roomy(b, |u|)
    requires b.sink.Sink? ==> Leaves(x, GenericsOps(), b.(next := at, depth := b.depth + 1), n, u, open)
    ensures Leaves(x, GenericsOps(), b, 1 + |Encode62(at)|, u, open)
  {
    hide Ok, After, SinkAfter, Consumes, ConsumesOp, SoundOp, Sound, Exec, Wf, GenericsOps, OpenPath, OpenOps, NoRegs, Leaves,
         TextAt, Encode62, FitsNumber, Back, Follow;
    GenericsShape();
    NotOpen();
    Splits(x.sym, b.next, "B", Encode62(at));
    FirstIs(x.sym, b.next, "B");
    AfterFirst(x, b);
    AdvNone(b);
    var s, r := Adv(b, 1, ""), NoRegs().(open := if b.sink.Sink? then open else false);
    if b.sink.Sink? {
      AdvFirst(b);
      FollowTrait(x, b.(next := at, depth := b.depth + 1), n, u, open);
    }
    AdvRoom(b, 1, "", |u|);
    BackIs(x, Generics, s, NoRegs(), at, u, r);
    AdvAdv(b, 1, "", |Encode62(at)|, u);
    assert "" + u == u;
    var m := 1 + |Encode62(at)|;
    RefAlone(x, s, at, u, r);
    StepEaten(x, b, 0, "", TraitOp(), [], NoRegs(), m, u, r);
    ExecNone(x, Adv(b, m, u), r);
    LeavesIs(x, GenericsOps(), b, m, u, open, r);
  }

  lemma AdvFirst(b: State)
    requires b.sink.Sink?
    ensures Adv(b, 1, "") == b.(next := b.next + 1)
  {
    assert b.sink.text + "" == b.sink.text;
  }

  lemma RefAlone(x: Context, s: State, at: nat, u: string, r: Regs)
    requires Live(x, s) && Back(x, Generics, s, NoRegs()) == Outcome(Adv(s, |Encode62(at)|, u), r, false)
    ensures Sound([Backref(Generics)]) && Live(x, Adv(s, |Encode62(at)|, u)) && Exec(x, [Backref(Generics)], s, NoRegs()) == Outcome(Adv(s, |Encode62(at)|, u), r, false)
  {
    hide Ok, After, SinkAfter, Consumes, ConsumesOp, SoundOp, Sound, Exec, Wf, Fine, NoRegs, Encode62, Back;
    RefSound(Generics);
    assert [Backref(Generics)] == [Backref(Generics)] + [];
    OneBack(x, Generics, s, NoRegs());
    ExecStep(x, Backref(Generics), [], s, NoRegs(), Adv(s, |Encode62(at)|, u), r);
    FineAdv(s, |Encode62(at)|, u);
    ExecNone(x, Adv(s, |Encode62(at)|, u), r);
  }

  lemma FollowTrait(x: Context, st: State, n: nat, u: string, open: bool)
    requires Leaves(x, GenericsOps(), st, n, u, open)
    ensures Wf(x, st)
    ensures var o := Follow(x, Generics, st); o.st == Adv(st, n, u) && (st.sink.Sink? ==> o.regs.open == open)
  {
    hide Ok, After, SinkAfter, Consumes, Exec, Sound, Fine, Adv, GenericsOps, NoRegs;
    GenericsSound();
  }

  // ------------------------------------------------------------------ associated types

  function OpeningText(open: bool): string { if open then ", " else "<" }

  lemma AssocShape()
    ensures AssocType() == [Show(Opening)] + ([Take(IsOpen)] + ([ParseIdent] + ([Show(IdentName)] + ([Str(" = ")] + ([Call(Type)] + [])))))
    ensures Sound(AssocType())
  {
  }

  lemma OpeningIs(sym: string, full: bool, r: Regs, l: nat)
    ensures Text(sym, full, Opening, r, l) == Piece(OpeningText(r.open), 0) && Text(sym, full, Closing, r, l) == Piece(if r.open then ">" else "", 0)
  {
  }

  lemma AssocRuns(x: Context, full: bool, b: State, r: Regs, open: bool, name: Name, k: nat, u: string) returns (r': Regs)
    requires IsSymbol(x, full) && Live(x, b) && (b.sink.Sink? ==> r.open == open) && Stands(x.sym, b.next, MangleName(name)) && FitsName(name)
    requires Roomy(b, |OpeningText(open)| + |RenderName(name)| + 3 + |u|)
    requires var s := Adv(b, |MangleName(name)|, OpeningText(open) + RenderName(name) + " = "); Wf(x, s) && Enter(x, Type, s) == Adv(s, k, u)
    ensures Sound(AssocType()) && r'.open
    ensures Exec(x, AssocType(), b, r) == Outcome(Adv(b, |MangleName(name)| + k, OpeningText(open) + RenderName(name) + " = " + u), r', false)
  {
    hide Ok, After, SinkAfter, Consumes, ConsumesOp, SoundOp, Sound, Exec, Enter, Wf, Fine, Adv, AssocType, IsSymbol, Stands,
         MangleName, RenderName, FitsName, Text, Holding;
    AssocShape();
    AdvNone(b);
    var w, m := OpeningText(open), |MangleName(name)|;
    var call := [Call(Type)] + [];
    var named := [ParseIdent] + ([Show(IdentName)] + ([Str(" = ")] + call));
    OpeningIs(x.sym, full, r, b.lifetimes);
    StepText(x, full, b, 0, "", Opening, w, [Take(IsOpen)] + named, r);
    assert "" + w == w;
    StepTake(x, b, 0, w, IsOpen, named, r);
    var r1 := r.(open := true);
    var i := StepIdent(x, b, 0, w, name, [Show(IdentName)] + ([Str(" = ")] + call), r1);
    r' := r1.(ident := i);
    StepName(x, full, b, m, w, name, [Str(" = ")] + call, r');
    StepStr(x, b, m, w + RenderName(name), " = ", call, r');
    StepCall(x, b, m, w + RenderName(name) + " = ", Type, [], r', k, u);
    ExecNone(x, Adv(b, m + k, w + RenderName(name) + " = " + u), r');
  }

  lemma EatLoopUnfolds(x: Context, c: char, body: seq<Op>, st: State, regs: Regs)
    requires Live(x, st) && Sound(body)
    ensures Eats(x.sym, st.next, c) ==> Wf(x, st.(next := st.next + 1))
    ensures EatLoop(x, c, body, st, regs) ==
      if !Eats(x.sym, st.next, c) then Outcome(st, regs, false)
      else
        var o := Exec(x, body, st.(next := st.next + 1), regs);
        if o.returned || !Fine(o.st) then Outcome(o.st, regs, o.returned) else EatLoop(x, c, body, o.st, o.regs)
  {
    hide Exec, Sound, Ok;
  }

  /** One more associated type. */
  lemma EatLoopGoes(x: Context, c: char, body: seq<Op>, st: State, regs: Regs, k: nat, u: string, r: Regs, k': nat, u': string, r': Regs)
    requires Live(x, st) && Sound(body) && Eats(x.sym, st.next, c) && Roomy(st, |u| + |u'|)
    requires var s := Adv(st, 1, ""); Wf(x, s) && Exec(x, body, s, regs) == Outcome(Adv(s, k, u), r, false)
    requires var s := Adv(st, 1 + k, u); Wf(x, s) && EatLoop(x, c, body, s, r) == Outcome(Adv(s, k', u'), r', false)
    ensures EatLoop(x, c, body, st, regs) == Outcome(Adv(st, 1 + k + k', u + u'), r', false)
  {
    hide Ok, After, SinkAfter, Exec, EatLoop, Sound, Wf, Adv;
    EatLoopUnfolds(x, c, body, st, regs);
    AdvNext(st);
    AdvAdv(st, 1, "", k, u);
    assert "" + u == u;
    AdvAdv(st, 1 + k, u, k', u');
    FineAdv(st, 1 + k, u);
  }

  lemma AdvNext(st: State)
    ensures Adv(st, 1, "") == st.(next := st.next + 1)
  {
    if st.sink.Sink? { assert st.sink.text + "" == st.sink.text; }
  }

  lemma OneEatLoop(x: Context, c: char, body: seq<Op>, st: State, r: Regs)
    requires Live(x, st) && Sound(body)
    ensures One(x, WhileEat(c, body), st, r) == EatLoop(x, c, body, st, r)
  {
    hide EatLoop, Do, Sound;
  }

  // ------------------------------------------------------------------ a trait with its associated types

  lemma DynShape()
    ensures DynTrait() == [Opens(GenericsOps())] + ([WhileEat('p', AssocType())] + ([Show(Closing)] + []))
  {
    hide GenericsOps, AssocType;
  }

  lemma DynSound()
    ensures Sound(DynTrait()) && Consumes([Frame(DynTrait())]) && Sound([Frame(DynTrait())])
    ensures SoundOp(Opens(GenericsOps())) && SoundOp(WhileEat('p', AssocType())) && Sound(AssocType()) && Sound(GenericsOps())
  {
    hide AssocType;
    GenericsSound();
    AssocShape();
    hide GenericsOps, Consumes;
    assert SoundOp(WhileEat('p', AssocType()));
    assert SoundOp(Opens(GenericsOps()));
    DynShape();
    DynBodySound();
    DynListSound();
  }

  lemma DynBodySound()
    requires SoundOp(WhileEat('p', AssocType())) && SoundOp(Opens(GenericsOps()))
    ensures Sound(DynTrait())
  {
    hide AssocType, GenericsOps;
  }

  lemma DynListSound()
    requires Sound(DynTrait())
    ensures Consumes([Frame(DynTrait())]) && Sound([Frame(DynTrait())])
  {
    GenericsSound();
    hide GenericsOps;
    assert ConsumesOp(Opens(GenericsOps()));
    DynTraitConsumes();
    hide DynTrait;
    FrameListSound(DynTrait());
  }

  /** `open` after the associated types, and the bracket that closes them. */
  lemma BoundRuns(x: Context, full: bool, b: State, k: nat, u: string, open: bool, k': nat, u': string, open': bool)
    requires IsSymbol(x, full) && Leaves(x, GenericsOps(), b, k, u, open) && Sound(AssocType()) && Roomy(b, |u| + |u'| + 1)
    requires forall r0: Regs | b.sink.Sink? ==> r0.open == open ::
      BindingsGo(x, Adv(b, k, u), r0, k', u', open')
    ensures Goes(x, DynTrait(), b, NoRegs(), k + k', u + u' + (if open' then ">" else ""))
  {
    hide Ok, After, SinkAfter, Consumes, ConsumesOp, SoundOp, Sound, Exec, Wf, Fine, Adv, AssocType, GenericsOps, IsSymbol, Text,
         Leaves, Goes, NoRegs, DynTrait, EatLoop;
    DynSound();
    DynShape();
    var end := [Show(Closing)] + [];
    var more := [WhileEat('p', AssocType())] + end;
    AdvNone(b);
    var r1 := LeavesTo(x, GenericsOps(), b, k, u, open);
    var r2 := NoRegs().(open := r1.open);
    StepOpens(x, b, GenericsOps(), more, k, u, r1);
    assert BindingsGo(x, Adv(b, k, u), r2, k', u', open');
    var r3 := EatLoop(x, 'p', AssocType(), Adv(b, k, u), r2).regs;
    StepEatLoop(x, b, k, u, AssocType(), end, r2, k', u', r3);
    OpeningIs(x.sym, full, r3, b.lifetimes);
    var close := if open' then ">" else "";
    AdvSame(b, k, u);
    StepText(x, full, b, k + k', u + u', Closing, close, [], r3);
    ExecNone(x, Adv(b, k + k', u + u' + close), r3);
    GoesIs(x, DynTrait(), b, NoRegs(), k + k', u + u' + close, r3);
  }

  /** The loop over the associated types reads `k` characters and prints `u`. */
  predicate BindingsGo(x: Context, s: State, r: Regs, k: nat, u: string, open: bool) {
    && Live(x, s) && Sound(AssocType())
    && var o := EatLoop(x, 'p', AssocType(), s, r);
       o.st == Adv(s, k, u) && !o.returned && (s.sink.Sink? ==> o.regs.open == open)
  }

  lemma StepOpens(x: Context, b: State, body: seq<Op>, rest: seq<Op>, k: nat, u: string, r1: Regs)
    requires Live(x, b) && Sound([Opens(body)] + rest) && Sound(body) && Exec(x, body, b, NoRegs()) == Outcome(Adv(b, k, u), r1, false)
    ensures Sound(rest) && Live(x, Adv(b, k, u)) && Exec(x, [Opens(body)] + rest, b, NoRegs()) == Exec(x, rest, Adv(b, k, u), NoRegs().(open := r1.open))
  {
    hide Ok, After, SinkAfter, Consumes, ConsumesOp, SoundOp, Sound, Exec, Wf, NoRegs;
    SoundFirst(Opens(body), rest);
    OneFrame(x, body, b, NoRegs());
    ExecStep(x, Opens(body), rest, b, NoRegs(), Adv(b, k, u), NoRegs().(open := r1.open));
  }

  lemma StepEatLoop(x: Context, b: State, n: nat, t: string, body: seq<Op>, rest: seq<Op>, r: Regs, k: nat, u: string, r1: Regs)
    requires Live(x, Adv(b, n, t)) && Sound([WhileEat('p', body)] + rest) && Sound(body) && Roomy(b, |t| + |u|)
    requires EatLoop(x, 'p', body, Adv(b, n, t), r) == Outcome(Adv(Adv(b, n, t), k, u), r1, false)
    ensures Sound(rest) && Live(x, Adv(b, n + k, t + u)) && Exec(x, [WhileEat('p', body)] + rest, Adv(b, n, t), r) == Exec(x, rest, Adv(b, n + k, t + u), r1)
  {
    hide Ok, After, SinkAfter, Consumes, ConsumesOp, SoundOp, Sound, Exec, Wf, Fine, Adv, EatLoop;
    SoundFirst(WhileEat('p', body), rest);
    AdvAdv(b, n, t, k, u);
    OneEatLoop(x, 'p', body, Adv(b, n, t), r);
    Step(x, b, n, t, WhileEat('p', body), rest, r, n + k, t + u, r1);
  }

  // ------------------------------------------------------------------ trait objects

  lemma DynTypeShape()
    ensures TypeOps('D').value == [Str("dyn ")] + ([Binder(ObjectBounds())] + ([ObjectLifetime()] + []))
    ensures TypeOps('F').value == [Binder(FunctionType())] + []
    ensures ObjectBounds() == [Until(" + ", [Frame(DynTrait())])] + []
  {
    hide DynTrait, FunctionType, ObjectLifetime;
  }

  function OutlivesText(outlives: nat, bound: nat): string { if outlives == 0 then "" else " + " + RenderLife(outlives, bound) }

  lemma OutlivesIs(outlives: nat, bound: nat)
    ensures LifetimeShown(bound, outlives, true, " + ", "") == OutlivesText(outlives, bound)
  {
    hide RenderLife;
    var w := " + " + RenderLife(outlives, bound);
    assert w + "" == w;
  }

  lemma BoundsRun(x: Context, s: State, k: nat, u: string, r: Regs)
    requires Live(x, s) && Sound([Frame(DynTrait())]) && Consumes([Frame(DynTrait())]) && Roomy(s, |u|)
    requires Loop(x, " + ", [Frame(DynTrait())], s, NoRegs(), 0) == Outcome(Adv(s, k, u), r, false)
    ensures Goes(x, ObjectBounds(), s, NoRegs(), k, u)
  {
    hide Ok, After, SinkAfter, Consumes, ConsumesOp, SoundOp, Sound, Exec, Wf, Fine, Adv, Loop, DynTrait, ObjectBounds, NoRegs,
         Goes, TypeOps, ObjectLifetime, FunctionType;
    DynTraitSound();
    DynTypeShape();
    AdvNone(s);
    StepUntil(x, s, 0, "", Until(" + ", [Frame(DynTrait())]), [], NoRegs(), k, u, r);
    assert "" + u == u;
    ExecNone(x, Adv(s, k, u), r);
    GoesIs(x, ObjectBounds(), s, NoRegs(), k, u, r);
  }

  lemma StepOutlives(x: Context, full: bool, b: State, n: nat, t: string, r: Regs, outlives: nat, bound: nat)
    requires IsSymbol(x, full) && Live(x, Adv(b, n, t)) && Sound([ObjectLifetime()] + []) && TextAt(x.sym, b.next + n, "L" + Encode62(outlives)) && FitsNumber(outlives)
    requires (b.sink.Sink? ==> b.lifetimes == bound && outlives <= bound) && Roomy(b, |t| + |OutlivesText(outlives, bound)|)
    ensures Exec(x, [ObjectLifetime()] + [], Adv(b, n, t), r) == Outcome(Adv(b, n + 1 + |Encode62(outlives)|, t + OutlivesText(outlives, bound)), r.(number := outlives), false)
  {
    hide Ok, After, SinkAfter, Consumes, ConsumesOp, SoundOp, Sound, Exec, Wf, Fine, Adv, IsSymbol, TextAt, Encode62,
         LifetimeShown, OutlivesText, ObjectLifetime, ReferenceLifetime, LifeOps, FitsNumber;
    var op := Lifetime(true, " + ", "");
    ReferenceLifetimeIs();
    LifeSound(op);
    FailSound();
    Splits(x.sym, b.next + n, "L", Encode62(outlives));
    FirstIs(x.sym, b.next + n, "L");
    OneOn(x, b, n, t);
    OutlivesIs(outlives, bound);
    LifeRuns(x, full, b, n + 1, t, op, outlives, bound, r);
    var m, w, r' := n + 1 + |Encode62(outlives)|, t + OutlivesText(outlives, bound), r.(number := outlives);
    StepEaten(x, b, n, t, ObjectLifetime(), [], r, m, w, r');
    ExecNone(x, Adv(b, m, w), r');
  }

  lemma FailSound()
    ensures Sound([Fail])
  {
    PlainSound([Fail]);
  }

  lemma DynRuns(x: Context, full: bool, b: State, d: nat, bound: nat, k: nat, u: string, outlives: nat)
    requires IsSymbol(x, full) && Live(x, b) && TextAt(x.sym, b.next, MangleOpt('G', d)) && FitsNumber(d) && !(d == 0 && Eats(x.sym, b.next, 'G'))
    requires Goes(x, ObjectBounds(), Within(b, |MangleOpt('G', d)|, "dyn " + RenderBinder(bound, d), bound + d), NoRegs(), k, u)
    requires TextAt(x.sym, b.next + |MangleOpt('G', d)| + k, "L" + Encode62(outlives)) && FitsNumber(outlives)
    requires b.sink.Sink? ==> b.lifetimes == bound && outlives <= bound
    requires Roomy(b, |"dyn " + RenderBinder(bound, d) + u + OutlivesText(outlives, bound)|)
    ensures var n := |MangleOpt('G', d)| + k + 1 + |Encode62(outlives)|;
      Goes(x, TypeOps('D').value, b, NoRegs(), n, "dyn " + RenderBinder(bound, d) + u + OutlivesText(outlives, bound))
  {
    hide Ok, After, SinkAfter, Consumes, ConsumesOp, SoundOp, Sound, Exec, Wf, Fine, Adv, IsSymbol, TextAt, Encode62,
         OutlivesText, ObjectLifetime, ObjectBounds, FunctionType, DynTrait, MangleOpt, RenderBinder, TypeOps, NoRegs, Goes,
         Within, FitsNumber;
    TypeSound('D');
    DynTypeShape();
    DynTraitSound();
    TypeOpsAre('D');
    AdvNone(b);
    var last := [ObjectLifetime()] + [];
    StepStr(x, b, 0, "", "dyn ", [Binder(ObjectBounds())] + last, NoRegs());
    assert "" + "dyn " == "dyn ";
    StepBinder(x, full, b, 0, "dyn ", ObjectBounds(), last, NoRegs(), d, bound, k, u);
    var m, w := |MangleOpt('G', d)| + k, "dyn " + RenderBinder(bound, d) + u;
    StepOutlives(x, full, b, m, w, NoRegs(), outlives, bound);
    GoesIs(x, TypeOps('D').value, b, NoRegs(), m + 1 + |Encode62(outlives)|, w + OutlivesText(outlives, bound), NoRegs().(number := outlives));
  }

  lemma FnRuns(x: Context, full: bool, b: State, d: nat, bound: nat, k: nat, u: string)
    requires IsSymbol(x, full) && Live(x, b) && TextAt(x.sym, b.next, MangleOpt('G', d)) && FitsNumber(d) && !(d == 0 && Eats(x.sym, b.next, 'G'))
    requires Goes(x, FunctionType(), Within(b, |MangleOpt('G', d)|, RenderBinder(bound, d), bound + d), NoRegs(), k, u)
    requires (b.sink.Sink? ==> b.lifetimes == bound) && Roomy(b, |RenderBinder(bound, d) + u|)
    ensures Goes(x, TypeOps('F').value, b, NoRegs(), |MangleOpt('G', d)| + k, RenderBinder(bound, d) + u)
  {
    hide Ok, After, SinkAfter, Consumes, ConsumesOp, SoundOp, Sound, Exec, Wf, Fine, Adv, IsSymbol, TextAt, ObjectLifetime,
         ObjectBounds, FunctionType, DynTrait, MangleOpt, RenderBinder, TypeOps, NoRegs, Goes, Within, FitsNumber;
    TypeSound('F');
    DynTypeShape();
    FunctionTypeSound();
    TypeOpsAre('F');
    AdvNone(b);
    var w := RenderBinder(bound, d);
    assert "" + w == w;
    StepBinder(x, full, b, 0, "", FunctionType(), [], NoRegs(), d, bound, k, u);
    ExecNone(x, Adv(b, |MangleOpt('G', d)| + k, w + u), NoRegs());
    GoesIs(x, TypeOps('F').value, b, NoRegs(), |MangleOpt('G', d)| + k, w + u, NoRegs());
  }
}

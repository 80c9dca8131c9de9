/** The interpreter of the grammar's operation lists. It terminates on every symbol, in spite of back-references. */
module RustInterpreter {
  import opened Bytes
  import opened RustLexer
  import opened RustPrinter

  /** A piece of output, and the room that must be left behind it: identifiers keep four bytes for every character. */
  datatype Piece = Piece(text: string, slack: nat)

  /** The symbol, and how what was parsed is shown: any function of the place, the local variables and the bound lifetimes. */
  datatype Context = Context(sym: string, shown: (What, Regs, nat) -> Piece)

  datatype Outcome = Outcome(st: State, regs: Regs, returned: bool)

  predicate Fine(st: State) { st.status == Good && !st.overflow }

  predicate Wf(x: Context, st: State) {
    st.next <= |x.sym| && st.depth <= MAX_DEPTH + 1 && (st.status == Good ==> st.depth <= MAX_DEPTH)
  }

  function Put(st: State, p: Piece): State {
    if st.sink.Silent? || st.overflow then st
    else if st.sink.room < |p.text| + p.slack then st.(overflow := true)
    else st.(sink := Sink(st.sink.text + p.text, st.sink.room - |p.text|))
  }

  function Print(st: State, text: string): State { Put(st, Piece(text, 0)) }

  function Shown(x: Context, what: What, regs: Regs, st: State): State { Put(st, x.shown(what, regs, st.lifetimes)) }

  function Message(status: Status): string {
    match status
    case Good => "{unknown error}"
    case Invalid => "{invalid syntax}"
    case Recursed => "{recursion limit reached}"
    case Bug => "{bug}"
  }

  /** The error exit of the `PARSE` and `INVALID` macros. */
  function Broken(st: State, status: Status): State { Print(st, Message(status)).(status := status) }

  function Stop(st: State, regs: Regs, status: Status): Outcome { Outcome(Broken(st, status), regs, true) }

  /** Output is only appended, and never beyond the room there was; a silent pass stays silent. */
  predicate SinkAfter(a: Sink, b: Sink) {
    if a.Silent? then b.Silent? else b.Sink? && a.text <= b.text && |b.text| + b.room == |a.text| + a.room
  }

  /** What a sequence of operations leaves behind in any case. */
  predicate After(x: Context, st: State, st': State) {
    && SinkAfter(st.sink, st'.sink) && (st.sink.Silent? ==> st'.overflow == st.overflow)
    && Wf(x, st') && st.next <= st'.next && st.depth <= st'.depth && (st.overflow ==> st'.overflow)
    && (Fine(st') ==> Fine(st) && st'.depth == st.depth) && (!st'.overflow ==> st'.lifetimes == st.lifetimes)
    && (st.status != Good ==> st'.next == st.next && st'.depth == st.depth && st'.status != Good)
  }

  // ------------------------------------------------------------------ single operations without recursion

  predicate Simple(op: Op) {
    op.Str? || op.Show? || op.Take? || op.StrIfBad? || op.ParseTag? || op.ParseInteger? || op.ParseOptInteger? || op.ParseIdent?
    || op.ParseNamespace? || op.ParseHex? || op.Check? || op.Fail? || op.Lifetime?
  }

  /** Operations that take at least one character when they succeed. */
  predicate Takes(op: Op) {
    op.ParseTag? || op.ParseInteger? || op.ParseIdent? || op.ParseNamespace? || op.ParseHex?
  }

  function ShowLifetime(x: Context, op: Op, st: State, regs: Regs): State
    requires op.Lifetime?
  {
    if st.sink.Silent? || (op.unlessZero && regs.number == 0) then st
    else
      var s1 := Print(st, op.before + "'");
      var s2 := if regs.number <= s1.lifetimes || regs.number == 0 then Shown(x, LifetimeName, regs, s1) else Broken(s1, Invalid);
      Print(s2, op.after)
  }

  /** The `PARSE` operations, once the status is known to be good. */
  function Parse(x: Context, op: Op, st: State, regs: Regs): Outcome
    requires Takes(op) || op.ParseOptInteger?
  {
    match op
    case ParseTag => if st.next < |x.sym| then Outcome(st.(next := st.next + 1), regs.(tag := x.sym[st.next]), false) else Stop(st, regs, Invalid)
    case ParseInteger =>
      var n := Integer62(x.sym, st.next);
      if n.Number? then Outcome(st.(next := n.next), regs.(number := n.value), false) else Stop(st, regs, Invalid)
    case ParseOptInteger(tag) =>
      var n := OptInteger62(x.sym, st.next, tag);
      if n.Number? then Outcome(st.(next := n.next), regs.(number := n.value), false) else Stop(st, regs, Invalid)
    case ParseIdent =>
      var i := Identifier(x.sym, st.next);
      if i.IdentAt? then Outcome(st.(next := i.next), regs.(ident := i.ident), false) else Stop(st, regs, Invalid)
    case ParseNamespace =>
      var c := Peek(x.sym, st.next);
      if st.next < |x.sym| && ('A' <= c <= 'Z' || 'a' <= c <= 'z') then Outcome(st.(next := st.next + 1), regs.(tag := c), false)
      else Stop(st, regs, Invalid)
    case ParseHex =>
      var h := HexNibbles(x.sym, st.next);
      if h.Nibbles? then Outcome(st.(next := h.next), regs.(hexStart := h.start, hexLen := h.len), false) else Stop(st, regs, Invalid)
  }

  function Noted(regs: Regs, note: Note): Regs {
    match note
    case IsOpen => regs.(open := true)
    case IsUnsafe => regs.(isUnsafe := true)
    case HasAbi(abi) => regs.(abi := abi)
  }

  function Do(x: Context, op: Op, st: State, regs: Regs): Outcome
    requires Simple(op)
  {
    match op
    case Str(text) => Outcome(Print(st, text), regs, false)
    case Show(what) => Outcome(Shown(x, what, regs, st), regs, false)
    case Take(note) => Outcome(st, Noted(regs, note), false)
    case StrIfBad(text) => Outcome(if st.status != Good then Print(st, text) else st, regs, false)
    case Check(c) => if Holds(x.sym, c, regs) then Outcome(st, regs, false) else Stop(st, regs, Invalid)
    case Fail => Stop(st, regs, Invalid)
    case Lifetime(_, _, _) => Outcome(ShowLifetime(x, op, st, regs), regs, false)
    case _ => if st.status != Good then Outcome(Print(st, "?"), regs, true) else Parse(x, op, st, regs)
  }

  lemma PrintAfter(x: Context, st: State, text: string)
    requires Wf(x, st)
    ensures After(x, st, Print(st, text)) && Print(st, text).next == st.next && Print(st, text).status == st.status
  {
  }

  lemma ShownAfter(x: Context, what: What, regs: Regs, st: State)
    requires Wf(x, st)
    ensures var st' := Shown(x, what, regs, st); After(x, st, st') && st'.next == st.next && st'.status == st.status
  {
  }

  lemma BrokenAfter(x: Context, st: State, status: Status)
    requires Wf(x, st) && status != Good
    ensures After(x, st, Broken(st, status)) && !Fine(Broken(st, status)) && Broken(st, status).next == st.next
  {
  }

  lemma ParseAfter(x: Context, op: Op, st: State, regs: Regs)
    requires Wf(x, st) && st.status == Good && (Takes(op) || op.ParseOptInteger?)
    ensures var o := Parse(x, op, st, regs); After(x, st, o.st) && (Takes(op) && Fine(o.st) ==> st.next < o.st.next) && (o.returned ==> !Fine(o.st))
  {
    BrokenAfter(x, st, Invalid);
    hide Broken, Integer62, OptInteger62, Identifier, HexNibbles;
  }

  lemma LifetimeAfter(x: Context, op: Op, st: State, regs: Regs)
    requires Wf(x, st) && op.Lifetime?
    ensures After(x, st, ShowLifetime(x, op, st, regs))
  {
    hide Wf, After, Print, Shown, Broken;
    SameAfter(x, st);
    var s1 := Print(st, op.before + "'");
    var s2 := if regs.number <= s1.lifetimes || regs.number == 0 then Shown(x, LifetimeName, regs, s1) else Broken(s1, Invalid);
    PrintAfter(x, st, op.before + "'");
    AfterIsWf(x, st, s1);
    if regs.number <= s1.lifetimes || regs.number == 0 { ShownAfter(x, LifetimeName, regs, s1); } else { BrokenAfter(x, s1, Invalid); }
    AfterIsWf(x, s1, s2);
    PrintAfter(x, s2, op.after);
    AfterTrans(x, s1, s2, Print(s2, op.after));
    AfterTrans(x, st, s1, Print(s2, op.after));
  }

  lemma SameAfter(x: Context, st: State)
    requires Wf(x, st)
    ensures After(x, st, st)
  {
  }

  lemma AfterIsWf(x: Context, st: State, st': State)
    requires After(x, st, st')
    ensures Wf(x, st')
  {
    hide Wf;
  }

  lemma DoAfter(x: Context, op: Op, st: State, regs: Regs)
    requires Wf(x, st) && Simple(op)
    ensures var o := Do(x, op, st, regs); After(x, st, o.st) && (Takes(op) && Fine(o.st) ==> st.next < o.st.next) && (o.returned ==> !Fine(o.st))
  {
    hide Broken, Parse, ShowLifetime;
    BrokenAfter(x, st, Invalid);
    if op.Lifetime? { LifetimeAfter(x, op, st, regs); }
    if st.status == Good && (Takes(op) || op.ParseOptInteger?) { ParseAfter(x, op, st, regs); }
    if op.Str? { PrintAfter(x, st, op.text); }
    if op.Show? { ShownAfter(x, op.what, regs, st); }
  }

  // ------------------------------------------------------------------ shape of operation lists

  /** A list that takes at least one character when it succeeds. */
  predicate Consumes(ops: seq<Op>) { exists i :: 0 <= i < |ops| && ConsumesOp(ops[i]) }

  predicate ConsumesOp(op: Op) {
    Takes(op) || op.Call? || ((op.Frame? || op.Opens?) && Consumes(op.body)) || (op.IfEat? && Consumes(op.no))
  }

  /** Repeated parts consume, and only recursive functions are called. */
  predicate Sound(ops: seq<Op>) { forall i | 0 <= i < |ops| :: SoundOp(ops[i]) }

  predicate SoundOp(op: Op) {
    match op
    case IfTag(_, yes, no) => Sound(yes) && Sound(no)
    case IfEat(_, yes, no) => Sound(yes) && Sound(no)
    case Frame(body) => Sound(body)
    case Opens(body) => Sound(body)
    case Call(rule) => !rule.Generics?
    case Until(_, body) => Sound(body) && Consumes(body)
    case WhileEat(_, body) => Sound(body)
    case Quiet(body) => Sound(body)
    case Binder(body) => Sound(body)
    case _ => true
  }

  function Weight(ops: seq<Op>): nat { if ops == [] then 0 else 1 + WeightOp(ops[0]) + Weight(ops[1..]) }

  function WeightOp(op: Op): nat {
    match op
    case IfTag(_, yes, no) => 1 + Weight(yes) + Weight(no)
    case IfEat(_, yes, no) => 1 + Weight(yes) + Weight(no)
    case Frame(body) => 1 + Weight(body)
    case Opens(body) => 1 + Weight(body)
    case Until(_, body) => 3 + Weight(body)
    case WhileEat(_, body) => 3 + Weight(body)
    case Quiet(body) => 1 + Weight(body)
    case Binder(body) => 1 + Weight(body)
    case _ => 1
  }

  lemma GenericArgSound()
    ensures Sound(GenericArg()) && Consumes(GenericArg())
  {
    var k := IfEat('K', [Call(Const(false))], [Call(Type)]);
    assert ConsumesOp([Call(Type)][0]);
    assert SoundOp(k) && ConsumesOp(k);
    assert ConsumesOp([k][0]);
    assert GenericArg()[0].no == [k];
    assert ConsumesOp(GenericArg()[0]);
  }

  lemma ListSound(op: Op)
    requires SoundOp(op) && ConsumesOp(op)
    ensures SoundOp(Until(", ", [op])) && SoundOp(Until(" + ", [op]))
  {
    assert ConsumesOp([op][0]);
  }

  lemma FrameListSound(body: seq<Op>)
    requires Sound(body) && Consumes(body)
    ensures Sound([Frame(body)]) && Consumes([Frame(body)])
  {
    assert ConsumesOp([Frame(body)][0]);
  }

  lemma GenericArgsSound()
    ensures Sound(GenericArgs()) && SoundOp(Until(", ", [Frame(GenericArg())]))
  {
    GenericArgSound();
    FrameListSound(GenericArg());
    hide GenericArg, Consumes;
  }

  lemma PathSound(tag: char, inValue: bool)
    ensures Sound(PathOps(tag, inValue))
  {
    GenericArgsSound();
    hide GenericArg, GenericArgs, Consumes, ConsumesOp;
    assert SoundOp(Quiet([Call(Path(false))]));
  }

  lemma StructFieldSound()
    ensures SoundOp(Until(", ", [Frame(StructField())]))
  {
    assert ConsumesOp(StructField()[1]);
    assert Sound(StructField());
    FrameListSound(StructField());
    hide StructField;
  }

  lemma PlainSound(ops: seq<Op>)
    requires forall i | 0 <= i < |ops| :: Simple(ops[i])
    ensures Sound(ops)
  {
  }

  lemma LeafConstSound(tag: char)
    ensures Sound(LeafConstOps(tag))
  {
    PlainSound([ParseHex, Show(Numeral(tag))]);
    PlainSound([Str("-")]);
    assert Sound([]);
    hide Consumes, Simple;
  }

  lemma SurroundedSound(before: string, op: Op, after: string)
    requires SoundOp(op)
    ensures Sound([Str(before), op, Str(after)])
  {
  }

  lemma SingleSound(op: Op)
    requires SoundOp(op)
    ensures Sound([op])
  {
  }

  lemma VariantFieldsSound()
    ensures SoundOp(VariantFields())
  {
    StructFieldSound();
    ListSound(Call(Const(true)));
    hide StructField, Consumes, ConsumesOp;
    SurroundedSound(" { ", Until(", ", [Frame(StructField())]), " }");
    SurroundedSound("(", Until(", ", [Call(Const(true))]), ")");
    PlainSound([Fail]);
    hide Sound;
    var s := IfTag('S', [Str(" { "), Until(", ", [Frame(StructField())]), Str(" }")], [Fail]);
    SingleSound(s);
    SingleSound(IfTag('T', [Str("("), Until(", ", [Call(Const(true))]), Str(")")], [s]));
    PlainSound([]);
  }

  lemma ConstSound(tag: char, inValue: bool)
    ensures Sound(ConstOps(tag, inValue))
  {
    LeafConstSound(tag);
    VariantFieldsSound();
    ListSound(Call(Const(true)));
    assert SoundOp(Frame(StringLiteral()));
    hide LeafConstOps, VariantFields, StringLiteral, Consumes;
    if tag == 'R' {
      var open, close := Str(if inValue then "" else "{"), Str(if inValue then "" else "}");
      assert Sound([Frame(StringLiteral())]) && Sound([open, Str("&"), Call(Const(true)), close]);
    }
  }

  lemma OpenPathSound()
    ensures SoundOp(OpenPath()) && ConsumesOp(OpenPath())
  {
    GenericArgsSound();
    hide GenericArg;
    assert ConsumesOp([Call(Path(false))][0]);
    assert Sound([Call(Path(false)), Str("<"), Until(", ", [Frame(GenericArg())]), Take(IsOpen)]);
  }

  lemma GenericsSound()
    ensures Sound(GenericsOps()) && Consumes(GenericsOps())
  {
    OpenPathSound();
    hide OpenPath;
    assert ConsumesOp([OpenPath()][0]);
    assert SoundOp(GenericsOps()[0]) && ConsumesOp(GenericsOps()[0]);
  }

  lemma DynTraitSound()
    ensures Sound(ObjectBounds())
  {
    GenericsSound();
    hide GenericsOps, Consumes;
    assert SoundOp(WhileEat('p', AssocType()));
    assert ConsumesOp(Opens(GenericsOps()));
    assert Sound(DynTrait());
    DynTraitConsumes();
    hide DynTrait;
    ListSound(Frame(DynTrait()));
  }

  lemma DynTraitConsumes()
    requires ConsumesOp(Opens(GenericsOps()))
    ensures Consumes(DynTrait())
  {
    assert DynTrait()[0] == Opens(GenericsOps());
    hide GenericsOps;
  }

  lemma FunctionTypeSound()
    ensures Sound(FunctionType())
  {
    ListSound(Call(Type));
    hide Consumes;
    assert Sound([Take(HasAbi(AbiC))]) && Sound([ParseIdent, Check(IsAbi), Take(HasAbi(AbiNamed))]) && Sound([Take(IsUnsafe)]);
    assert SoundOp(IfEat('C', [Take(HasAbi(AbiC))], [ParseIdent, Check(IsAbi), Take(HasAbi(AbiNamed))]));
    assert SoundOp(FunctionAbi());
    assert SoundOp(IfEat('U', [Take(IsUnsafe)], [])) && SoundOp(IfEat('u', [], [Str(" -> "), Call(Type)]));
  }

  lemma LifetimesSound()
    ensures SoundOp(ReferenceLifetime()) && SoundOp(ObjectLifetime())
  {
    assert Sound([ParseInteger, Lifetime(true, "", " ")]) && Sound([ParseInteger, Lifetime(true, " + ", "")]);
  }

  lemma BindersSound()
    ensures SoundOp(Binder(FunctionType())) && SoundOp(Binder(ObjectBounds()))
  {
    FunctionTypeSound();
    DynTraitSound();
    hide FunctionType, ObjectBounds, Sound;
  }

  lemma TypeSound(tag: char)
    ensures TypeOps(tag).Some? ==> Sound(TypeOps(tag).value)
  {
    LifetimesSound();
    BindersSound();
    ListSound(Call(Type));
    hide FunctionType, ObjectBounds, ReferenceLifetime, ObjectLifetime, Consumes, ConsumesOp;
  }

  // ------------------------------------------------------------------ the interpreter

  /** What an outcome guarantees: an early return is never good, and success of a consuming list moves on. */
  predicate Ok(x: Context, st: State, o: Outcome, consumes: bool) {
    After(x, st, o.st) && (o.returned ==> !Fine(o.st)) && (consumes && Fine(o.st) ==> st.next < o.st.next)
  }

  lemma AfterTrans(x: Context, a: State, b: State, c: State)
    requires After(x, a, b) && After(x, b, c)
    ensures After(x, a, c)
  {
  }

  /** Two steps in a row. */
  lemma OkTrans(x: Context, st: State, mid: State, o: Outcome, first: bool, rest: bool)
    requires After(x, st, mid) && (first && Fine(mid) ==> st.next < mid.next) && Ok(x, mid, o, rest)
    ensures Ok(x, st, o, first || rest)
  {
  }

  lemma ConsumesParts(ops: seq<Op>)
    requires ops != []
    ensures Consumes(ops) ==> ConsumesOp(ops[0]) || Consumes(ops[1..])
    ensures Sound(ops) ==> SoundOp(ops[0]) && Sound(ops[1..])
  {
    if i :| 0 < i < |ops| && ConsumesOp(ops[i]) { assert ops[1..][i - 1] == ops[i]; }
    hide ConsumesOp, SoundOp;
  }

  function Budget(st: State): nat { if st.depth <= MAX_DEPTH + 1 then MAX_DEPTH + 1 - st.depth else 0 }

  /** The end of a recursive function: `printer_pop_depth`, unless it returned early. */
  function Popped(st: State): State { if st.status == Good && st.depth > 0 then st.(depth := st.depth - 1) else st }

  function Left(o: Outcome): State { if o.returned then o.st else Popped(o.st) }

  lemma LeftAfter(x: Context, st: State, inner: State, o: Outcome)
    requires Wf(x, st) && st.status == Good && inner == st.(next := inner.next, depth := st.depth + 1) && st.next <= inner.next
    requires Wf(x, inner) && Ok(x, inner, o, false)
    ensures After(x, st, Left(o)) && inner.next <= Left(o).next
  {
  }

  function Exec(x: Context, ops: seq<Op>, st: State, regs: Regs): (o: Outcome)
    requires Wf(x, st) && Sound(ops)
    ensures Ok(x, st, o, Consumes(ops))
    decreases Budget(st), |x.sym| - st.next, Weight(ops), 0
  {
    if ops == [] || st.overflow then Outcome(st, regs, st.overflow)
    else
      ConsumesParts(ops);
      var o := One(x, ops[0], st, regs);
      if o.returned then o
      else
        var r := Exec(x, ops[1..], o.st, o.regs);
        OkTrans(x, st, o.st, r, ConsumesOp(ops[0]), Consumes(ops[1..]));
        r
  }

  function One(x: Context, op: Op, st: State, regs: Regs): (o: Outcome)
    requires Wf(x, st) && SoundOp(op)
    ensures Ok(x, st, o, ConsumesOp(op))
    decreases Budget(st), |x.sym| - st.next, WeightOp(op), 1
  {
    if Simple(op) then
      DoAfter(x, op, st, regs);
      Do(x, op, st, regs)
    else if op.IfTag? || op.IfEat? || op.Frame? || op.Opens? || op.Quiet? then Nested(x, op, st, regs)
    else if op.Until? then Loop(x, op.sep, op.body, st, regs, 0)
    else if op.WhileEat? then EatLoop(x, op.c, op.body, st, regs)
    else if op.Backref? then Back(x, op.rule, st, regs)
    else
      var st' := if op.Call? then Enter(x, op.rule, st) else Bind(x, op.body, st, regs);
      Came(st', regs)
  }

  /** Operations that run a list of their own. */
  function Nested(x: Context, op: Op, st: State, regs: Regs): (o: Outcome)
    requires Wf(x, st) && SoundOp(op) && (op.IfTag? || op.IfEat? || op.Frame? || op.Opens? || op.Quiet?)
    ensures Ok(x, st, o, ConsumesOp(op))
    decreases Budget(st), |x.sym| - st.next, WeightOp(op), 0
  {
    match op
    case IfTag(c, yes, no) => if regs.tag == c then Exec(x, yes, st, regs) else Exec(x, no, st, regs)
    case IfEat(c, yes, no) =>
      if st.status == Good && Eats(x.sym, st.next, c) then Exec(x, yes, st.(next := st.next + 1), regs) else Exec(x, no, st, regs)
    case Frame(body) =>
      var o := Exec(x, body, st, NoRegs());
      Outcome(o.st, regs, o.st.overflow)
    case Opens(body) =>
      var o := Exec(x, body, st, NoRegs());
      Outcome(o.st, regs.(open := o.regs.open), o.st.overflow)
    case Quiet(body) =>
      var o := Exec(x, body, st.(sink := Silent), regs);
      Outcome(o.st.(sink := st.sink), o.regs, o.returned)
  }

  function Enter(x: Context, rule: Rule, st: State): (r: State)
    requires Wf(x, st) && !rule.Generics?
    ensures After(x, st, r) && (Fine(r) ==> st.next < r.next)
    decreases Budget(st), |x.sym| - st.next, 0, 1
  {
    if st.status != Good then PrintAfter(x, st, "?"); Print(st, "?")
    else if rule.Path? then EnterPath(x, rule.inValue, st)
    else if rule.Type? then EnterType(x, st)
    else EnterConst(x, rule.inValue, st)
  }

  /** `printer_print_path`. */
  function EnterPath(x: Context, inValue: bool, st: State): (r: State)
    requires Wf(x, st) && st.status == Good
    ensures After(x, st, r) && (Fine(r) ==> st.next < r.next)
    decreases Budget(st), |x.sym| - st.next, 0, 0
  {
    if st.depth == MAX_DEPTH then Broken(st.(depth := st.depth + 1), Recursed)
    else if st.next == |x.sym| then Broken(st.(depth := st.depth + 1), Invalid)
    else
      PathSound(x.sym[st.next], inValue);
      Entered(x, PathOps(x.sym[st.next], inValue), st)
  }

  /** One level deeper, behind the tag: the function's own operations. */
  function Entered(x: Context, ops: seq<Op>, st: State): (r: State)
    requires Wf(x, st) && st.status == Good && st.depth < MAX_DEPTH && st.next < |x.sym| && Sound(ops)
    ensures After(x, st, r) && (Fine(r) ==> st.next < r.next)
    decreases Budget(st.(depth := st.depth + 1)), |x.sym| - st.next, Weight(ops), 1
  {
    var inner := st.(next := st.next + 1, depth := st.depth + 1);
    var o := Exec(x, ops, inner, NoRegs());
    LeftAfter(x, st, inner, o);
    Left(o)
  }

  /** `printer_print_const`. */
  function EnterConst(x: Context, inValue: bool, st: State): (r: State)
    requires Wf(x, st) && st.status == Good
    ensures After(x, st, r) && (Fine(r) ==> st.next < r.next)
    decreases Budget(st), |x.sym| - st.next, 0, 0
  {
    if st.next == |x.sym| then Broken(st, Invalid)
    else if st.depth == MAX_DEPTH then Broken(st.(next := st.next + 1, depth := st.depth + 1), Recursed)
    else
      ConstSound(x.sym[st.next], inValue);
      Entered(x, ConstOps(x.sym[st.next], inValue), st)
  }

  /** `printer_print_type`. */
  function EnterType(x: Context, st: State): (r: State)
    requires Wf(x, st) && st.status == Good
    ensures After(x, st, r) && (Fine(r) ==> st.next < r.next)
    decreases Budget(st), |x.sym| - st.next, 0, 0
  {
    if st.next == |x.sym| then Broken(st, Invalid)
    else
      var tag, past := x.sym[st.next], st.(next := st.next + 1);
      if IsBasicType(tag) then
        ShownAfter(x, BasicName, NoRegs().(tag := tag), past);
        Shown(x, BasicName, NoRegs().(tag := tag), past)
      else if st.depth == MAX_DEPTH then Broken(past.(depth := st.depth + 1), Recursed)
      else if TypeOps(tag).None? then
        // back to the tag, so that the path sees it
        Popped(Enter(x, Path(false), st.(depth := st.depth + 1)))
      else
        TypeSound(tag);
        Entered(x, TypeOps(tag).value, st)
  }

  /** `PRINT_SEP_LIST_COUNT`, with `count` elements behind it. */
  function Loop(x: Context, sep: string, body: seq<Op>, st: State, regs: Regs, count: nat): (o: Outcome)
    requires Wf(x, st) && Sound(body) && Consumes(body)
    ensures Ok(x, st, o, false)
    decreases Budget(st), |x.sym| - st.next, Weight(body), 1
  {
    if !Fine(st) then Outcome(st, regs.(count := count), st.overflow)
    else if Eats(x.sym, st.next, 'E') then Outcome(st.(next := st.next + 1), regs.(count := count), false)
    else
      var st1 := if count == 0 then st else Print(st, sep);
      PrintAfter(x, st, sep);
      var o := Exec(x, body, st1, regs);
      if o.returned || !Fine(o.st) then Outcome(o.st, regs, o.returned)
      else
        var r := Loop(x, sep, body, o.st, o.regs, count + 1);
        AfterTrans(x, st, o.st, r.st);
        r
  }

  /** A `while (printer_eat(...))` loop. */
  function EatLoop(x: Context, c: char, body: seq<Op>, st: State, regs: Regs): (o: Outcome)
    requires Wf(x, st) && Sound(body)
    ensures Ok(x, st, o, false)
    decreases Budget(st), |x.sym| - st.next, Weight(body), 1
  {
    if !Fine(st) then Outcome(st, regs, st.overflow)
    else if !Eats(x.sym, st.next, c) then Outcome(st, regs, false)
    else
      var o := Exec(x, body, st.(next := st.next + 1), regs);
      if o.returned || !Fine(o.st) then Outcome(o.st, regs, o.returned)
      else
        var r := EatLoop(x, c, body, o.st, o.regs);
        AfterTrans(x, st, o.st, r.st);
        r
  }

  /** What a called function leaves; an overflow is passed on at once. */
  function Came(st: State, regs: Regs): Outcome { Outcome(st, regs, st.overflow) }

  /** `printer_print_backref`: the target is printed, then parsing goes on behind the reference. */
  function Back(x: Context, rule: Rule, st: State, regs: Regs): (o: Outcome)
    requires Wf(x, st)
    ensures Ok(x, st, o, true)
    decreases Budget(st), |x.sym| - st.next, 0, 1
  {
    if st.status != Good then PrintAfter(x, st, "?"); Came(Print(st, "?"), regs)
    else if st.next == 0 then Came(Broken(st, Bug), regs)
    else
      var n := Integer62(x.sym, st.next);
      if n.NoNumber? then Came(Broken(st, Invalid), regs)
      else
        var past := st.(next := n.next);
        if n.value >= st.next - 1 then Came(Broken(past, Invalid), regs)
        else if st.depth == MAX_DEPTH then Came(Broken(past, Recursed), regs)
        else if st.sink.Silent? then Came(past, regs.(open := false))
        else
          var t := Follow(x, rule, st.(next := n.value, depth := st.depth + 1));
          Came(past.(sink := t.st.sink, lifetimes := t.st.lifetimes, overflow := t.st.overflow), regs.(open := t.regs.open))
  }

  /** The function that a back-reference calls; of its local variables only `open` comes back. */
  function Follow(x: Context, rule: Rule, st: State): (o: Outcome)
    requires Wf(x, st)
    ensures After(x, st, o.st)
    decreases Budget(st), |x.sym| - st.next, Weight(GenericsOps()), 1
  {
    if rule.Generics? then
      GenericsSound();
      Exec(x, GenericsOps(), st, NoRegs())
    else Outcome(Enter(x, rule, st), NoRegs(), false)
  }

  /** `printer_in_binder`. */
  function Bind(x: Context, body: seq<Op>, st: State, regs: Regs): (r: State)
    requires Wf(x, st) && Sound(body)
    ensures After(x, st, r)
    decreases Budget(st), |x.sym| - st.next, Weight(body), 1
  {
    if st.status != Good then PrintAfter(x, st, "?"); Print(st, "?")
    else
      var n := OptInteger62(x.sym, st.next, 'G');
      if n.NoNumber? then Broken(st, Invalid)
      else
        var past := st.(next := n.next);
        if past.sink.Silent? then Exec(x, body, past, NoRegs()).st
        else
          ShownAfter(x, BinderNames, regs.(number := n.value), past);
          var st1 := Shown(x, BinderNames, regs.(number := n.value), past);
          var t := Exec(x, body, st1.(lifetimes := st1.lifetimes + n.value), NoRegs()).st;
          t.(lifetimes := if t.lifetimes >= n.value then t.lifetimes - n.value else 0)
  }

  // ------------------------------------------------------------------ one unfolding

  function Spaced(st: State, sep: string, count: nat): State { if count == 0 then st else Print(st, sep) }

  lemma LoopUnfolds(x: Context, sep: string, body: seq<Op>, st: State, regs: Regs, count: nat)
    requires Wf(x, st) && Sound(body) && Consumes(body) && Fine(st)
    ensures Wf(x, Spaced(st, sep, count))
    ensures Loop(x, sep, body, st, regs, count) ==
      if Eats(x.sym, st.next, 'E') then Outcome(st.(next := st.next + 1), regs.(count := count), false)
      else
        var o := Exec(x, body, Spaced(st, sep, count), regs);
        if o.returned || !Fine(o.st) then Outcome(o.st, regs, o.returned) else Loop(x, sep, body, o.st, o.regs, count + 1)
  {
    PrintAfter(x, st, sep);
    hide Exec, Sound, Consumes, Print, Wf, Ok;
  }
}

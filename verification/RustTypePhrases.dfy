/** The functions that print types, given what the functions they call do. */
module RustTypePhrases {
  import opened Bytes
  import opened RustLexer
  import opened RustSyntax
  import opened RustPlaces
  import opened RustPrinter
  import opened RustInterpreter
  import opened RustText
  import opened RustTokens
  import opened RustSteps
  import opened RustPhrases

  // ------------------------------------------------------------------ references and pointers

  function RefLifeText(life: Option<nat>, bound: nat): string { if life.None? || life.value == 0 then "" else RenderLife(life.value, bound) + " " }

  function LifeOps(op: Op): seq<Op> { [ParseInteger] + ([op] + []) }

  lemma LifeSound(op: Op)
    requires op.Lifetime?
    ensures Sound(LifeOps(op)) && Sound([]) && Sound([op] + [])
  {
    PlainSound(LifeOps(op));
    PlainSound([]);
    PlainSound([op] + []);
  }

  lemma ReferenceLifetimeIs()
    ensures ReferenceLifetime() == IfEat('L', LifeOps(Lifetime(true, "", " ")), []) && ObjectLifetime() == IfEat('L', LifeOps(Lifetime(true, " + ", "")), [Fail])
  {
  }

  /** A lifetime behind an `L`. */
  lemma LifeRuns(x: Context, full: bool, b: State, n: nat, t: string, op: Op, index: nat, bound: nat, r: Regs)
    requires IsSymbol(x, full) && Live(x, Adv(b, n, t)) && op.Lifetime? && Sound(LifeOps(op)) && TextAt(x.sym, b.next + n, Encode62(index)) && FitsNumber(index)
    requires (b.sink.Sink? ==> b.lifetimes == bound && index <= bound) && Roomy(b, |t| + |LifetimeShown(bound, index, op.unlessZero, op.before, op.after)|)
    ensures var u := t + LifetimeShown(bound, index, op.unlessZero, op.before, op.after);
      Exec(x, LifeOps(op), Adv(b, n, t), r) == Outcome(Adv(b, n + |Encode62(index)|, u), r.(number := index), false)
  {
    hide Ok, After, SinkAfter, Consumes, ConsumesOp, SoundOp, Sound, Exec, Wf, Fine, Adv, IsSymbol, LifetimeShown, TextAt, Encode62;
    StepInteger(x, b, n, t, index, [op] + [], r);
    StepLifetime(x, full, b, n + |Encode62(index)|, t, op, [], r.(number := index), bound);
    ExecNone(x, Adv(b, n + |Encode62(index)|, t + LifetimeShown(bound, index, op.unlessZero, op.before, op.after)), r.(number := index));
  }

  lemma RefLifeIs(life: Option<nat>, bound: nat)
    requires life.Some?
    ensures LifetimeShown(bound, life.value, true, "", " ") == RefLifeText(life, bound)
  {
    hide RenderLife;
    assert "" + RenderLife(life.value, bound) == RenderLife(life.value, bound);
  }

  lemma StepNoLife(x: Context, b: State, n: nat, t: string, rest: seq<Op>, r: Regs)
    requires Live(x, Adv(b, n, t)) && Sound([ReferenceLifetime()] + rest) && !Eats(x.sym, b.next + n, 'L')
    ensures Sound(rest) && Exec(x, [ReferenceLifetime()] + rest, Adv(b, n, t), r) == Exec(x, rest, Adv(b, n, t), r)
  {
    hide Ok, After, SinkAfter, Consumes, ConsumesOp, SoundOp, Sound, Exec, Wf, Fine, Adv, ReferenceLifetime, ObjectLifetime, LifeOps;
    ReferenceLifetimeIs();
    LifeSound(Lifetime(true, "", " "));
    ExecNone(x, Adv(b, n, t), r);
    StepUneaten(x, b, n, t, ReferenceLifetime(), rest, r, n, t, r);
  }

  lemma StepSomeLife(x: Context, full: bool, b: State, n: nat, t: string, index: nat, rest: seq<Op>, r: Regs, bound: nat)
    requires IsSymbol(x, full) && Live(x, Adv(b, n, t)) && Sound([ReferenceLifetime()] + rest) && TextAt(x.sym, b.next + n, "L" + Encode62(index)) && FitsNumber(index)
    requires (b.sink.Sink? ==> b.lifetimes == bound && index <= bound) && Roomy(b, |t| + |RefLifeText(Some(index), bound)|)
    ensures var k, u := n + 1 + |Encode62(index)|, t + RefLifeText(Some(index), bound);
      Sound(rest) && Live(x, Adv(b, k, u)) && Exec(x, [ReferenceLifetime()] + rest, Adv(b, n, t), r) == Exec(x, rest, Adv(b, k, u), r.(number := index))
  {
    hide Ok, After, SinkAfter, Consumes, ConsumesOp, SoundOp, Sound, Exec, Wf, Fine, Adv, IsSymbol, LifetimeShown, TextAt,
         Encode62, ReferenceLifetime, ObjectLifetime, LifeOps, RefLifeText, FitsNumber;
    var op, w := Lifetime(true, "", " "), Encode62(index);
    ReferenceLifetimeIs();
    LifeSound(op);
    Splits(x.sym, b.next + n, "L", w);
    FirstIs(x.sym, b.next + n, "L");
    OneOn(x, b, n, t);
    RefLifeIs(Some(index), bound);
    LifeRuns(x, full, b, n + 1, t, op, index, bound, r);
    StepEaten(x, b, n, t, ReferenceLifetime(), rest, r, n + 1 + |w|, t + RefLifeText(Some(index), bound), r.(number := index));
  }

  lemma StepRefLife(x: Context, full: bool, b: State, n: nat, t: string, life: Option<nat>, rest: seq<Op>, r: Regs, bound: nat) returns (r': Regs)
    requires IsSymbol(x, full) && Live(x, Adv(b, n, t)) && Sound([ReferenceLifetime()] + rest) && TextAt(x.sym, b.next + n, MangleLife(life))
    requires life.None? ==> !Eats(x.sym, b.next + n, 'L')
    requires life.Some? ==> FitsNumber(life.value) && (b.sink.Sink? ==> b.lifetimes == bound && life.value <= bound)
    requires Roomy(b, |t| + |RefLifeText(life, bound)|)
    ensures var k, u := n + |MangleLife(life)|, t + RefLifeText(life, bound);
      && Sound(rest) && Live(x, Adv(b, k, u)) && Exec(x, [ReferenceLifetime()] + rest, Adv(b, n, t), r) == Exec(x, rest, Adv(b, k, u), r')
  {
    hide Ok, After, SinkAfter, Consumes, ConsumesOp, SoundOp, Sound, Exec, Wf, Fine, Adv, IsSymbol, TextAt, Encode62,
         ReferenceLifetime, RenderLife, FitsNumber, Eats;
    if life.None? {
      r' := r;
      assert t + "" == t;
      StepNoLife(x, b, n, t, rest, r);
    } else {
      r' := r.(number := life.value);
      assert life == Some(life.value);
      StepSomeLife(x, full, b, n, t, life.value, rest, r, bound);
    }
  }

  lemma OneOn(x: Context, b: State, n: nat, t: string)
    requires Live(x, Adv(b, n, t)) && b.next + n < |x.sym|
    ensures Live(x, Adv(b, n + 1, t))
  {
  }

  function MutText(isMut: bool): string { if isMut then "mut " else "" }

  lemma ReferenceShape()
    ensures TypeOps('R').value == [Str("&")] + ([ReferenceLifetime()] + ([Call(Type)] + []))
    ensures TypeOps('Q').value == [Str("&")] + ([ReferenceLifetime()] + ([Str("mut ")] + ([Call(Type)] + [])))
  {
    hide ReferenceLifetime;
  }

  lemma ReferenceRuns(x: Context, full: bool, isMut: bool, b: State, life: Option<nat>, bound: nat, k: nat, u: string)
    requires IsSymbol(x, full) && Live(x, b) && TextAt(x.sym, b.next, MangleLife(life)) && (life.None? ==> !Eats(x.sym, b.next, 'L'))
    requires life.Some? ==> FitsNumber(life.value) && (b.sink.Sink? ==> b.lifetimes == bound && life.value <= bound)
    requires var s := Adv(b, |MangleLife(life)|, "&" + RefLifeText(life, bound) + MutText(isMut)); Wf(x, s) && Enter(x, Type, s) == Adv(s, k, u)
    requires Roomy(b, |"&" + RefLifeText(life, bound) + MutText(isMut)| + |u|)
    ensures Goes(x, TypeOps(if isMut then 'Q' else 'R').value, b, NoRegs(), |MangleLife(life)| + k, "&" + RefLifeText(life, bound) + MutText(isMut) + u)
  {
    hide Ok, After, SinkAfter, Consumes, ConsumesOp, SoundOp, Sound, Exec, Enter, Wf, Fine, Adv, IsSymbol, TextAt, TypeOps,
         NoRegs, Goes, ReferenceLifetime, RefLifeText, MangleLife;
    var tag, w, m := if isMut then 'Q' else 'R', RefLifeText(life, bound), |MangleLife(life)|;
    TypeSound(tag);
    ReferenceShape();
    var call := [Call(Type)] + [];
    var rest := if isMut then [Str("mut ")] + call else call;
    TypeOpsAre(tag);
    AdvNone(b);
    StepStr(x, b, 0, "", "&", [ReferenceLifetime()] + rest, NoRegs());
    assert "" + "&" == "&";
    var r := StepRefLife(x, full, b, 0, "&", life, rest, NoRegs(), bound);
    if isMut { StepStr(x, b, m, "&" + w, "mut ", call, r); } else { assert "&" + w + "" == "&" + w; }
    var t := "&" + w + MutText(isMut);
    StepCall(x, b, m, t, Type, [], r, k, u);
    ExecNone(x, Adv(b, m + k, t + u), r);
    GoesIs(x, TypeOps(tag).value, b, NoRegs(), m + k, t + u, r);
  }

  lemma TypeOpsAre(tag: char)
    requires OwnTypeStart(tag)
    ensures TypeOps(tag).Some? && !IsBasicType(tag)
  {
    hide ReferenceLifetime, ObjectLifetime, FunctionType, ObjectBounds;
  }

  lemma PathTagsAre(tag: char)
    requires OwnPathStart(tag)
    ensures TypeOps(tag).None? && !IsBasicType(tag)
  {
    hide ReferenceLifetime, ObjectLifetime, FunctionType, ObjectBounds;
  }

  lemma PointerShape()
    ensures TypeOps('P').value == [Str("*")] + ([Str("const ")] + ([Call(Type)] + [])) && TypeOps('O').value == [Str("*")] + ([Str("mut ")] + ([Call(Type)] + []))
  {
  }

  function PointerText(isMut: bool): string { if isMut then "*mut " else "*const " }

  lemma PointerTextIs(isMut: bool)
    ensures "*" + (if isMut then "mut " else "const ") == PointerText(isMut)
  {
  }

  lemma PointerRuns(x: Context, isMut: bool, b: State, k: nat, u: string)
    requires Live(x, b) && Roomy(b, |PointerText(isMut)| + |u|)
    requires var s := Adv(b, 0, PointerText(isMut)); Wf(x, s) && Enter(x, Type, s) == Adv(s, k, u)
    ensures Goes(x, TypeOps(if isMut then 'O' else 'P').value, b, NoRegs(), k, PointerText(isMut) + u)
  {
    hide Ok, After, SinkAfter, Consumes, ConsumesOp, SoundOp, Sound, Exec, Enter, Wf, Fine, Adv, TypeOps, NoRegs, Goes, PointerText;
    var tag, word := if isMut then 'O' else 'P', if isMut then "mut " else "const ";
    TypeSound(tag);
    PointerShape();
    PointerTextIs(isMut);
    TypeOpsAre(tag);
    var call := [Call(Type)] + [];
    AdvNone(b);
    StepStr(x, b, 0, "", "*", [Str(word)] + call, NoRegs());
    assert "" + "*" == "*";
    StepStr(x, b, 0, "*", word, call, NoRegs());
    StepCall(x, b, 0, PointerText(isMut), Type, [], NoRegs(), k, u);
    ExecNone(x, Adv(b, k, PointerText(isMut) + u), NoRegs());
    GoesIs(x, TypeOps(tag).value, b, NoRegs(), k, PointerText(isMut) + u, NoRegs());
  }

  // ------------------------------------------------------------------ arrays and tuples

  lemma ArrayShape()
    ensures TypeOps('A').value == [Str("[")] + ([Call(Type)] + ([Str("; ")] + ([Call(Const(true))] + ([Str("]")] + []))))
    ensures TypeOps('S').value == [Str("[")] + ([Call(Type)] + ([Str("]")] + []))
  {
  }

  lemma ArrayRuns(x: Context, b: State, k: nat, u: string, k': nat, u': string)
    requires Live(x, b) && Roomy(b, |u| + |u'| + 4)
    requires var s := Adv(b, 0, "["); Wf(x, s) && Enter(x, Type, s) == Adv(s, k, u)
    requires var s := Adv(b, k, "[" + u + "; "); Wf(x, s) && Enter(x, Const(true), s) == Adv(s, k', u')
    ensures Goes(x, TypeOps('A').value, b, NoRegs(), k + k', "[" + u + "; " + u' + "]")
  {
    hide Ok, After, SinkAfter, Consumes, ConsumesOp, SoundOp, Sound, Exec, Enter, Wf, Fine, Adv, TypeOps, NoRegs, Goes;
    TypeSound('A');
    ArrayShape();
    TypeOpsAre('A');
    var end := [Str("]")] + [];
    AdvNone(b);
    StepStr(x, b, 0, "", "[", [Call(Type)] + ([Str("; ")] + ([Call(Const(true))] + end)), NoRegs());
    assert "" + "[" == "[";
    StepCall(x, b, 0, "[", Type, [Str("; ")] + ([Call(Const(true))] + end), NoRegs(), k, u);
    StepStr(x, b, k, "[" + u, "; ", [Call(Const(true))] + end, NoRegs());
    StepCall(x, b, k, "[" + u + "; ", Const(true), end, NoRegs(), k', u');
    StepStr(x, b, k + k', "[" + u + "; " + u', "]", [], NoRegs());
    ExecNone(x, Adv(b, k + k', "[" + u + "; " + u' + "]"), NoRegs());
    GoesIs(x, TypeOps('A').value, b, NoRegs(), k + k', "[" + u + "; " + u' + "]", NoRegs());
  }

  lemma SliceRuns(x: Context, b: State, k: nat, u: string)
    requires Live(x, b) && Roomy(b, |u| + 2)
    requires var s := Adv(b, 0, "["); Wf(x, s) && Enter(x, Type, s) == Adv(s, k, u)
    ensures Goes(x, TypeOps('S').value, b, NoRegs(), k, "[" + u + "]")
  {
    hide Ok, After, SinkAfter, Consumes, ConsumesOp, SoundOp, Sound, Exec, Enter, Wf, Fine, Adv, TypeOps, NoRegs, Goes;
    TypeSound('S');
    ArrayShape();
    TypeOpsAre('S');
    AdvNone(b);
    StepStr(x, b, 0, "", "[", [Call(Type)] + ([Str("]")] + []), NoRegs());
    assert "" + "[" == "[";
    StepCall(x, b, 0, "[", Type, [Str("]")] + [], NoRegs(), k, u);
    StepStr(x, b, k, "[" + u, "]", [], NoRegs());
    ExecNone(x, Adv(b, k, "[" + u + "]"), NoRegs());
    GoesIs(x, TypeOps('S').value, b, NoRegs(), k, "[" + u + "]", NoRegs());
  }

  function CommaText(count: nat): string { if count == 1 then "," else "" }

  lemma CommaIs(sym: string, full: bool, r: Regs, l: nat)
    ensures Text(sym, full, OneComma, r, l) == Piece(CommaText(r.count), 0)
  {
  }

  lemma TupleShape()
    ensures TypeOps('T').value == [Str("(")] + ([Until(", ", [Call(Type)])] + ([Show(OneComma)] + ([Str(")")] + [])))
  {
  }

  lemma CallList(rule: Rule)
    requires !rule.Generics?
    ensures Sound([Call(rule)]) && Consumes([Call(rule)]) && SoundOp(Until(", ", [Call(rule)]))
  {
    ListSound(Call(rule));
    assert ConsumesOp([Call(rule)][0]);
  }

  lemma TupleRuns(x: Context, full: bool, b: State, k: nat, u: string, count: nat)
    requires IsSymbol(x, full) && Live(x, b) && Roomy(b, |u| + 3) && Sound([Call(Type)]) && Consumes([Call(Type)])
    requires var s := Adv(b, 0, "("); Wf(x, s) && Loop(x, ", ", [Call(Type)], s, NoRegs(), 0) == Outcome(Adv(s, k, u), NoRegs().(count := count), false)
    ensures Goes(x, TypeOps('T').value, b, NoRegs(), k, "(" + u + CommaText(count) + ")")
  {
    hide Ok, After, SinkAfter, Consumes, ConsumesOp, SoundOp, Sound, Exec, Loop, Wf, Fine, Adv, TypeOps, NoRegs, Goes, IsSymbol, Text;
    TypeSound('T');
    TupleShape();
    TypeOpsAre('T');
    var list, r := Until(", ", [Call(Type)]), NoRegs().(count := count);
    AdvNone(b);
    StepStr(x, b, 0, "", "(", [list] + ([Show(OneComma)] + ([Str(")")] + [])), NoRegs());
    assert "" + "(" == "(";
    StepUntil(x, b, 0, "(", list, [Show(OneComma)] + ([Str(")")] + []), NoRegs(), k, u, r);
    CommaIs(x.sym, full, r, b.lifetimes);
    StepText(x, full, b, k, "(" + u, OneComma, CommaText(count), [Str(")")] + [], r);
    StepStr(x, b, k, "(" + u + CommaText(count), ")", [], r);
    ExecNone(x, Adv(b, k, "(" + u + CommaText(count) + ")"), r);
    GoesIs(x, TypeOps('T').value, b, NoRegs(), k, "(" + u + CommaText(count) + ")", r);
  }

  // ------------------------------------------------------------------ binders

  /** Further on, with other lifetimes bound if anything is printed. */
  function Within(b: State, n: nat, t: string, l: nat): State { Adv(b, n, t).(lifetimes := if b.sink.Silent? then b.lifetimes else l) }

  lemma BindIs(x: Context, full: bool, body: seq<Op>, st: State, r: Regs, d: nat, bound: nat, k: nat, u: string)
    requires IsSymbol(x, full) && Live(x, st) && Sound(body) && TextAt(x.sym, st.next, MangleOpt('G', d)) && FitsNumber(d) && !(d == 0 && Eats(x.sym, st.next, 'G'))
    requires (st.sink.Sink? ==> st.lifetimes == bound) && Roomy(st, |RenderBinder(bound, d)| + |u|)
    requires var s := Within(st, |MangleOpt('G', d)|, RenderBinder(bound, d), bound + d); Goes(x, body, s, NoRegs(), k, u)
    ensures Bind(x, body, st, r) == Adv(st, |MangleOpt('G', d)| + k, RenderBinder(bound, d) + u)
  {
    hide Ok, After, SinkAfter, Consumes, Sound, Exec, Wf, IsSymbol, TextAt, MangleOpt, RenderBinder, NoRegs, Text, OptInteger62;
    OptReads(x.sym, st.next, 'G', d);
    var w, r1 := RenderBinder(bound, d), r.(number := d);
    BinderIs(x.sym, full, r1, bound, d);
    ShownIs(x, full, BinderNames, r1, st.lifetimes);
    if st.sink.Sink? {
      var past := st.(next := st.next + |MangleOpt('G', d)|);
      PutIs(past, Piece(w, 0));
      assert st.sink.text + w + u == st.sink.text + (w + u);
    }
  }

  lemma BinderIs(sym: string, full: bool, r: Regs, bound: nat, d: nat)
    requires r.number == d
    ensures Text(sym, full, BinderNames, r, bound) == Piece(RenderBinder(bound, d), 0)
  {
    if d > 0 { BinderSame(bound, d); }
    hide BinderText, RenderLifetime, Join;
  }

  lemma OneBinder(x: Context, body: seq<Op>, st: State, r: Regs)
    requires Live(x, st) && Sound(body)
    ensures One(x, Binder(body), st, r) == Came(Bind(x, body, st, r), r)
  {
    hide Bind, Do, Sound;
  }

  lemma StepBinder(x: Context, full: bool, b: State, n: nat, t: string, body: seq<Op>, rest: seq<Op>, r: Regs, d: nat, bound: nat, k: nat, u: string)
    requires IsSymbol(x, full) && Live(x, Adv(b, n, t)) && Sound([Binder(body)] + rest) && Sound(body)
    requires TextAt(x.sym, b.next + n, MangleOpt('G', d)) && FitsNumber(d) && !(d == 0 && Eats(x.sym, b.next + n, 'G'))
    requires (b.sink.Sink? ==> b.lifetimes == bound) && Roomy(b, |t| + |RenderBinder(bound, d)| + |u|)
    requires Goes(x, body, Within(b, n + |MangleOpt('G', d)|, t + RenderBinder(bound, d), bound + d), NoRegs(), k, u)
    ensures var m, w := n + |MangleOpt('G', d)| + k, t + RenderBinder(bound, d) + u;
      && Sound(rest) && Live(x, Adv(b, m, w)) && Exec(x, [Binder(body)] + rest, Adv(b, n, t), r) == Exec(x, rest, Adv(b, m, w), r)
  {
    hide Ok, After, SinkAfter, Consumes, ConsumesOp, SoundOp, Sound, Exec, Wf, Adv, IsSymbol, TextAt, MangleOpt, RenderBinder,
         NoRegs, Goes, Bind, Within, FitsNumber;
    var st, o, w := Adv(b, n, t), |MangleOpt('G', d)|, RenderBinder(bound, d);
    AdvSame(b, n, t);
    AdvRoom(b, n, t, |w| + |u|);
    WithinAdv(b, n, t, o, w, bound + d);
    BindIs(x, full, body, st, r, d, bound, k, u);
    AdvAdv(b, n, t, o + k, w + u);
    assert t + (w + u) == t + w + u;
    SoundFirst(Binder(body), rest);
    OneBinder(x, body, st, r);
    AdvFine(b, n, t, n + o + k, t + w + u);
    Step(x, b, n, t, Binder(body), rest, r, n + o + k, t + w + u, r);
  }

  lemma AdvFine(b: State, n: nat, t: string, m: nat, u: string)
    ensures Fine(Adv(b, n, t)) ==> !Adv(b, m, u).overflow
  {
  }

  lemma WithinAdv(b: State, n: nat, t: string, o: nat, w: string, l: nat)
    requires Roomy(b, |t| + |w|)
    ensures Within(Adv(b, n, t), o, w, l) == Within(b, n + o, t + w, l)
  {
    AdvAdv(b, n, t, o, w);
  }

  // ------------------------------------------------------------------ function types

  lemma FunctionShape()
    ensures FunctionType() == [IfEat('U', [Take(IsUnsafe)], [])] + ([FunctionAbi()] + ([Show(Qualifiers)] + FunctionRest()))
  {
    hide FunctionAbi;
    assert [Str(" -> ")] + ([Call(Type)] + []) == [Str(" -> "), Call(Type)];
  }

  function ResultOp(): Op { IfEat('u', [], [Str(" -> ")] + ([Call(Type)] + [])) }

  function FunctionRest(): seq<Op> { [Str("fn(")] + ([Until(", ", [Call(Type)])] + ([Str(")")] + ([ResultOp()] + []))) }

  lemma UnsafeSound()
    ensures Sound([Take(IsUnsafe)]) && Sound([]) && Sound([Take(IsUnsafe)] + [])
  {
    PlainSound([Take(IsUnsafe)]);
    PlainSound([]);
    PlainSound([Take(IsUnsafe)] + []);
  }

  function UnsafeRegs(isUnsafe: bool): Regs { NoRegs().(isUnsafe := isUnsafe) }

  lemma StepUnsafe(x: Context, b: State, isUnsafe: bool, rest: seq<Op>)
    requires Live(x, b) && Sound([IfEat('U', [Take(IsUnsafe)], [])] + rest) && Eats(x.sym, b.next, 'U') == isUnsafe
    ensures var n := if isUnsafe then 1 else 0;
      && Sound(rest) && Live(x, Adv(b, n, "")) && Exec(x, [IfEat('U', [Take(IsUnsafe)], [])] + rest, b, NoRegs()) == Exec(x, rest, Adv(b, n, ""), UnsafeRegs(isUnsafe))
  {
    hide Ok, After, SinkAfter, Consumes, ConsumesOp, SoundOp, Sound, Exec, Wf, Fine, Adv;
    UnsafeSound();
    AdvNone(b);
    var op := IfEat('U', [Take(IsUnsafe)], []);
    if isUnsafe {
      AfterFirst(x, b);
      assert [Take(IsUnsafe)] == [Take(IsUnsafe)] + [];
      StepTake(x, b, 1, "", IsUnsafe, [], NoRegs());
      ExecNone(x, Adv(b, 1, ""), UnsafeRegs(true));
      StepEaten(x, b, 0, "", op, rest, NoRegs(), 1, "", UnsafeRegs(true));
    } else {
      ExecNone(x, Adv(b, 0, ""), NoRegs());
      StepUneaten(x, b, 0, "", op, rest, NoRegs(), 0, "", UnsafeRegs(false));
    }
  }

  function AbiNameOps(): seq<Op> { [ParseIdent] + ([Check(IsAbi)] + ([Take(HasAbi(AbiNamed))] + [])) }

  function AbiKindOp(): Op { IfEat('C', [Take(HasAbi(AbiC))], AbiNameOps()) }

  lemma AbiShape()
    ensures FunctionAbi() == IfEat('K', [AbiKindOp()] + [], [])
    ensures Sound([AbiKindOp()] + []) && Sound([]) && Sound([Take(HasAbi(AbiC))] + []) && Sound([Take(HasAbi(AbiC))]) && Sound(AbiNameOps())
  {
    hide Consumes;
    assert AbiNameOps() == [ParseIdent, Check(IsAbi), Take(HasAbi(AbiNamed))];
    assert [AbiKindOp()] + [] == [AbiKindOp()];
    PlainSound(AbiNameOps());
    PlainSound([Take(HasAbi(AbiC))]);
    PlainSound([Take(HasAbi(AbiC))] + []);
    PlainSound([]);
    SingleSound(AbiKindOp());
  }

  /** The registers say what the qualifiers are. */
  predicate Qualified(sym: string, r: Regs, isUnsafe: bool, abi: AbiAst) {
    && r.isUnsafe == isUnsafe
    && match abi
       case RustAbi => r.abi == NoAbi
       case CAbi => r.abi == AbiC
       case OtherAbi(name) => r.abi == AbiNamed && Part(sym, r.ident.asciiStart, r.ident.asciiLen) == name
  }

  lemma AbiNameRuns(x: Context, b: State, n: nat, name: string, r: Regs) returns (r': Regs)
    requires Live(x, Adv(b, n, "")) && Sound(AbiNameOps()) && Stands(x.sym, b.next + n, MangleName(Name(name, ""))) && name != ""
    ensures Live(x, Adv(b, n + |MangleName(Name(name, ""))|, ""))
    ensures Exec(x, AbiNameOps(), Adv(b, n, ""), r) == Outcome(Adv(b, n + |MangleName(Name(name, ""))|, ""), r', false)
    ensures r.abi == NoAbi ==> Qualified(x.sym, r', r.isUnsafe, OtherAbi(name))
  {
    hide Ok, After, SinkAfter, Consumes, ConsumesOp, SoundOp, Sound, Exec, Wf, Fine, Adv, MangleName, Stands, RenderName, IdentPiece, Part;
    var k, word := n + |MangleName(Name(name, ""))|, Name(name, "");
    assert FitsName(word);
    var i := StepIdent(x, b, n, "", word, [Check(IsAbi)] + ([Take(HasAbi(AbiNamed))] + []), r);
    var r1 := r.(ident := i);
    StepCheck(x, b, k, "", IsAbi, [Take(HasAbi(AbiNamed))] + [], r1);
    StepTake(x, b, k, "", HasAbi(AbiNamed), [], r1);
    r' := r1.(abi := AbiNamed);
    ExecNone(x, Adv(b, k, ""), r');
  }

  /** What is read of an ABI: nothing but the place moves on. */
  lemma StepAbi(x: Context, b: State, n: nat, isUnsafe: bool, abi: AbiAst, rest: seq<Op>) returns (r': Regs)
    requires Live(x, Adv(b, n, "")) && Sound([FunctionAbi()] + rest) && Stands(x.sym, b.next + n, MangleAbi(abi)) && (abi.OtherAbi? ==> abi.name != "")
    requires abi.RustAbi? ==> !Eats(x.sym, b.next + n, 'K')
    ensures Sound(rest) && Live(x, Adv(b, n + |MangleAbi(abi)|, "")) && Qualified(x.sym, r', isUnsafe, abi)
    ensures Exec(x, [FunctionAbi()] + rest, Adv(b, n, ""), UnsafeRegs(isUnsafe)) == Exec(x, rest, Adv(b, n + |MangleAbi(abi)|, ""), r')
  {
    hide Ok, After, SinkAfter, Consumes, ConsumesOp, SoundOp, Sound, Exec, Wf, Fine, Adv, MangleName, Part, FunctionAbi, AbiNameOps;
    AbiShape();
    var r, op := UnsafeRegs(isUnsafe), FunctionAbi();
    match abi
    case RustAbi =>
      r' := r;
      ExecNone(x, Adv(b, n, ""), r);
      StepUneaten(x, b, n, "", op, rest, r, n, "", r);
    case CAbi =>
      r' := r.(abi := AbiC);
      CAbiRuns(x, b, n, r);
      StepEaten(x, b, n, "", op, rest, r, n + 2, "", r');
    case OtherAbi(name) =>
      r' := OtherAbiRuns(x, b, n, name, r);
      StepEaten(x, b, n, "", op, rest, r, n + |MangleAbi(abi)|, "", r');
  }

  lemma CAbiRuns(x: Context, b: State, n: nat, r: Regs)
    requires Live(x, Adv(b, n, "")) && TextAt(x.sym, b.next + n, "KC") && Sound([AbiKindOp()] + []) && Sound(AbiNameOps()) && Sound([Take(HasAbi(AbiC))]) && Sound([Take(HasAbi(AbiC))] + [])
    ensures Eats(x.sym, b.next + n, 'K') && Live(x, Adv(b, n + 1, "")) && Live(x, Adv(b, n + 2, ""))
    ensures Exec(x, [AbiKindOp()] + [], Adv(b, n + 1, ""), r) == Outcome(Adv(b, n + 2, ""), r.(abi := AbiC), false)
  {
    hide Ok, After, SinkAfter, Consumes, ConsumesOp, SoundOp, Sound, Exec, Wf, Fine, Adv, AbiNameOps, TextAt;
    CharAt(x.sym, b.next + n, "KC", 0);
    CharAt(x.sym, b.next + n, "KC", 1);
    OneOn(x, b, n, "");
    OneOn(x, b, n + 1, "");
    var take := [Take(HasAbi(AbiC))];
    assert take == take + [];
    StepTake(x, b, n + 2, "", HasAbi(AbiC), [], r);
    ExecNone(x, Adv(b, n + 2, ""), r.(abi := AbiC));
    StepEaten(x, b, n + 1, "", AbiKindOp(), [], r, n + 2, "", r.(abi := AbiC));
    ExecNone(x, Adv(b, n + 2, ""), r.(abi := AbiC));
  }

  lemma OtherAbiRuns(x: Context, b: State, n: nat, name: string, r: Regs) returns (r': Regs)
    requires Live(x, Adv(b, n, "")) && Stands(x.sym, b.next + n, "K" + MangleName(Name(name, ""))) && name != ""
    requires Sound([AbiKindOp()] + []) && Sound(AbiNameOps()) && Sound([Take(HasAbi(AbiC))])
    ensures Eats(x.sym, b.next + n, 'K') && Live(x, Adv(b, n + 1, ""))
    ensures r.abi == NoAbi ==> Qualified(x.sym, r', r.isUnsafe, OtherAbi(name))
    ensures Exec(x, [AbiKindOp()] + [], Adv(b, n + 1, ""), r) == Outcome(Adv(b, n + 1 + |MangleName(Name(name, ""))|, ""), r', false)
  {
    hide Ok, After, SinkAfter, Consumes, ConsumesOp, SoundOp, Sound, Exec, Wf, Fine, Adv, AbiNameOps, TextAt, Stands, MangleName, Qualified;
    var w := MangleName(Name(name, ""));
    StandsText(x.sym, b.next + n, "K" + w);
    Splits(x.sym, b.next + n, "K", w);
    StandsText(x.sym, b.next + n + 1, w);
    FirstIs(x.sym, b.next + n, "K");
    NameStarts(Name(name, ""));
    FirstIs(x.sym, b.next + n + 1, w);
    OneOn(x, b, n, "");
    r' := AbiNameRuns(x, b, n + 1, name, r);
    StepUneaten(x, b, n + 1, "", AbiKindOp(), [], r, n + 1 + |w|, "", r');
    ExecNone(x, Adv(b, n + 1 + |w|, ""), r');
  }

  lemma QualifiersAre(sym: string, full: bool, r: Regs, isUnsafe: bool, abi: AbiAst, l: nat)
    requires Qualified(sym, r, isUnsafe, abi)
    ensures Text(sym, full, Qualifiers, r, l) == Piece((if isUnsafe then "unsafe " else "") + RenderAbi(abi), 0)
  {
    DashedSame("C");
    assert WithDashes("C") == "C";
    if abi.OtherAbi? { DashedSame(abi.name); }
    hide Dashed, Part;
    assert "extern \"" + "C" + "\" " == "extern \"C\" ";
  }

  predicate IsUnit(t: TypeAst) { t == BasicType(UnitType) }

  lemma RestSound()
    ensures Sound(FunctionRest()) && Sound(ResultOp().yes) && Sound(ResultOp().no)
  {
    hide FunctionAbi;
    FunctionTypeSound();
    FunctionShape();
    SoundFirst(IfEat('U', [Take(IsUnsafe)], []), [FunctionAbi()] + ([Show(Qualifiers)] + FunctionRest()));
    SoundFirst(FunctionAbi(), [Show(Qualifiers)] + FunctionRest());
    SoundFirst(Show(Qualifiers), FunctionRest());
    ArrowSound();
  }

  lemma ArrowSound()
    ensures Sound([]) && Sound([Str(" -> ")] + ([Call(Type)] + []))
  {
    assert [Str(" -> ")] + ([Call(Type)] + []) == [Str(" -> "), Call(Type)];
  }

  /** The result of a function: nothing is printed for the unit. */
  lemma ResultRuns(x: Context, b: State, n: nat, t: string, r: Regs, unit: bool, k: nat, u: string)
    requires Live(x, Adv(b, n, t)) && Sound([ResultOp()] + []) && Eats(x.sym, b.next + n, 'u') == unit && (unit ==> k == 1 && u == "")
    requires !unit ==> var s := Adv(b, n, t + " -> "); Wf(x, s) && Enter(x, Type, s) == Adv(s, k, u) && Roomy(b, |t| + 4 + |u|)
    ensures Exec(x, [ResultOp()] + [], Adv(b, n, t), r) == Outcome(Adv(b, n + k, t + (if unit then "" else " -> " + u)), r, false)
  {
    hide Ok, After, SinkAfter, Consumes, ConsumesOp, SoundOp, Sound, Exec, Enter, Wf, Fine, Adv;
    ArrowSound();
    var op := ResultOp();
    if unit {
      assert t + "" == t;
      OneOn(x, b, n, t);
      ExecNone(x, Adv(b, n + 1, t), r);
      StepEaten(x, b, n, t, op, [], r, n + 1, t, r);
      ExecNone(x, Adv(b, n + 1, t), r);
    } else {
      StepStr(x, b, n, t, " -> ", [Call(Type)] + [], r);
      StepCall(x, b, n, t + " -> ", Type, [], r, k, u);
      assert t + " -> " + u == t + (" -> " + u);
      ExecNone(x, Adv(b, n + k, t + " -> " + u), r);
      StepUneaten(x, b, n, t, op, [], r, n + k, t + (" -> " + u), r);
      ExecNone(x, Adv(b, n + k, t + (" -> " + u)), r);
    }
  }

  function ResultText(unit: bool, u: string): string { if unit then "" else " -> " + u }

  lemma FunctionRestRuns(x: Context, b: State, n: nat, t: string, r: Regs, k: nat, u: string, r1: Regs, unit: bool, k': nat, u': string)
    requires Live(x, Adv(b, n, t)) && Sound([Call(Type)]) && Consumes([Call(Type)]) && Roomy(b, |t| + |u| + 4 + |ResultText(unit, u')|) && (unit ==> k' == 1 && u' == "")
    requires var s := Adv(b, n, t + "fn("); Wf(x, s) && Loop(x, ", ", [Call(Type)], s, r, 0) == Outcome(Adv(s, k, u), r1, false)
    requires Eats(x.sym, b.next + n + k, 'u') == unit
    requires !unit ==> var s := Adv(b, n + k, t + "fn(" + u + ")" + " -> "); Wf(x, s) && Enter(x, Type, s) == Adv(s, k', u')
    ensures Sound(FunctionRest())
    ensures Exec(x, FunctionRest(), Adv(b, n, t), r) == Outcome(Adv(b, n + k + k', t + "fn(" + u + ")" + ResultText(unit, u')), r1, false)
  {
    hide Ok, After, SinkAfter, Consumes, ConsumesOp, SoundOp, Sound, Exec, Enter, Loop, Wf, Fine, Adv, ResultOp;
    RestSound();
    var list := Until(", ", [Call(Type)]);
    StepStr(x, b, n, t, "fn(", [list] + ([Str(")")] + ([ResultOp()] + [])), r);
    StepUntil(x, b, n, t + "fn(", list, [Str(")")] + ([ResultOp()] + []), r, k, u, r1);
    StepStr(x, b, n + k, t + "fn(" + u, ")", [ResultOp()] + [], r1);
    ResultRuns(x, b, n + k, t + "fn(" + u + ")", r1, unit, k', u');
  }

  function QualifierPart(isUnsafe: bool, abi: AbiAst): string { (if isUnsafe then "unsafe " else "") + RenderAbi(abi) }

  /** Where the parameters start. */
  function HeadLength(isUnsafe: bool, abi: AbiAst): nat { (if isUnsafe then 1 else 0) + |MangleAbi(abi)| }

  /** `unsafe` and the ABI. */
  lemma HeadRuns(x: Context, full: bool, b: State, isUnsafe: bool, abi: AbiAst) returns (r: Regs)
    requires IsSymbol(x, full) && Live(x, b) && Eats(x.sym, b.next, 'U') == isUnsafe && (abi.OtherAbi? ==> abi.name != "")
    requires var n := if isUnsafe then 1 else 0; Stands(x.sym, b.next + n, MangleAbi(abi)) && (abi.RustAbi? ==> !Eats(x.sym, b.next + n, 'K'))
    requires Roomy(b, |QualifierPart(isUnsafe, abi)|)
    ensures var n, t := HeadLength(isUnsafe, abi), QualifierPart(isUnsafe, abi);
      && Sound(FunctionType()) && Sound(FunctionRest()) && Live(x, Adv(b, n, t)) && Exec(x, FunctionType(), b, NoRegs()) == Exec(x, FunctionRest(), Adv(b, n, t), r)
  {
    hide Ok, After, SinkAfter, Consumes, ConsumesOp, SoundOp, Sound, Exec, Wf, Fine, Adv, FunctionAbi, FunctionType, FunctionRest,
         IsSymbol, Stands, Text, Qualified, MangleAbi, RenderAbi, NoRegs, UnsafeRegs, Eats;
    FunctionTypeSound();
    FunctionShape();
    var n := if isUnsafe then 1 else 0;
    StepUnsafe(x, b, isUnsafe, [FunctionAbi()] + ([Show(Qualifiers)] + FunctionRest()));
    r := StepAbi(x, b, n, isUnsafe, abi, [Show(Qualifiers)] + FunctionRest());
    QualifiersAre(x.sym, full, r, isUnsafe, abi, b.lifetimes);
    StepText(x, full, b, HeadLength(isUnsafe, abi), "", Qualifiers, QualifierPart(isUnsafe, abi), FunctionRest(), r);
    assert "" + QualifierPart(isUnsafe, abi) == QualifierPart(isUnsafe, abi);
  }
}

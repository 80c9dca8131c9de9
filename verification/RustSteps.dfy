/** One operation after another: what the interpreter does when each part reads well and there is room for its text. */
module RustSteps {
  import opened Bytes
  import opened RustLexer
  import opened RustPlaces
  import opened RustPrinter
  import opened RustInterpreter
  import opened RustText

  /** `n` characters further on, with `t` printed unless the pass is silent. */
  function Adv(st: State, n: nat, t: string): State {
    st.(next := st.next + n,
        sink := if st.sink.Silent? then Silent else Sink(st.sink.text + t, if st.sink.room >= |t| then st.sink.room - |t| else 0))
  }

  predicate Roomy(st: State, need: nat) { st.sink.Silent? || st.sink.room >= need }

  predicate Live(x: Context, st: State) { Wf(x, st) && Fine(st) }

  /** The context of a symbol with the demangler's own texts. */
  ghost predicate IsSymbol(x: Context, full: bool) {
    forall what: What, regs: Regs, l: nat :: x.shown(what, regs, l) == Text(x.sym, full, what, regs, l)
  }

  function PlaceOf(x: Context, st: State): Place { Place(x.sym, st.next, st.depth, st.lifetimes, st.sink.Sink?) }

  lemma SymbolIs(sym: string, full: bool)
    ensures IsSymbol(Symbol(sym, full), full) && Symbol(sym, full).sym == sym
  {
    hide Text;
  }

  lemma ShownIs(x: Context, full: bool, what: What, regs: Regs, l: nat)
    requires IsSymbol(x, full)
    ensures x.shown(what, regs, l) == Text(x.sym, full, what, regs, l)
  {
    hide Text;
  }

  lemma AdvNone(st: State)
    requires Roomy(st, 0)
    ensures Adv(st, 0, "") == st
  {
    if st.sink.Sink? { assert st.sink.text + "" == st.sink.text; }
  }

  lemma AdvAdv(st: State, n: nat, t: string, m: nat, u: string)
    requires Roomy(st, |t| + |u|)
    ensures Adv(Adv(st, n, t), m, u) == Adv(st, n + m, t + u)
  {
    if st.sink.Sink? { assert st.sink.text + t + u == st.sink.text + (t + u); }
  }

  lemma AdvRoom(st: State, n: nat, t: string, need: nat)
    requires Roomy(st, |t| + need)
    ensures Roomy(Adv(st, n, t), need)
  {
  }

  /** With room enough a piece is printed. */
  lemma PutIs(st: State, p: Piece)
    requires !st.overflow && Roomy(st, |p.text| + p.slack)
    ensures Put(st, p) == Adv(st, 0, p.text)
  {
  }

  // ------------------------------------------------------------------ single operations

  /** One operation of a list. */
  lemma ExecStep(x: Context, op: Op, rest: seq<Op>, st: State, regs: Regs, s1: State, r1: Regs)
    requires Live(x, st) && Sound([op] + rest) && SoundOp(op) && One(x, op, st, regs) == Outcome(s1, r1, false)
    ensures Sound(rest) && Wf(x, s1) && Exec(x, [op] + rest, st, regs) == Exec(x, rest, s1, r1)
  {
    var ops := [op] + rest;
    ConsumesParts(ops);
    assert ops[0] == op && ops[1..] == rest;
    hide One, Sound, SoundOp, Consumes, ConsumesOp;
  }

  lemma SoundFirst(op: Op, rest: seq<Op>)
    requires Sound([op] + rest)
    ensures SoundOp(op) && Sound(rest)
  {
    ConsumesParts([op] + rest);
    assert ([op] + rest)[1..] == rest;
    hide SoundOp, Sound;
  }

  lemma ExecNone(x: Context, st: State, regs: Regs)
    requires Live(x, st)
    ensures Exec(x, [], st, regs) == Outcome(st, regs, false)
  {
  }

  /** `b` is the state a list started from; `n` characters were read and `t` printed since. */
  lemma Step(x: Context, b: State, n: nat, t: string, op: Op, rest: seq<Op>, r: Regs, m: nat, u: string, r1: Regs)
    requires Live(x, Adv(b, n, t)) && Sound([op] + rest) && SoundOp(op) && One(x, op, Adv(b, n, t), r) == Outcome(Adv(b, m, u), r1, false)
    ensures Sound(rest) && Live(x, Adv(b, m, u)) && Exec(x, [op] + rest, Adv(b, n, t), r) == Exec(x, rest, Adv(b, m, u), r1)
  {
    hide One, Sound, SoundOp, Exec, Wf;
    ExecStep(x, op, rest, Adv(b, n, t), r, Adv(b, m, u), r1);
  }

  lemma StepDo(x: Context, b: State, n: nat, t: string, op: Op, rest: seq<Op>, r: Regs, m: nat, u: string, r1: Regs)
    requires Live(x, Adv(b, n, t)) && Sound([op] + rest) && Simple(op) && Do(x, op, Adv(b, n, t), r) == Outcome(Adv(b, m, u), r1, false)
    ensures Sound(rest) && Live(x, Adv(b, m, u)) && Exec(x, [op] + rest, Adv(b, n, t), r) == Exec(x, rest, Adv(b, m, u), r1)
  {
    hide Sound, SoundOp, Exec, Wf, Do, Live, Simple, Adv;
    SoundFirst(op, rest);
    OneIsDo(x, op, Adv(b, n, t), r);
    Step(x, b, n, t, op, rest, r, m, u, r1);
  }

  lemma OneIsDo(x: Context, op: Op, st: State, r: Regs)
    requires Live(x, st) && Simple(op) && SoundOp(op)
    ensures One(x, op, st, r) == Do(x, op, st, r)
  {
    hide Do;
  }

  lemma StepStr(x: Context, b: State, n: nat, t: string, text: string, rest: seq<Op>, r: Regs)
    requires Live(x, Adv(b, n, t)) && Sound([Str(text)] + rest) && Roomy(b, |t| + |text|)
    ensures Sound(rest) && Live(x, Adv(b, n, t + text)) && Exec(x, [Str(text)] + rest, Adv(b, n, t), r) == Exec(x, rest, Adv(b, n, t + text), r)
  {
    AdvRoom(b, n, t, |text|);
    PutIs(Adv(b, n, t), Piece(text, 0));
    AdvAdv(b, n, t, 0, text);
    DoStr(x, Adv(b, n, t), text, r);
    hide Sound, Exec, Adv, Wf, Do;
    StepDo(x, b, n, t, Str(text), rest, r, n, t + text, r);
  }

  lemma DoStr(x: Context, st: State, text: string, r: Regs)
    ensures Do(x, Str(text), st, r) == Outcome(Put(st, Piece(text, 0)), r, false)
  {
    hide Put;
  }

  lemma StepShow(x: Context, full: bool, b: State, n: nat, t: string, what: What, rest: seq<Op>, r: Regs)
    requires IsSymbol(x, full) && Live(x, Adv(b, n, t)) && Sound([Show(what)] + rest)
    requires b.sink.Sink? ==> Roomy(b, |t| + |Text(x.sym, full, what, r, b.lifetimes).text| + Text(x.sym, full, what, r, b.lifetimes).slack)
    ensures var u := t + Text(x.sym, full, what, r, b.lifetimes).text;
      Sound(rest) && Live(x, Adv(b, n, u)) && Exec(x, [Show(what)] + rest, Adv(b, n, t), r) == Exec(x, rest, Adv(b, n, u), r)
  {
    ShownIs(x, full, what, r, b.lifetimes);
    var p := Text(x.sym, full, what, r, b.lifetimes);
    hide Sound, Exec, Wf, Do, Text, IsSymbol;
    DoShow(x, Adv(b, n, t), what, r);
    AdvRoom(b, n, t, |p.text| + p.slack);
    PutIs(Adv(b, n, t), p);
    AdvAdv(b, n, t, 0, p.text);
    StepDo(x, b, n, t, Show(what), rest, r, n, t + p.text, r);
  }

  lemma DoShow(x: Context, st: State, what: What, r: Regs)
    ensures Do(x, Show(what), st, r) == Outcome(Put(st, x.shown(what, r, st.lifetimes)), r, false)
  {
    hide Put;
  }

  lemma StepTake(x: Context, b: State, n: nat, t: string, note: Note, rest: seq<Op>, r: Regs)
    requires Live(x, Adv(b, n, t)) && Sound([Take(note)] + rest)
    ensures Sound(rest) && Exec(x, [Take(note)] + rest, Adv(b, n, t), r) == Exec(x, rest, Adv(b, n, t), Noted(r, note))
  {
    hide Sound, Exec, Wf, Noted;
    StepDo(x, b, n, t, Take(note), rest, r, n, t, Noted(r, note));
  }

  lemma StepIfBad(x: Context, b: State, n: nat, t: string, text: string, rest: seq<Op>, r: Regs)
    requires Live(x, Adv(b, n, t)) && Sound([StrIfBad(text)] + rest)
    ensures Sound(rest) && Exec(x, [StrIfBad(text)] + rest, Adv(b, n, t), r) == Exec(x, rest, Adv(b, n, t), r)
  {
    hide Sound, Exec, Wf;
    StepDo(x, b, n, t, StrIfBad(text), rest, r, n, t, r);
  }

  lemma StepCheck(x: Context, b: State, n: nat, t: string, c: Condition, rest: seq<Op>, r: Regs)
    requires Live(x, Adv(b, n, t)) && Sound([Check(c)] + rest) && Holds(x.sym, c, r)
    ensures Sound(rest) && Exec(x, [Check(c)] + rest, Adv(b, n, t), r) == Exec(x, rest, Adv(b, n, t), r)
  {
    hide Sound, Exec, Wf, Holds;
    StepDo(x, b, n, t, Check(c), rest, r, n, t, r);
  }

  /** A parser that takes `k` characters. */
  lemma StepParse(x: Context, b: State, n: nat, t: string, op: Op, rest: seq<Op>, r: Regs, k: nat, r1: Regs)
    requires Live(x, Adv(b, n, t)) && Sound([op] + rest) && (Takes(op) || op.ParseOptInteger?)
    requires Parse(x, op, Adv(b, n, t), r) == Outcome(Adv(b, n + k, t), r1, false)
    ensures Sound(rest) && Live(x, Adv(b, n + k, t)) && Exec(x, [op] + rest, Adv(b, n, t), r) == Exec(x, rest, Adv(b, n + k, t), r1)
  {
    hide Sound, Exec, Wf, Parse;
    StepDo(x, b, n, t, op, rest, r, n + k, t, r1);
  }

  lemma StepCall(x: Context, b: State, n: nat, t: string, rule: Rule, rest: seq<Op>, r: Regs, k: nat, u: string)
    requires Live(x, Adv(b, n, t)) && Sound([Call(rule)] + rest) && !rule.Generics? && Roomy(b, |t| + |u|)
    requires Enter(x, rule, Adv(b, n, t)) == Adv(Adv(b, n, t), k, u)
    ensures Sound(rest) && Live(x, Adv(b, n + k, t + u)) && Exec(x, [Call(rule)] + rest, Adv(b, n, t), r) == Exec(x, rest, Adv(b, n + k, t + u), r)
  {
    hide Sound, Exec, Wf, Enter;
    SoundFirst(Call(rule), rest);
    AdvAdv(b, n, t, k, u);
    OneCall(x, rule, Adv(b, n, t), r);
    Step(x, b, n, t, Call(rule), rest, r, n + k, t + u, r);
  }

  lemma OneCall(x: Context, rule: Rule, st: State, r: Regs)
    requires Live(x, st) && !rule.Generics?
    ensures One(x, Call(rule), st, r) == Came(Enter(x, rule, st), r)
  {
    hide Enter, Do;
  }

  /** A list in its own frame. */
  lemma StepFrame(x: Context, b: State, n: nat, t: string, body: seq<Op>, rest: seq<Op>, r: Regs, k: nat, u: string, r1: Regs)
    requires Live(x, Adv(b, n, t)) && Sound([Frame(body)] + rest) && Sound(body) && Roomy(b, |t| + |u|)
    requires Exec(x, body, Adv(b, n, t), NoRegs()) == Outcome(Adv(Adv(b, n, t), k, u), r1, false)
    ensures Sound(rest) && Live(x, Adv(b, n + k, t + u)) && Exec(x, [Frame(body)] + rest, Adv(b, n, t), r) == Exec(x, rest, Adv(b, n + k, t + u), r)
  {
    hide Sound, Exec, Wf;
    SoundFirst(Frame(body), rest);
    AdvAdv(b, n, t, k, u);
    OneFrame(x, body, Adv(b, n, t), r);
    Step(x, b, n, t, Frame(body), rest, r, n + k, t + u, r);
  }

  lemma OneFrame(x: Context, body: seq<Op>, st: State, r: Regs)
    requires Live(x, st) && Sound(body)
    ensures var o := Exec(x, body, st, NoRegs());
      && One(x, Frame(body), st, r) == Came(o.st, r) && One(x, Opens(body), st, r) == Came(o.st, r.(open := o.regs.open))
  {
    hide Exec, Do, Sound, Consumes;
  }

  lemma StepQuiet(x: Context, b: State, n: nat, t: string, body: seq<Op>, rest: seq<Op>, r: Regs, k: nat)
    requires Live(x, Adv(b, n, t)) && Sound([Quiet(body)] + rest) && Sound(body)
    requires Exec(x, body, Adv(b, n, t).(sink := Silent), r) == Outcome(Adv(b, n + k, t).(sink := Silent), r, false)
    ensures Sound(rest) && Live(x, Adv(b, n + k, t)) && Exec(x, [Quiet(body)] + rest, Adv(b, n, t), r) == Exec(x, rest, Adv(b, n + k, t), r)
  {
    hide Sound, Exec, Wf;
    SoundFirst(Quiet(body), rest);
    OneQuiet(x, body, Adv(b, n, t), r);
    Step(x, b, n, t, Quiet(body), rest, r, n + k, t, r);
  }

  lemma OneQuiet(x: Context, body: seq<Op>, st: State, r: Regs)
    requires Live(x, st) && Sound(body)
    ensures Wf(x, st.(sink := Silent))
    ensures var o := Exec(x, body, st.(sink := Silent), r); One(x, Quiet(body), st, r) == Outcome(o.st.(sink := st.sink), o.regs, o.returned)
  {
    hide Exec, Do, Sound, Consumes;
  }

  lemma StepTag(x: Context, b: State, n: nat, t: string, op: Op, rest: seq<Op>, r: Regs, m: nat, u: string, r1: Regs)
    requires Live(x, Adv(b, n, t)) && Sound([op] + rest) && op.IfTag? && Sound(op.yes) && Sound(op.no)
    requires Exec(x, if r.tag == op.c then op.yes else op.no, Adv(b, n, t), r) == Outcome(Adv(b, m, u), r1, false)
    ensures Sound(rest) && Live(x, Adv(b, m, u)) && Exec(x, [op] + rest, Adv(b, n, t), r) == Exec(x, rest, Adv(b, m, u), r1)
  {
    hide Sound, Exec, Wf;
    SoundFirst(op, rest);
    OneTag(x, op, Adv(b, n, t), r);
    Step(x, b, n, t, op, rest, r, m, u, r1);
  }

  lemma OneTag(x: Context, op: Op, st: State, r: Regs)
    requires Live(x, st) && op.IfTag? && Sound(op.yes) && Sound(op.no)
    ensures One(x, op, st, r) == Exec(x, if r.tag == op.c then op.yes else op.no, st, r)
  {
    hide Exec, Do, Sound, Consumes;
  }

  /** The character is there. */
  lemma StepEaten(x: Context, b: State, n: nat, t: string, op: Op, rest: seq<Op>, r: Regs, m: nat, u: string, r1: Regs)
    requires Live(x, Adv(b, n, t)) && Sound([op] + rest) && op.IfEat? && Sound(op.yes) && Sound(op.no) && Eats(x.sym, b.next + n, op.c)
    requires Wf(x, Adv(b, n + 1, t)) && Exec(x, op.yes, Adv(b, n + 1, t), r) == Outcome(Adv(b, m, u), r1, false)
    ensures Sound(rest) && Live(x, Adv(b, m, u)) && Exec(x, [op] + rest, Adv(b, n, t), r) == Exec(x, rest, Adv(b, m, u), r1)
  {
    hide Sound, Exec, Wf;
    SoundFirst(op, rest);
    OneEat(x, op, Adv(b, n, t), r);
    Step(x, b, n, t, op, rest, r, m, u, r1);
  }

  /** The character is not there. */
  lemma StepUneaten(x: Context, b: State, n: nat, t: string, op: Op, rest: seq<Op>, r: Regs, m: nat, u: string, r1: Regs)
    requires Live(x, Adv(b, n, t)) && Sound([op] + rest) && op.IfEat? && Sound(op.yes) && Sound(op.no) && !Eats(x.sym, b.next + n, op.c)
    requires Exec(x, op.no, Adv(b, n, t), r) == Outcome(Adv(b, m, u), r1, false)
    ensures Sound(rest) && Live(x, Adv(b, m, u)) && Exec(x, [op] + rest, Adv(b, n, t), r) == Exec(x, rest, Adv(b, m, u), r1)
  {
    hide Sound, Exec, Wf;
    SoundFirst(op, rest);
    OneEat(x, op, Adv(b, n, t), r);
    Step(x, b, n, t, op, rest, r, m, u, r1);
  }

  lemma OneEat(x: Context, op: Op, st: State, r: Regs)
    requires Live(x, st) && op.IfEat? && Sound(op.yes) && Sound(op.no)
    ensures Eats(x.sym, st.next, op.c) ==> Wf(x, st.(next := st.next + 1)) && One(x, op, st, r) == Exec(x, op.yes, st.(next := st.next + 1), r)
    ensures !Eats(x.sym, st.next, op.c) ==> One(x, op, st, r) == Exec(x, op.no, st, r)
  {
    hide Exec, Do, Sound, Consumes;
  }

  lemma StepUntil(x: Context, b: State, n: nat, t: string, op: Op, rest: seq<Op>, r: Regs, k: nat, u: string, r1: Regs)
    requires Live(x, Adv(b, n, t)) && Sound([op] + rest) && op.Until? && Sound(op.body) && Consumes(op.body) && Roomy(b, |t| + |u|)
    requires Loop(x, op.sep, op.body, Adv(b, n, t), r, 0) == Outcome(Adv(Adv(b, n, t), k, u), r1, false)
    ensures Sound(rest) && Live(x, Adv(b, n + k, t + u)) && Exec(x, [op] + rest, Adv(b, n, t), r) == Exec(x, rest, Adv(b, n + k, t + u), r1)
  {
    hide Sound, Consumes, Exec, Wf, Loop;
    SoundFirst(op, rest);
    AdvAdv(b, n, t, k, u);
    OneUntil(x, op, Adv(b, n, t), r);
    Step(x, b, n, t, op, rest, r, n + k, t + u, r1);
  }

  lemma OneUntil(x: Context, op: Op, st: State, r: Regs)
    requires Live(x, st) && op.Until? && Sound(op.body) && Consumes(op.body)
    ensures One(x, op, st, r) == Loop(x, op.sep, op.body, st, r, 0)
  {
    hide Loop, Do, Sound, Consumes;
  }

  // ------------------------------------------------------------------ lists

  function Sep(sep: string, count: nat): string { if count == 0 then "" else sep }

  lemma LoopEnds(x: Context, sep: string, body: seq<Op>, st: State, regs: Regs, count: nat)
    requires Live(x, st) && Sound(body) && Consumes(body) && Eats(x.sym, st.next, 'E')
    ensures Loop(x, sep, body, st, regs, count) == Outcome(Adv(st, 1, ""), regs.(count := count), false)
  {
    hide Loop, Sound, Consumes, Wf;
    LoopUnfolds(x, sep, body, st, regs, count);
    if st.sink.Sink? { assert st.sink.text + "" == st.sink.text; }
  }

  /** One element that takes `k` characters, and the others. */
  lemma LoopGoes(x: Context, sep: string, body: seq<Op>, st: State, regs: Regs, count: nat, k: nat, u: string, k': nat, u': string, r': Regs)
    requires Live(x, st) && Sound(body) && Consumes(body) && !Eats(x.sym, st.next, 'E') && Roomy(st, |Sep(sep, count)| + |u| + |u'|)
    requires var s1 := Adv(st, 0, Sep(sep, count)); Wf(x, s1) && Exec(x, body, s1, regs) == Outcome(Adv(s1, k, u), regs, false)
    requires var s2 := Adv(st, k, Sep(sep, count) + u); Wf(x, s2) && Loop(x, sep, body, s2, regs, count + 1) == Outcome(Adv(s2, k', u'), r', false)
    ensures Loop(x, sep, body, st, regs, count) == Outcome(Adv(st, k + k', Sep(sep, count) + u + u'), r', false)
  {
    hide Loop, Exec, Sound, Consumes, Wf;
    LoopUnfolds(x, sep, body, st, regs, count);
    SpacedIs(st, sep, count);
    AdvAdv(st, 0, Sep(sep, count), k, u);
    AdvAdv(st, k, Sep(sep, count) + u, k', u');
    FineAdv(st, k, Sep(sep, count) + u);
    hide Adv, Spaced, Sep, Fine;
  }

  lemma FineAdv(st: State, n: nat, t: string)
    requires Fine(st)
    ensures Fine(Adv(st, n, t))
  {
  }

  lemma SpacedIs(st: State, sep: string, count: nat)
    requires Fine(st) && Roomy(st, |Sep(sep, count)|)
    ensures Spaced(st, sep, count) == Adv(st, 0, Sep(sep, count))
  {
    if count == 0 { AdvNone(st); } else { PutIs(st, Piece(sep, 0)); }
  }

  // ------------------------------------------------------------------ functions

  /** A function that reads its tag and then its list. */
  lemma EnteredIs(x: Context, ops: seq<Op>, st: State, k: nat, u: string, r: Regs)
    requires Live(x, st) && st.depth < MAX_DEPTH && st.next < |x.sym| && Sound(ops)
    requires var inner := st.(next := st.next + 1, depth := st.depth + 1); Exec(x, ops, inner, NoRegs()) == Outcome(Adv(inner, k, u), r, false)
    ensures Entered(x, ops, st) == Adv(st, k + 1, u)
  {
    var inner := st.(next := st.next + 1, depth := st.depth + 1);
    EnteredUnfolds(x, ops, st);
    hide Exec, Sound, Entered, Wf;
    LeftIs(st, inner, k, u, r);
  }

  lemma EnteredUnfolds(x: Context, ops: seq<Op>, st: State)
    requires Live(x, st) && st.depth < MAX_DEPTH && st.next < |x.sym| && Sound(ops)
    ensures var inner := st.(next := st.next + 1, depth := st.depth + 1); Wf(x, inner) && Entered(x, ops, st) == Left(Exec(x, ops, inner, NoRegs()))
  {
    hide Exec, Sound, Left, Ok;
  }

  lemma LeftIs(st: State, inner: State, k: nat, u: string, r: Regs)
    requires Fine(st) && inner == st.(next := st.next + 1, depth := st.depth + 1)
    ensures Left(Outcome(Adv(inner, k, u), r, false)) == Adv(st, k + 1, u)
  {
  }

  lemma PathIs(x: Context, v: bool, st: State)
    requires Live(x, st) && st.depth < MAX_DEPTH && st.next < |x.sym|
    ensures Sound(PathOps(x.sym[st.next], v)) && Enter(x, Path(v), st) == Entered(x, PathOps(x.sym[st.next], v), st)
  {
    PathSound(x.sym[st.next], v);
    hide PathOps, Entered, Sound;
  }

  lemma ConstIs(x: Context, v: bool, st: State)
    requires Live(x, st) && st.depth < MAX_DEPTH && st.next < |x.sym|
    ensures Sound(ConstOps(x.sym[st.next], v)) && Enter(x, Const(v), st) == Entered(x, ConstOps(x.sym[st.next], v), st)
  {
    ConstSound(x.sym[st.next], v);
    hide ConstOps, Entered, Sound;
  }

  lemma TypeIs(x: Context, st: State)
    requires Live(x, st) && st.depth < MAX_DEPTH && st.next < |x.sym| && !IsBasicType(x.sym[st.next]) && TypeOps(x.sym[st.next]).Some?
    ensures Sound(TypeOps(x.sym[st.next]).value) && Enter(x, Type, st) == Entered(x, TypeOps(x.sym[st.next]).value, st)
  {
    TypeSound(x.sym[st.next]);
    hide TypeOps, Entered, IsBasicType, Sound;
  }

  lemma TypeIsPath(x: Context, st: State)
    requires Live(x, st) && st.depth < MAX_DEPTH && st.next < |x.sym| && !IsBasicType(x.sym[st.next]) && TypeOps(x.sym[st.next]).None?
    ensures Wf(x, st.(depth := st.depth + 1)) && Enter(x, Type, st) == Popped(Enter(x, Path(false), st.(depth := st.depth + 1)))
  {
    hide TypeOps, IsBasicType, EnterPath, Entered;
  }

  lemma TypeIsBasic(x: Context, full: bool, st: State)
    requires IsSymbol(x, full) && Live(x, st) && st.next < |x.sym| && IsBasicType(x.sym[st.next]) && Roomy(st, |BasicTypeName(x.sym[st.next])|)
    ensures Enter(x, Type, st) == Adv(st, 1, BasicTypeName(x.sym[st.next]))
  {
    var r := NoRegs().(tag := x.sym[st.next]);
    ShownIs(x, full, BasicName, r, st.lifetimes);
    hide TypeOps, IsBasicType, EnterPath, Entered, BasicTypeName, IsSymbol;
  }

  /** A back-reference goes on behind itself, with the text of its target. */
  lemma BackIs(x: Context, rule: Rule, st: State, regs: Regs, at: nat, u: string, r: Regs)
    requires Live(x, st) && st.depth < MAX_DEPTH && at + 1 < st.next && FitsNumber(at) && TextAt(x.sym, st.next, Encode62(at)) && Roomy(st, |u|)
    requires st.sink.Sink? ==>
      var s1 := st.(next := at, depth := st.depth + 1);
      var o := Follow(x, rule, s1);
      o.st.sink == Adv(st, 0, u).sink && o.st.lifetimes == st.lifetimes && !o.st.overflow && o.regs.open == r.open
    requires r == regs.(open := if st.sink.Sink? then r.open else false)
    ensures Back(x, rule, st, regs) == Outcome(Adv(st, |Encode62(at)|, u), r, false)
  {
    Integer62RoundTrip(x.sym, st.next, at);
    hide Follow, Integer62, Encode62, TextAt;
  }

  lemma OneBack(x: Context, rule: Rule, st: State, r: Regs)
    requires Live(x, st)
    ensures One(x, Backref(rule), st, r) == Back(x, rule, st, r)
  {
    hide Back, Do;
  }
}

/** The demangler's functions one by one, given what the functions they call do. */
module RustPhrases {
  import opened Bytes
  import opened RustLexer
  import opened RustSyntax
  import opened RustPlaces
  import opened RustPrinter
  import opened RustInterpreter
  import opened RustText
  import opened RustTokens
  import opened RustSteps
  import Utf8

  /** The list reads `k` characters and prints `u`. */
  predicate Goes(x: Context, ops: seq<Op>, b: State, r: Regs, k: nat, u: string) {
    Live(x, b) && Sound(ops) && Exec(x, ops, b, r).st == Adv(b, k, u) && !Exec(x, ops, b, r).returned
  }

  lemma GoesIs(x: Context, ops: seq<Op>, b: State, r: Regs, k: nat, u: string, r1: Regs)
    requires Live(x, b) && Sound(ops) && Exec(x, ops, b, r) == Outcome(Adv(b, k, u), r1, false)
    ensures Goes(x, ops, b, r, k, u)
  {
    hide Ok, After, SinkAfter, Consumes, Exec, Sound, Wf, Fine, Adv;
  }

  // ------------------------------------------------------------------ text at a place

  lemma Splits(sym: string, p: nat, a: string, b: string)
    requires TextAt(sym, p, a + b)
    ensures TextAt(sym, p, a) && TextAt(sym, p + |a|, b)
    ensures b != "" && b[0] != '_' ==> Stands(sym, p, a)
    ensures Stands(sym, p, a + b) ==> Stands(sym, p + |a|, b)
  {
    hide TextAt;
    TextParts(sym, p, a, b);
    if b != "" { CharAt(sym, p + |a|, b, 0); }
  }

  lemma FirstIs(sym: string, p: nat, w: string)
    requires TextAt(sym, p, w) && w != ""
    ensures p < |sym| && sym[p] == w[0]
  {
    CharAt(sym, p, w, 0);
  }

  // ------------------------------------------------------------------ steps on tokens

  lemma AdvParse(b: State, n: nat, t: string, k: nat)
    ensures Adv(b, n, t).next == b.next + n && Adv(b, n, t).(next := b.next + n + k) == Adv(b, n + k, t)
  {
  }

  lemma OptParses(x: Context, st: State, tag: char, r: Regs)
    ensures var v := OptInteger62(x.sym, st.next, tag);
      v.Number? ==> Parse(x, ParseOptInteger(tag), st, r) == Outcome(st.(next := v.next), r.(number := v.value), false)
  {
    hide OptInteger62;
  }

  lemma IntegerParses(x: Context, st: State, r: Regs)
    ensures var v := Integer62(x.sym, st.next); v.Number? ==> Parse(x, ParseInteger, st, r) == Outcome(st.(next := v.next), r.(number := v.value), false)
  {
    hide Integer62;
  }

  lemma IdentParses(x: Context, st: State, r: Regs)
    ensures var v := Identifier(x.sym, st.next); v.IdentAt? ==> Parse(x, ParseIdent, st, r) == Outcome(st.(next := v.next), r.(ident := v.ident), false)
  {
    hide Identifier;
  }

  lemma StepOpt(x: Context, b: State, n: nat, t: string, tag: char, d: nat, rest: seq<Op>, r: Regs)
    requires Live(x, Adv(b, n, t)) && Sound([ParseOptInteger(tag)] + rest)
    requires TextAt(x.sym, b.next + n, MangleOpt(tag, d)) && FitsNumber(d) && !(d == 0 && Eats(x.sym, b.next + n, tag))
    ensures var k := n + |MangleOpt(tag, d)|;
      && Sound(rest) && Live(x, Adv(b, k, t))
      && Exec(x, [ParseOptInteger(tag)] + rest, Adv(b, n, t), r) == Exec(x, rest, Adv(b, k, t), r.(number := d))
  {
    hide Ok, After, SinkAfter, Consumes, ConsumesOp, SoundOp, Sound, Exec, Enter, Loop, Wf, Fine, Adv, TextAt, MangleOpt, Parse;
    OptReads(x.sym, b.next + n, tag, d);
    OptParses(x, Adv(b, n, t), tag, r);
    AdvParse(b, n, t, |MangleOpt(tag, d)|);
    StepParse(x, b, n, t, ParseOptInteger(tag), rest, r, |MangleOpt(tag, d)|, r.(number := d));
  }

  lemma StepInteger(x: Context, b: State, n: nat, t: string, v: nat, rest: seq<Op>, r: Regs)
    requires Live(x, Adv(b, n, t)) && Sound([ParseInteger] + rest) && TextAt(x.sym, b.next + n, Encode62(v)) && FitsNumber(v)
    ensures var k := n + |Encode62(v)|;
      && Sound(rest) && Live(x, Adv(b, k, t))
      && Exec(x, [ParseInteger] + rest, Adv(b, n, t), r) == Exec(x, rest, Adv(b, k, t), r.(number := v))
  {
    hide Ok, After, SinkAfter, Consumes, ConsumesOp, SoundOp, Sound, Exec, Enter, Loop, Wf, Fine, Adv, TextAt, Encode62, Integer62, Parse;
    Integer62RoundTrip(x.sym, b.next + n, v);
    IntegerParses(x, Adv(b, n, t), r);
    AdvParse(b, n, t, |Encode62(v)|);
    StepParse(x, b, n, t, ParseInteger, rest, r, |Encode62(v)|, r.(number := v));
  }

  /** The registers hold the name. */
  predicate Holding(sym: string, i: Ident, n: Name) {
    && IdentPiece(sym, i).text == RenderName(n) && IdentPiece(sym, i).slack <= 3
    && (i.asciiLen != 0 <==> n.ascii != "") && (i.punyLen != 0 <==> n.puny != "")
    && Part(sym, i.asciiStart, i.asciiLen) == n.ascii
  }

  lemma StepIdent(x: Context, b: State, n: nat, t: string, name: Name, rest: seq<Op>, r: Regs) returns (i: Ident)
    requires Live(x, Adv(b, n, t)) && Sound([ParseIdent] + rest) && Stands(x.sym, b.next + n, MangleName(name)) && FitsName(name)
    ensures var k := n + |MangleName(name)|;
      && Sound(rest) && Live(x, Adv(b, k, t)) && Holding(x.sym, i, name)
      && Exec(x, [ParseIdent] + rest, Adv(b, n, t), r) == Exec(x, rest, Adv(b, k, t), r.(ident := i))
  {
    hide Ok, After, SinkAfter, Consumes, ConsumesOp, SoundOp, Sound, Exec, Enter, Loop, Wf, Fine, Adv, Stands, MangleName,
         Identifier, RenderName, DisplayIdent, Part, FitsName, Parse;
    NameReads(x.sym, b.next + n, name);
    i := Identifier(x.sym, b.next + n).ident;
    DisplaySame(name.ascii, name.puny);
    IdentParses(x, Adv(b, n, t), r);
    AdvParse(b, n, t, |MangleName(name)|);
    StepParse(x, b, n, t, ParseIdent, rest, r, |MangleName(name)|, r.(ident := i));
  }

  /** Print a name that was read. */
  lemma StepName(x: Context, full: bool, b: State, n: nat, t: string, name: Name, rest: seq<Op>, r: Regs)
    requires IsSymbol(x, full) && Live(x, Adv(b, n, t)) && Sound([Show(IdentName)] + rest) && Holding(x.sym, r.ident, name)
    requires Roomy(b, |t| + |RenderName(name)| + 3)
    ensures var u := t + RenderName(name);
      Sound(rest) && Live(x, Adv(b, n, u)) && Exec(x, [Show(IdentName)] + rest, Adv(b, n, t), r) == Exec(x, rest, Adv(b, n, u), r)
  {
    hide Ok, After, SinkAfter, Consumes, ConsumesOp, SoundOp, Sound, Exec, Enter, Loop, Wf, Fine, Adv, RenderName, IdentPiece, IsSymbol;
    StepShow(x, full, b, n, t, IdentName, rest, r);
  }

  /** Print a text that needs no more room than it takes. */
  lemma StepText(x: Context, full: bool, b: State, n: nat, t: string, what: What, w: string, rest: seq<Op>, r: Regs)
    requires IsSymbol(x, full) && Live(x, Adv(b, n, t)) && Sound([Show(what)] + rest) && Roomy(b, |t| + |w|)
    requires b.sink.Sink? ==> Text(x.sym, full, what, r, b.lifetimes) == Piece(w, 0)
    ensures Sound(rest) && Live(x, Adv(b, n, t + w)) && Exec(x, [Show(what)] + rest, Adv(b, n, t), r) == Exec(x, rest, Adv(b, n, t + w), r)
  {
    hide Ok, After, SinkAfter, Consumes, ConsumesOp, SoundOp, Sound, Exec, Enter, Loop, Wf, Fine, Adv, Text, IsSymbol;
    StepShow(x, full, b, n, t, what, rest, r);
    if b.sink.Silent? { SilentText(b, n, t + w, t + Text(x.sym, full, what, r, b.lifetimes).text); }
  }

  lemma SilentText(b: State, n: nat, t: string, u: string)
    requires b.sink.Silent?
    ensures Adv(b, n, t) == Adv(b, n, u)
  {
  }

  // ------------------------------------------------------------------ paths

  function HashText(dis: nat, full: bool): string { if full && dis != 0 then "[" + HexText(dis) + "]" else "" }

  function CrateText(name: Name, dis: nat, full: bool): string { RenderName(name) + HashText(dis, full) }

  lemma CrateShape(v: bool)
    ensures PathOps('C', v) == [ParseOptInteger('s')] + ([ParseIdent] + ([Show(IdentName)] + ([Show(CrateHash)] + [])))
  {
  }

  lemma CrateTextIs(sym: string, name: Name, dis: nat, full: bool, r: Regs, l: nat)
    requires r.number == dis
    ensures "" + RenderName(name) == RenderName(name) && CrateText(name, dis, full) == RenderName(name) + HashText(dis, full)
    ensures Text(sym, full, CrateHash, r, l) == Piece(HashText(dis, full), 0)
  {
    HexSame(dis);
    hide RenderName, Hex, HexText;
    assert "" + RenderName(name) == RenderName(name);
  }

  lemma CrateRuns(x: Context, full: bool, v: bool, b: State, dis: nat, name: Name)
    requires IsSymbol(x, full) && Live(x, b) && Stands(x.sym, b.next, MangleOpt('s', dis) + MangleName(name)) && FitsNumber(dis) && FitsName(name)
    requires Roomy(b, |CrateText(name, dis, full)| + 3)
    ensures Goes(x, PathOps('C', v), b, NoRegs(), |MangleOpt('s', dis)| + |MangleName(name)|, CrateText(name, dis, full))
  {
    hide Ok, After, SinkAfter, Consumes, ConsumesOp, SoundOp, Sound, Exec, Enter, Loop, Wf, Fine, Adv, MangleOpt, MangleName,
         RenderName, HexText, FitsName, IsSymbol, Holding, NoRegs, TextAt, PathOps, Goes, Stands, Text, CrateText;
    PathSound('C', v);
    CrateShape(v);
    NameStarts(name);
    StandsText(x.sym, b.next, MangleOpt('s', dis) + MangleName(name));
    Splits(x.sym, b.next, MangleOpt('s', dis), MangleName(name));
    OptAbsent(x.sym, b.next, 's', dis, MangleName(name));
    AdvNone(b);
    var hash := [Show(CrateHash)] + [];
    StepOpt(x, b, 0, "", 's', dis, [ParseIdent] + ([Show(IdentName)] + hash), NoRegs());
    var k, r1 := |MangleOpt('s', dis)|, NoRegs().(number := dis);
    var i := StepIdent(x, b, k, "", name, [Show(IdentName)] + hash, r1);
    var m, r2 := k + |MangleName(name)|, r1.(ident := i);
    CrateTextIs(x.sym, name, dis, full, r2, b.lifetimes);
    StepName(x, full, b, m, "", name, hash, r2);
    StepText(x, full, b, m, RenderName(name), CrateHash, HashText(dis, full), [], r2);
    ExecNone(x, Adv(b, m, CrateText(name, dis, full)), r2);
    GoesIs(x, PathOps('C', v), b, NoRegs(), m, CrateText(name, dis, full), r2);
  }

  /** What follows an absent number is not read as one. */
  lemma OptAbsent(sym: string, p: nat, tag: char, d: nat, w: string)
    requires TextAt(sym, p, MangleOpt(tag, d) + w) && w != "" && w[0] != tag
    ensures !(d == 0 && Eats(sym, p, tag))
  {
    if d == 0 {
      assert MangleOpt(tag, d) + w == w;
      FirstIs(sym, p, w);
    }
  }

  lemma SegmentSame(sym: string, regs: Regs, space: char, dis: nat, name: Name)
    requires regs.tag == space && regs.number == dis && Holding(sym, regs.ident, name)
    ensures PathNamePiece(sym, regs).text == RenderSegment(space, dis, name) && PathNamePiece(sym, regs).slack <= 3
  {
    hide RenderName, IdentPiece, Text10, Part;
    var kind, name', number := if space == 'C' then "closure" else if space == 'S' then "shim" else [space], RenderName(name), Text10(dis);
    assert "::{" + kind + ":" + name' + ("#" + number + "}") == "::{" + kind + (":" + name') + "#" + number + "}";
    assert "::{" + kind + ("#" + number + "}") == "::{" + kind + "" + "#" + number + "}";
  }

  lemma NamespaceParses(x: Context, st: State, c: char, r: Regs)
    requires Eats(x.sym, st.next, c) && IsLetter(c)
    ensures Parse(x, ParseNamespace, st, r) == Outcome(st.(next := st.next + 1), r.(tag := c), false)
  {
  }

  lemma StepNamespace(x: Context, b: State, n: nat, t: string, c: char, rest: seq<Op>, r: Regs)
    requires Live(x, Adv(b, n, t)) && Sound([ParseNamespace] + rest) && Eats(x.sym, b.next + n, c) && IsLetter(c)
    ensures Sound(rest) && Live(x, Adv(b, n + 1, t)) && Exec(x, [ParseNamespace] + rest, Adv(b, n, t), r) == Exec(x, rest, Adv(b, n + 1, t), r.(tag := c))
  {
    hide Ok, After, SinkAfter, Consumes, ConsumesOp, SoundOp, Sound, Exec, Enter, Loop, Wf, Fine, Adv, Parse;
    AdvParse(b, n, t, 1);
    NamespaceParses(x, Adv(b, n, t), c, r);
    StepParse(x, b, n, t, ParseNamespace, rest, r, 1, r.(tag := c));
  }

  lemma PathNameIs(sym: string, full: bool, r: Regs, l: nat)
    ensures Text(sym, full, PathName, r, l) == PathNamePiece(sym, r)
  {
    hide PathNamePiece;
  }

  function NameOps(): seq<Op> { [ParseOptInteger('s')] + ([ParseIdent] + ([Show(PathName)] + [])) }

  /** The name behind a path. */
  lemma SegmentRuns(x: Context, full: bool, b: State, n: nat, t: string, space: char, dis: nat, name: Name, r: Regs) returns (r': Regs)
    requires IsSymbol(x, full) && Live(x, Adv(b, n, t)) && Sound(NameOps()) && r.tag == space && FitsNumber(dis) && FitsName(name)
    requires Stands(x.sym, b.next + n, MangleOpt('s', dis) + MangleName(name)) && Roomy(b, |t| + |RenderSegment(space, dis, name)| + 3)
    ensures Exec(x, NameOps(), Adv(b, n, t), r) == Outcome(Adv(b, n + |MangleOpt('s', dis)| + |MangleName(name)|, t + RenderSegment(space, dis, name)), r', false)
  {
    hide Ok, After, SinkAfter, Consumes, ConsumesOp, SoundOp, Sound, Exec, Enter, Loop, Wf, Fine, Adv, MangleOpt, MangleName,
         RenderSegment, FitsName, IsSymbol, Holding, TextAt, PathNamePiece, Stands, Text;
    var last := [Show(PathName)] + [];
    NameStarts(name);
    StandsText(x.sym, b.next + n, MangleOpt('s', dis) + MangleName(name));
    Splits(x.sym, b.next + n, MangleOpt('s', dis), MangleName(name));
    OptAbsent(x.sym, b.next + n, 's', dis, MangleName(name));
    StepOpt(x, b, n, t, 's', dis, [ParseIdent] + last, r);
    var k, r1 := n + |MangleOpt('s', dis)|, r.(number := dis);
    var i := StepIdent(x, b, k, t, name, last, r1);
    r' := r1.(ident := i);
    var m := k + |MangleName(name)|;
    SegmentSame(x.sym, r', space, dis, name);
    PathNameIs(x.sym, full, r', b.lifetimes);
    StepShow(x, full, b, m, t, PathName, [], r');
    ExecNone(x, Adv(b, m, t + RenderSegment(space, dis, name)), r');
  }

  lemma StandsText(sym: string, p: nat, w: string)
    requires Stands(sym, p, w)
    ensures TextAt(sym, p, w)
  {
    hide TextAt;
  }

  lemma NestedShape(v: bool)
    ensures PathOps('N', v) == [ParseNamespace] + ([Call(Path(v))] + ([StrIfBad("::")] + NameOps()))
  {
  }

  lemma NestedRuns(x: Context, full: bool, v: bool, b: State, space: char, dis: nat, name: Name, k: nat, u: string)
    requires IsSymbol(x, full) && Live(x, b) && IsLetter(space) && Eats(x.sym, b.next, space) && FitsNumber(dis) && FitsName(name)
    requires Wf(x, Adv(b, 1, "")) && Enter(x, Path(v), Adv(b, 1, "")) == Adv(Adv(b, 1, ""), k, u)
    requires Stands(x.sym, b.next + 1 + k, MangleOpt('s', dis) + MangleName(name)) && Roomy(b, |u| + |RenderSegment(space, dis, name)| + 3)
    ensures Goes(x, PathOps('N', v), b, NoRegs(), 1 + k + |MangleOpt('s', dis)| + |MangleName(name)|, u + RenderSegment(space, dis, name))
  {
    hide Ok, After, SinkAfter, Consumes, ConsumesOp, SoundOp, Sound, Exec, Enter, Loop, Wf, Fine, Adv, MangleOpt, MangleName,
         RenderSegment, FitsName, IsSymbol, NoRegs, Stands, IsLetter, NameOps, PathOps, Goes, Eats;
    PathSound('N', v);
    NestedShape(v);
    AdvNone(b);
    var r := NoRegs().(tag := space);
    StepNamespace(x, b, 0, "", space, [Call(Path(v))] + ([StrIfBad("::")] + NameOps()), NoRegs());
    StepCall(x, b, 1, "", Path(v), [StrIfBad("::")] + NameOps(), r, k, u);
    assert "" + u == u;
    StepIfBad(x, b, 1 + k, u, "::", NameOps(), r);
    var r' := SegmentRuns(x, full, b, 1 + k, u, space, dis, name, r);
    GoesIs(x, PathOps('N', v), b, NoRegs(), 1 + k + |MangleOpt('s', dis)| + |MangleName(name)|, u + RenderSegment(space, dis, name), r');
  }

  lemma CallSound(rule: Rule)
    requires !rule.Generics?
    ensures Sound([Call(rule)])
  {
  }

  lemma CallAlone(x: Context, rule: Rule, st: State, r: Regs, k: nat, u: string)
    requires Live(x, st) && !rule.Generics? && Roomy(st, |u|) && Enter(x, rule, st) == Adv(st, k, u)
    ensures Sound([Call(rule)]) && Live(x, Adv(st, k, u)) && Exec(x, [Call(rule)], st, r) == Outcome(Adv(st, k, u), r, false)
  {
    hide Ok, After, SinkAfter, Consumes, ConsumesOp, SoundOp, Sound, Exec, Enter, Loop, Wf, Fine, Adv;
    CallSound(rule);
    assert [Call(rule)] == [Call(rule)] + [];
    AdvNone(st);
    StepCall(x, st, 0, "", rule, [], r, k, u);
    assert "" + u == u;
    ExecNone(x, Adv(st, k, u), r);
  }

  lemma FrameSound(body: seq<Op>)
    requires Sound(body)
    ensures Sound([Frame(body)])
  {
    hide Sound;
    assert SoundOp(Frame(body));
    SingleSound(Frame(body));
  }

  lemma FrameAlone(x: Context, body: seq<Op>, st: State, r: Regs, k: nat, u: string)
    requires Goes(x, body, st, NoRegs(), k, u) && Roomy(st, |u|)
    ensures Sound([Frame(body)]) && Live(x, Adv(st, k, u)) && Exec(x, [Frame(body)], st, r) == Outcome(Adv(st, k, u), r, false)
  {
    hide Ok, After, SinkAfter, Consumes, ConsumesOp, SoundOp, Sound, Exec, Enter, Loop, Wf, Fine, Adv, Goes, NoRegs;
    var r1 := GoesTo(x, body, st, NoRegs(), k, u);
    FrameSound(body);
    assert [Frame(body)] == [Frame(body)] + [];
    AdvNone(st);
    StepFrame(x, st, 0, "", body, [], r, k, u, r1);
    assert "" + u == u;
    ExecNone(x, Adv(st, k, u), r);
  }

  lemma SilentAdv(b: State, n: nat, k: nat)
    ensures Adv(Adv(b, n, "").(sink := Silent), k, "") == Adv(b, n + k, "").(sink := Silent)
  {
  }

  lemma SilentLive(x: Context, st: State)
    requires Live(x, st)
    ensures Live(x, st.(sink := Silent))
  {
  }

  /** The path of an impl is read silently. */
  lemma StepHome(x: Context, b: State, n: nat, rest: seq<Op>, r: Regs, k: nat)
    requires Live(x, Adv(b, n, "")) && Sound([Quiet([Call(Path(false))])] + rest)
    requires var q := Adv(b, n, "").(sink := Silent); Wf(x, q) && Enter(x, Path(false), q) == Adv(q, k, "")
    ensures Sound(rest) && Live(x, Adv(b, n + k, ""))
    ensures Exec(x, [Quiet([Call(Path(false))])] + rest, Adv(b, n, ""), r) == Exec(x, rest, Adv(b, n + k, ""), r)
  {
    hide Ok, After, SinkAfter, Consumes, ConsumesOp, SoundOp, Sound, Exec, Enter, Loop, Wf, Fine, Adv;
    var q := Adv(b, n, "").(sink := Silent);
    SilentAdv(b, n, k);
    SilentLive(x, Adv(b, n, ""));
    CallAlone(x, Path(false), q, r, k, "");
    StepQuiet(x, b, n, "", [Call(Path(false))], rest, r, k);
  }

  function SelfOps(): seq<Op> { [Str("<")] + ([Call(Type)] + ([Str(">")] + [])) }

  function RoleOps(): seq<Op> { [Str("<")] + ([Call(Type)] + ([Str(" as ")] + ([Call(Path(false))] + ([Str(">")] + [])))) }

  lemma SelfRuns(x: Context, b: State, n: nat, r: Regs, k: nat, u: string)
    requires Live(x, Adv(b, n, "")) && Sound(SelfOps()) && Roomy(b, |u| + 2)
    requires Wf(x, Adv(b, n, "<")) && Enter(x, Type, Adv(b, n, "<")) == Adv(Adv(b, n, "<"), k, u)
    ensures Exec(x, SelfOps(), Adv(b, n, ""), r) == Outcome(Adv(b, n + k, "<" + u + ">"), r, false)
  {
    hide Ok, After, SinkAfter, Consumes, ConsumesOp, SoundOp, Sound, Exec, Enter, Loop, Wf, Fine, Adv;
    StepStr(x, b, n, "", "<", [Call(Type)] + ([Str(">")] + []), r);
    assert "" + "<" == "<";
    StepCall(x, b, n, "<", Type, [Str(">")] + [], r, k, u);
    StepStr(x, b, n + k, "<" + u, ">", [], r);
    ExecNone(x, Adv(b, n + k, "<" + u + ">"), r);
  }

  lemma RoleRuns(x: Context, b: State, n: nat, r: Regs, k: nat, u: string, k': nat, u': string)
    requires Live(x, Adv(b, n, "")) && Sound(RoleOps()) && Roomy(b, |u| + |u'| + 6)
    requires Wf(x, Adv(b, n, "<")) && Enter(x, Type, Adv(b, n, "<")) == Adv(Adv(b, n, "<"), k, u)
    requires var s := Adv(b, n + k, "<" + u + " as "); Wf(x, s) && Enter(x, Path(false), s) == Adv(s, k', u')
    ensures Exec(x, RoleOps(), Adv(b, n, ""), r) == Outcome(Adv(b, n + k + k', "<" + u + " as " + u' + ">"), r, false)
  {
    hide Ok, After, SinkAfter, Consumes, ConsumesOp, SoundOp, Sound, Exec, Enter, Loop, Wf, Fine, Adv;
    var end := [Str(">")] + [];
    StepStr(x, b, n, "", "<", [Call(Type)] + ([Str(" as ")] + ([Call(Path(false))] + end)), r);
    assert "" + "<" == "<";
    StepCall(x, b, n, "<", Type, [Str(" as ")] + ([Call(Path(false))] + end), r, k, u);
    StepStr(x, b, n + k, "<" + u, " as ", [Call(Path(false))] + end, r);
    StepCall(x, b, n + k, "<" + u + " as ", Path(false), end, r, k', u');
    StepStr(x, b, n + k + k', "<" + u + " as " + u', ">", [], r);
    ExecNone(x, Adv(b, n + k + k', "<" + u + " as " + u' + ">"), r);
  }

  /** The disambiguator and the path of an impl. */
  lemma HomeRuns(x: Context, b: State, dis: nat, home: PathAst, rest: seq<Op>)
    requires Live(x, b) && Sound([ParseOptInteger('s')] + ([Quiet([Call(Path(false))])] + rest))
    requires TextAt(x.sym, b.next, MangleOpt('s', dis) + ManglePath(home)) && FitsNumber(dis)
    requires var q := Adv(b, |MangleOpt('s', dis)|, "").(sink := Silent); Wf(x, q) && Enter(x, Path(false), q) == Adv(q, |ManglePath(home)|, "")
    ensures var n := |MangleOpt('s', dis)| + |ManglePath(home)|; var r := NoRegs().(number := dis);
      && Sound(rest) && Live(x, Adv(b, n, ""))
      && Exec(x, [ParseOptInteger('s')] + ([Quiet([Call(Path(false))])] + rest), b, NoRegs()) == Exec(x, rest, Adv(b, n, ""), r)
  {
    hide Ok, After, SinkAfter, Consumes, ConsumesOp, SoundOp, Sound, Exec, Enter, Loop, Wf, Fine, Adv, MangleOpt, ManglePath, NoRegs, TextAt;
    PathStarts(home);
    AdvNone(b);
    Splits(x.sym, b.next, MangleOpt('s', dis), ManglePath(home));
    OptAbsent(x.sym, b.next, 's', dis, ManglePath(home));
    StepOpt(x, b, 0, "", 's', dis, [Quiet([Call(Path(false))])] + rest, NoRegs());
    StepHome(x, b, |MangleOpt('s', dis)|, rest, NoRegs().(number := dis), |ManglePath(home)|);
  }

  lemma ImplShapes(v: bool)
    ensures PathOps('M', v) == [ParseOptInteger('s')] + ([Quiet([Call(Path(false))])] + SelfOps())
    ensures PathOps('X', v) == [ParseOptInteger('s')] + ([Quiet([Call(Path(false))])] + RoleOps())
    ensures PathOps('Y', v) == RoleOps()
  {
  }

  lemma GenericShape(v: bool)
    ensures PathOps('I', v) == [Call(Path(v))] + ([Str(if v then "::" else "")] + ([Frame(GenericArgs())] + []))
  {
    hide GenericArgs;
  }

  lemma ArgsShape()
    ensures GenericArgs() == [Str("<")] + ([Until(", ", [Frame(GenericArg())])] + ([Str(">")] + []))
  {
    hide GenericArg;
  }

  lemma GenericRuns(x: Context, v: bool, b: State, k: nat, u: string, k': nat, u': string, r': Regs)
    requires Live(x, b) && Roomy(b, |u| + |u'| + 4) && Enter(x, Path(v), b) == Adv(b, k, u)
    requires Sound([Frame(GenericArg())]) && Consumes([Frame(GenericArg())])
    requires var s := Adv(b, k, u + (if v then "::<" else "<")); Wf(x, s) && Loop(x, ", ", [Frame(GenericArg())], s, NoRegs(), 0) == Outcome(Adv(s, k', u'), r', false)
    ensures Goes(x, PathOps('I', v), b, NoRegs(), k + k', u + (if v then "::<" else "<") + u' + ">")
  {
    hide Ok, After, SinkAfter, Consumes, ConsumesOp, SoundOp, Sound, Exec, Enter, Loop, Wf, Fine, Adv, GenericArgs, GenericArg, NoRegs, PathOps, Goes;
    var sep, open := if v then "::" else "", if v then "::<" else "<";
    PathSound('I', v);
    GenericShape(v);
    AdvNone(b);
    StepCall(x, b, 0, "", Path(v), [Str(sep)] + ([Frame(GenericArgs())] + []), NoRegs(), k, u);
    assert "" + u == u;
    StepStr(x, b, k, u, sep, [Frame(GenericArgs())] + [], NoRegs());
    var b' := Adv(b, k, u + sep);
    AdvAdv(b, k, u + sep, 0, "<");
    assert u + sep + "<" == u + open;
    AdvRoom(b, k, u + sep, |u'| + 2);
    ArgsRun(x, b', k', u', r');
    var r := GoesTo(x, GenericArgs(), b', NoRegs(), k', "<" + u' + ">");
    StepFrame(x, b, k, u + sep, GenericArgs(), [], NoRegs(), k', "<" + u' + ">", r);
    assert u + sep + ("<" + u' + ">") == u + open + u' + ">";
    ExecNone(x, Adv(b, k + k', u + open + u' + ">"), NoRegs());
    GoesIs(x, PathOps('I', v), b, NoRegs(), k + k', u + open + u' + ">", NoRegs());
  }

  lemma GoesTo(x: Context, ops: seq<Op>, b: State, r: Regs, k: nat, u: string) returns (r1: Regs)
    requires Goes(x, ops, b, r, k, u)
    ensures Live(x, b) && Sound(ops) && Exec(x, ops, b, r) == Outcome(Adv(b, k, u), r1, false)
  {
    hide Ok, After, SinkAfter, Consumes, Exec, Sound, Wf, Fine, Adv;
    r1 := Exec(x, ops, b, r).regs;
  }

  lemma ArgsRun(x: Context, b: State, k: nat, u: string, r: Regs)
    requires Live(x, b) && Roomy(b, |u| + 2) && Sound([Frame(GenericArg())]) && Consumes([Frame(GenericArg())])
    requires var s := Adv(b, 0, "<"); Wf(x, s) && Loop(x, ", ", [Frame(GenericArg())], s, NoRegs(), 0) == Outcome(Adv(s, k, u), r, false)
    ensures Goes(x, GenericArgs(), b, NoRegs(), k, "<" + u + ">")
  {
    hide Ok, After, SinkAfter, Consumes, ConsumesOp, SoundOp, Sound, Exec, Enter, Loop, Wf, Fine, Adv, GenericArgs, GenericArg, NoRegs, Goes;
    GenericArgsSound();
    ArgsShape();
    var list := Until(", ", [Frame(GenericArg())]);
    AdvNone(b);
    StepStr(x, b, 0, "", "<", [list] + ([Str(">")] + []), NoRegs());
    assert "" + "<" == "<";
    StepUntil(x, b, 0, "<", list, [Str(">")] + [], NoRegs(), k, u, r);
    StepStr(x, b, k, "<" + u, ">", [], r);
    ExecNone(x, Adv(b, k, "<" + u + ">"), r);
    GoesIs(x, GenericArgs(), b, NoRegs(), k, "<" + u + ">", r);
  }

  lemma RefSound(rule: Rule)
    ensures Sound([Backref(rule)]) && SoundOp(Backref(rule)) && Sound([Backref(rule)] + [])
  {
  }

  lemma NotOpen()
    ensures !NoRegs().open
  {
  }

  /** A back-reference whose target prints `u` when it is printed at all. */
  lemma RefRuns(x: Context, rule: Rule, b: State, at: nat, n: nat, u: string)
    requires Live(x, b) && b.depth < MAX_DEPTH && !rule.Generics? && at + 1 < b.next && FitsNumber(at) && TextAt(x.sym, b.next, Encode62(at)) && Roomy(b, |u|)
    requires b.sink.Sink? ==> Enter(x, rule, b.(next := at, depth := b.depth + 1)) == Adv(b.(next := at, depth := b.depth + 1), n, u)
    ensures Goes(x, [Backref(rule)], b, NoRegs(), |Encode62(at)|, u)
  {
    hide Ok, After, SinkAfter, Consumes, ConsumesOp, Sound, SoundOp, Exec, Enter, TextAt, Encode62, FitsNumber, NoRegs, Goes, Back;
    RefSound(rule);
    if b.sink.Sink? { FollowIs(x, rule, b.(next := at, depth := b.depth + 1)); }
    NotOpen();
    BackIs(x, rule, b, NoRegs(), at, u, NoRegs());
    OneBack(x, rule, b, NoRegs());
    assert [Backref(rule)] == [Backref(rule)] + [];
    ExecStep(x, Backref(rule), [], b, NoRegs(), Adv(b, |Encode62(at)|, u), NoRegs());
    ExecNone(x, Adv(b, |Encode62(at)|, u), NoRegs());
    GoesIs(x, [Backref(rule)], b, NoRegs(), |Encode62(at)|, u, NoRegs());
  }

  lemma FollowIs(x: Context, rule: Rule, st: State)
    requires Wf(x, st) && !rule.Generics?
    ensures Follow(x, rule, st) == Outcome(Enter(x, rule, st), NoRegs(), false)
  {
    hide Enter, NoRegs;
  }

  // ------------------------------------------------------------------ generic arguments

  function LifetimeShown(bound: nat, index: nat, unlessZero: bool, before: string, after: string): string {
    if unlessZero && index == 0 then "" else before + RenderLife(index, bound) + after
  }

  lemma AdvSame(b: State, n: nat, t: string)
    ensures Adv(b, n, t).lifetimes == b.lifetimes && Adv(b, n, t).sink.Sink? == b.sink.Sink? && Adv(b, n, t).depth == b.depth && Adv(b, n, t).next == b.next + n
  {
  }

  lemma StepLifetime(x: Context, full: bool, b: State, n: nat, t: string, op: Op, rest: seq<Op>, r: Regs, bound: nat)
    requires IsSymbol(x, full) && Live(x, Adv(b, n, t)) && Sound([op] + rest) && op.Lifetime?
    requires b.sink.Sink? ==> b.lifetimes == bound && r.number <= bound
    requires Roomy(b, |t| + |LifetimeShown(bound, r.number, op.unlessZero, op.before, op.after)|)
    ensures var u := t + LifetimeShown(bound, r.number, op.unlessZero, op.before, op.after);
      Sound(rest) && Live(x, Adv(b, n, u)) && Exec(x, [op] + rest, Adv(b, n, t), r) == Exec(x, rest, Adv(b, n, u), r)
  {
    hide Ok, After, SinkAfter, Consumes, ConsumesOp, SoundOp, Sound, Exec, Enter, Loop, Wf, Fine, Adv, LifetimeShown, ShowLifetime, IsSymbol;
    var w := LifetimeShown(bound, r.number, op.unlessZero, op.before, op.after);
    AdvRoom(b, n, t, |w|);
    AdvAdv(b, n, t, 0, w);
    AdvSame(b, n, t);
    LifetimeIs(x, full, Adv(b, n, t), op, r, bound);
    StepDo(x, b, n, t, op, rest, r, n, t + w, r);
  }

  lemma LifetimeIs(x: Context, full: bool, st: State, op: Op, r: Regs, bound: nat)
    requires IsSymbol(x, full) && Live(x, st) && op.Lifetime? && (st.sink.Sink? ==> st.lifetimes == bound && r.number <= bound)
    requires Roomy(st, |LifetimeShown(bound, r.number, op.unlessZero, op.before, op.after)|)
    ensures ShowLifetime(x, op, st, r) == Adv(st, 0, LifetimeShown(bound, r.number, op.unlessZero, op.before, op.after))
  {
    hide Wf, IsSymbol, Text10, RenderLife, LifetimeText;
    if st.sink.Sink? {
      if op.unlessZero && r.number == 0 {
        AdvNone(st);
      } else {
        var w := LifetimeText(bound, r.number);
        LifetimeSame(r.number, bound);
        LifetimeRoom(op.before, w, op.after, RenderLife(r.number, bound));
        var s1 := Adv(st, 0, op.before + "'");
        PutIs(st, Piece(op.before + "'", 0));
        ShownIs(x, full, LifetimeName, r, st.lifetimes);
        PutIs(s1, Piece(w, 0));
        AdvAdv(st, 0, op.before + "'", 0, w);
        PutIs(Adv(st, 0, op.before + "'" + w), Piece(op.after, 0));
        AdvAdv(st, 0, op.before + "'" + w, 0, op.after);
      }
    }
  }

  lemma LifetimeRoom(before: string, w: string, after: string, life: string)
    requires "'" + w == life
    ensures before + "'" + w + after == before + life + after
  {
    assert before + "'" + w == before + ("'" + w);
  }

  function KindOp(): Op { IfEat('K', [Call(Const(false))], [Call(Type)]) }

  function ArgOp(): Op { IfEat('L', [ParseInteger] + ([Lifetime(false, "", "")] + []), [KindOp()] + []) }

  lemma ArgShape()
    ensures GenericArg() == [ArgOp()] + []
  {
    assert [ParseInteger] + ([Lifetime(false, "", "")] + []) == [ParseInteger, Lifetime(false, "", "")];
    assert [KindOp()] + [] == [KindOp()];
  }

  lemma ArgIsSound()
    ensures Sound(GenericArg()) && Sound(ArgOp().yes) && Sound(ArgOp().no) && Sound(KindOp().yes) && Sound(KindOp().no) && Sound([ArgOp()] + []) && Sound([KindOp()] + [])
  {
    hide Consumes, ConsumesOp;
    GenericArgSound();
    ArgShape();
    PlainSound([ParseInteger] + ([Lifetime(false, "", "")] + []));
    CallSound(Type);
    CallSound(Const(false));
    SingleSound(KindOp());
    assert [KindOp()] + [] == [KindOp()];
  }

  lemma LifeArgRuns(x: Context, full: bool, b: State, index: nat, bound: nat)
    requires IsSymbol(x, full) && Live(x, b) && TextAt(x.sym, b.next, "L" + Encode62(index)) && FitsNumber(index)
    requires (b.sink.Sink? ==> b.lifetimes == bound && index <= bound) && Roomy(b, |RenderLife(index, bound)|)
    ensures Goes(x, GenericArg(), b, NoRegs(), 1 + |Encode62(index)|, RenderLife(index, bound))
  {
    hide Ok, After, SinkAfter, Consumes, ConsumesOp, SoundOp, Sound, Exec, Enter, Loop, Wf, Fine, Adv, GenericArg, IsSymbol,
         RenderLife, LifetimeShown, NoRegs, TextAt, Encode62, Goes;
    ArgIsSound();
    var life, op := Lifetime(false, "", ""), ArgOp();
    ArgShape();
    var m, r, w := 1 + |Encode62(index)|, NoRegs().(number := index), RenderLife(index, bound);
    AdvNone(b);
    Splits(x.sym, b.next, "L", Encode62(index));
    FirstIs(x.sym, b.next, "L");
    AfterFirst(x, b);
    StepInteger(x, b, 1, "", index, [life] + [], NoRegs());
    LifetimeArgText(bound, index);
    StepLifetime(x, full, b, m, "", life, [], r, bound);
    ExecNone(x, Adv(b, m, w), r);
    StepEaten(x, b, 0, "", op, [], NoRegs(), m, w, r);
    ExecNone(x, Adv(b, m, w), r);
    GoesIs(x, GenericArg(), b, NoRegs(), m, w, r);
  }

  lemma LifetimeArgText(bound: nat, index: nat)
    ensures "" + LifetimeShown(bound, index, false, "", "") == RenderLife(index, bound) == LifetimeShown(bound, index, false, "", "")
  {
    var w := RenderLife(index, bound);
    hide RenderLife;
    assert "" + w + "" == w && "" + w == w;
  }

  /** Behind a character that was eaten. */
  lemma AfterFirst(x: Context, b: State)
    requires Live(x, b) && b.next < |x.sym|
    ensures Live(x, Adv(b, 1, ""))
  {
  }

  lemma ConstArgRuns(x: Context, b: State, k: nat, u: string)
    requires Live(x, b) && Eats(x.sym, b.next, 'K') && Roomy(b, |u|)
    requires Wf(x, Adv(b, 1, "")) && Enter(x, Const(false), Adv(b, 1, "")) == Adv(Adv(b, 1, ""), k, u)
    ensures Goes(x, GenericArg(), b, NoRegs(), 1 + k, u)
  {
    hide Ok, After, SinkAfter, Consumes, ConsumesOp, SoundOp, Sound, Exec, Enter, Loop, Wf, Fine, Adv, GenericArg, NoRegs, Goes;
    ArgIsSound();
    ArgShape();
    AdvNone(b);
    AfterFirst(x, b);
    AdvRoom(b, 1, "", |u|);
    CallAlone(x, Const(false), Adv(b, 1, ""), NoRegs(), k, u);
    AdvAdv(b, 1, "", k, u);
    assert "" + u == u;
    StepEaten(x, b, 0, "", KindOp(), [], NoRegs(), 1 + k, u, NoRegs());
    ExecNone(x, Adv(b, 1 + k, u), NoRegs());
    StepUneaten(x, b, 0, "", ArgOp(), [], NoRegs(), 1 + k, u, NoRegs());
    GoesIs(x, GenericArg(), b, NoRegs(), 1 + k, u, NoRegs());
  }

  lemma TypeArgRuns(x: Context, b: State, k: nat, u: string)
    requires Live(x, b) && !Eats(x.sym, b.next, 'K') && !Eats(x.sym, b.next, 'L') && Roomy(b, |u|) && Enter(x, Type, b) == Adv(b, k, u)
    ensures Goes(x, GenericArg(), b, NoRegs(), k, u)
  {
    hide Ok, After, SinkAfter, Consumes, ConsumesOp, SoundOp, Sound, Exec, Enter, Loop, Wf, Fine, Adv, GenericArg, NoRegs, Goes;
    ArgIsSound();
    ArgShape();
    AdvNone(b);
    CallAlone(x, Type, b, NoRegs(), k, u);
    StepUneaten(x, b, 0, "", KindOp(), [], NoRegs(), k, u, NoRegs());
    ExecNone(x, Adv(b, k, u), NoRegs());
    StepUneaten(x, b, 0, "", ArgOp(), [], NoRegs(), k, u, NoRegs());
    GoesIs(x, GenericArg(), b, NoRegs(), k, u, NoRegs());
  }
}

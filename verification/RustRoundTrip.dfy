/** What is mangled is printed back: the demangler on mangled text prints the Rust text, back-references included. */
module RustRoundTrip {
  import opened Bytes
  import opened RustLexer
  import opened RustSyntax
  import opened RustPlaces
  import opened RustPrinter
  import opened RustInterpreter
  import opened RustText
  import opened RustTokens
  import opened RustSteps
  import opened RustPhrases
  import opened RustTypePhrases
  import opened RustTraitPhrases
  import opened RustConstPhrases
  import opened RustParts
  import opened RustTypeParts
  import Utf8

  /** The state is at the place of a mangled path that fits there, with room for its text. */
  ghost predicate PathReady(x: Context, full: bool, p: PathAst, v: bool, st: State, z: Place) {
    IsSymbol(x, full) && At(x, st, z) && Stands(x.sym, z.pos, ManglePath(p)) && FitsPath(z, p) && Roomy(st, |RenderPath(p, v, z.bound, full)| + 3)
  }

  ghost predicate TypeReady(x: Context, full: bool, t: TypeAst, st: State, z: Place) {
    IsSymbol(x, full) && At(x, st, z) && Stands(x.sym, z.pos, MangleType(t)) && FitsType(z, t) && Roomy(st, |RenderType(t, z.bound, full)| + 3)
  }

  ghost predicate ConstReady(x: Context, full: bool, c: ConstAst, v: bool, st: State, z: Place) {
    IsSymbol(x, full) && At(x, st, z) && Stands(x.sym, z.pos, MangleConst(c)) && FitsConst(z, c) && Roomy(st, |RenderConst(c, v, z.bound, full)| + 3)
  }

  /** The path is read to its end and its text printed. */
  predicate PathDone(x: Context, full: bool, p: PathAst, v: bool, st: State, z: Place) {
    Wf(x, st) && Enter(x, Path(v), st) == Adv(st, |ManglePath(p)|, RenderPath(p, v, z.bound, full))
  }

  predicate TypeDone(x: Context, full: bool, t: TypeAst, st: State, z: Place) {
    Wf(x, st) && Enter(x, Type, st) == Adv(st, |MangleType(t)|, RenderType(t, z.bound, full))
  }

  predicate ConstDone(x: Context, full: bool, c: ConstAst, v: bool, st: State, z: Place) {
    Wf(x, st) && Enter(x, Const(v), st) == Adv(st, |MangleConst(c)|, RenderConst(c, v, z.bound, full))
  }

  /** A list of `n` elements is read, with the `E` behind it, and its text printed. */
  predicate ListDone(x: Context, sep: string, body: seq<Op>, st: State, r: Regs, count: nat, n: nat, k: nat, u: string) {
    && Wf(x, st) && Sound(body) && Consumes(body)
    && Loop(x, sep, body, st, r, count) == Outcome(Adv(st, k + 1, u), r.(count := count + n), false)
  }

  lemma TextEnds(sym: string, p: nat, w: string)
    requires TextAt(sym, p, w)
    ensures p + |w| <= |sym|
  {
  }

  // ------------------------------------------------------------------ paths

  lemma {:induction false} PathPrints(x: Context, full: bool, p: PathAst, v: bool, st: State, z: Place)
    requires PathReady(x, full, p, v, st, z)
    ensures PathDone(x, full, p, v, st, z)
    decreases p, 2
  {
    hide *;
    match p
    case CratePath(_, _) => CratePrints(x, full, p, v, st, z);
    case NestedPath(_, _, _, _) => NestedPrints(x, full, p, v, st, z);
    case InherentPath(_, _, _) => InherentPrints(x, full, p, v, st, z);
    case ImplPath(_, _, _, _) => ImplPrints(x, full, p, v, st, z);
    case TraitPath(_, _) => TraitPrints(x, full, p, v, st, z);
    case GenericPath(_, _) => GenericPrints(x, full, p, v, st, z);
    case PathRef(_, _) => PathRefPrints(x, full, p, v, st, z);
  }

  lemma {:induction false} CratePrints(x: Context, full: bool, p: PathAst, v: bool, st: State, z: Place)
    requires p.CratePath? && PathReady(x, full, p, v, st, z)
    ensures PathDone(x, full, p, v, st, z)
    decreases p, 1
  {
    hide Ok, After, SinkAfter, Consumes, ConsumesOp, SoundOp, Sound, Exec, Enter, Loop, Wf, Fine, Adv, NoRegs, Goes, PathOps,
         TypeOps, ConstOps, IsSymbol, TextAt, Stands, MangleOpt, MangleName, ManglePath, MangleType, MangleArgs, MangleConst,
         MangleTypes, MangleConsts, RenderPath, RenderType, RenderConst, RenderArgs, RenderTypes, RenderConsts, FitsPath,
         FitsType, FitsConst, FitsName, FitsArgs, FitsTypes, FitsConsts, Encode62, At, Inner, CrateText;
    var w := MangleOpt('s', p.dis) + MangleName(p.name);
    CrateParts(z, p, v, full);
    AtSame(x, st, z);
    StandsText(x.sym, z.pos, "C" + w);
    FirstIs(x.sym, z.pos, "C" + w);
    Splits(x.sym, z.pos, "C", w);
    AtInner(x, st, z);
    AtSame(x, Inner(st), In(z, 1, 1));
    CrateRuns(x, full, v, Inner(st), p.dis, p.name);
    PathEnters(x, v, st, z, 'C', |MangleOpt('s', p.dis)| + |MangleName(p.name)|, CrateText(p.name, p.dis, full));
  }

  lemma {:induction false} NestedPrints(x: Context, full: bool, p: PathAst, v: bool, st: State, z: Place)
    requires p.NestedPath? && PathReady(x, full, p, v, st, z)
    ensures PathDone(x, full, p, v, st, z)
    decreases p, 1
  {
    hide Ok, After, SinkAfter, Consumes, ConsumesOp, SoundOp, Sound, Exec, Enter, Loop, Wf, Fine, Adv, NoRegs, Goes, PathOps,
         TypeOps, ConstOps, IsSymbol, TextAt, Stands, MangleOpt, MangleName, ManglePath, MangleType, MangleArgs, MangleConst,
         MangleTypes, MangleConsts, RenderPath, RenderType, RenderConst, RenderArgs, RenderTypes, RenderConsts, FitsPath,
         FitsType, FitsConst, FitsName, FitsArgs, FitsTypes, FitsConsts, Encode62, At, Inner, RenderSegment, Follows, IsLetter;
    var b, w, name := Inner(st), ManglePath(p.parent), MangleOpt('s', p.dis) + MangleName(p.name);
    var u := RenderPath(p.parent, v, z.bound, full);
    NestedParts(z, p, v, full);
    AtSame(x, st, z);
    StandsText(x.sym, z.pos, "N" + ([p.space] + (w + name)));
    FirstIs(x.sym, z.pos, "N" + ([p.space] + (w + name)));
    Splits(x.sym, z.pos, "N", [p.space] + (w + name));
    Splits(x.sym, z.pos + 1, [p.space], w + name);
    FirstIs(x.sym, z.pos + 1, [p.space]);
    FollowedBy(x.sym, z.pos + 2, w, name, p.dis, p.name);
    AtInner(x, st, z);
    AtSame(x, b, In(z, 1, 1));
    AtAdv(x, b, In(z, 1, 1), 1, "");
    AdvRoom(b, 1, "", |u| + 3);
    AtSame(x, Adv(b, 1, ""), In(z, 2, 1));
    PathPrints(x, full, p.parent, v, Adv(b, 1, ""), In(z, 2, 1));
    NestedRuns(x, full, v, b, p.space, p.dis, p.name, |w|, u);
    PathEnters(x, v, st, z, 'N', 1 + |w| + |MangleOpt('s', p.dis)| + |MangleName(p.name)|, u + RenderSegment(p.space, p.dis, p.name));
  }

  /** A path with a name behind it. */
  lemma FollowedBy(sym: string, p: nat, w: string, name: string, dis: nat, n: Name)
    requires Stands(sym, p, w + name) && name == MangleOpt('s', dis) + MangleName(n)
    ensures Stands(sym, p, w) && Stands(sym, p + |w|, name)
  {
    hide Stands, MangleOpt, MangleName;
    OptNameStarts(dis, n);
    StandsText(sym, p, w + name);
    Splits(sym, p, w, name);
  }

  /** A path or a type with other text behind it. */
  lemma Before(sym: string, p: nat, w: string, rest: string)
    requires TextAt(sym, p, w + rest) && Follows(rest)
    ensures Stands(sym, p, w) && TextAt(sym, p + |w|, rest) && (Stands(sym, p, w + rest) ==> Stands(sym, p + |w|, rest)) && p + |w| + |rest| <= |sym|
  {
    hide Stands, TextAt;
    Splits(sym, p, w, rest);
    TextEnds(sym, p, w + rest);
  }

  /** The path of an impl, read silently. */
  lemma {:induction false} HomePrints(x: Context, full: bool, home: PathAst, b: State, z: Place, n: nat)
    requires IsSymbol(x, full) && At(x, b, z) && z.pos + n <= |x.sym| && Stands(x.sym, z.pos + n, ManglePath(home)) && FitsPath(In(z, n, 0).(loud := false), home)
    ensures var q := Adv(b, n, "").(sink := Silent); Wf(x, q) && Enter(x, Path(false), q) == Adv(q, |ManglePath(home)|, "")
    decreases home, 3
  {
    hide Ok, After, SinkAfter, Consumes, ConsumesOp, SoundOp, Sound, Exec, Enter, Loop, Wf, Fine, Adv, NoRegs, Goes, PathOps,
         TypeOps, ConstOps, IsSymbol, TextAt, Stands, MangleOpt, MangleName, ManglePath, MangleType, MangleArgs, MangleConst,
         MangleTypes, MangleConsts, RenderPath, RenderType, RenderConst, RenderArgs, RenderTypes, RenderConsts, FitsPath,
         FitsType, FitsConst, FitsName, FitsArgs, FitsTypes, FitsConsts, Encode62, At, Inner;
    var q, zq := Adv(b, n, "").(sink := Silent), In(z, n, 0).(loud := false);
    AtAdv(x, b, z, n, "");
    AtSilent(x, Adv(b, n, ""), In(z, n, 0));
    PathPrints(x, full, home, false, q, zq);
    SilentText(q, |ManglePath(home)|, RenderPath(home, false, zq.bound, full), "");
  }

  lemma AtSilent(x: Context, st: State, z: Place)
    requires At(x, st, z)
    ensures At(x, st.(sink := Silent), z.(loud := false))
  {
  }

  lemma {:induction false} InherentPrints(x: Context, full: bool, p: PathAst, v: bool, st: State, z: Place)
    requires p.InherentPath? && PathReady(x, full, p, v, st, z)
    ensures PathDone(x, full, p, v, st, z)
    decreases p, 1
  {
    hide Ok, After, SinkAfter, Consumes, ConsumesOp, SoundOp, Sound, Exec, Enter, Loop, Wf, Fine, Adv, NoRegs, Goes, PathOps,
         TypeOps, ConstOps, IsSymbol, TextAt, Stands, MangleOpt, MangleName, ManglePath, MangleType, MangleArgs, MangleConst,
         MangleTypes, MangleConsts, RenderPath, RenderType, RenderConst, RenderArgs, RenderTypes, RenderConsts, FitsPath,
         FitsType, FitsConst, FitsName, FitsArgs, FitsTypes, FitsConsts, Encode62, At, Inner, SelfOps, Follows;
    var b, o, h, t := Inner(st), MangleOpt('s', p.dis), ManglePath(p.home), MangleType(p.self);
    var u := RenderType(p.self, z.bound, full);
    InherentParts(z, p, v, full);
    AtSame(x, st, z);
    StandsText(x.sym, z.pos, "M" + ((o + h) + t));
    FirstIs(x.sym, z.pos, "M" + ((o + h) + t));
    Splits(x.sym, z.pos, "M", (o + h) + t);
    assert t + "" == t;
    HomeFollowed(x.sym, z.pos + 1, o, h, t, p.self, "");
    AtInner(x, st, z);
    AtSame(x, b, In(z, 1, 1));
    HomePrints(x, full, p.home, b, In(z, 1, 1), |o|);
    PathSound('M', v);
    ImplShapes(v);
    HomeRuns(x, b, p.dis, p.home, SelfOps());
    var n := |o| + |h|;
    AtAdv(x, b, In(z, 1, 1), n, "<");
    AtSame(x, Adv(b, n, "<"), In(z, 1 + n, 1));
    AdvRoom(b, n, "<", |u| + 3);
    TypePrints(x, full, p.self, Adv(b, n, "<"), In(z, 1 + n, 1));
    var r := NoRegs().(number := p.dis);
    SelfRuns(x, b, n, r, |t|, u);
    GoesIs(x, PathOps('M', v), b, NoRegs(), n + |t|, "<" + u + ">", r);
    PathEnters(x, v, st, z, 'M', n + |t|, "<" + u + ">");
  }

  /** The parts of an impl, each with the next one behind it. */
  lemma HomeFollowed(sym: string, p: nat, o: string, h: string, t: string, self: TypeAst, rest: string)
    requires Stands(sym, p, (o + h) + (t + rest)) && t == MangleType(self)
    ensures TextAt(sym, p, o + h) && Stands(sym, p + |o|, h) && Stands(sym, p + |o| + |h|, t + rest) && p + |o| + |h| + |t| + |rest| <= |sym|
  {
    hide Stands, TextAt, MangleType, Follows;
    TypeFollows(self, rest);
    assert (o + h) + (t + rest) == o + (h + (t + rest));
    StandsText(sym, p, (o + h) + (t + rest));
    Splits(sym, p, o + h, t + rest);
    Splits(sym, p, o, h + (t + rest));
    Before(sym, p + |o|, h, t + rest);
  }

  lemma {:induction false} ImplPrints(x: Context, full: bool, p: PathAst, v: bool, st: State, z: Place)
    requires p.ImplPath? && PathReady(x, full, p, v, st, z)
    ensures PathDone(x, full, p, v, st, z)
    decreases p, 1
  {
    hide Ok, After, SinkAfter, Consumes, ConsumesOp, SoundOp, Sound, Exec, Enter, Loop, Wf, Fine, Adv, NoRegs, Goes, PathOps,
         TypeOps, ConstOps, IsSymbol, TextAt, Stands, MangleOpt, MangleName, ManglePath, MangleType, MangleArgs, MangleConst,
         MangleTypes, MangleConsts, RenderPath, RenderType, RenderConst, RenderArgs, RenderTypes, RenderConsts, FitsPath,
         FitsType, FitsConst, FitsName, FitsArgs, FitsTypes, FitsConsts, Encode62, At, Inner, RoleOps, Follows;
    var b, o, h := Inner(st), MangleOpt('s', p.dis), ManglePath(p.home);
    var body := MangleType(p.self) + ManglePath(p.role);
    ImplParts(z, p, v, full);
    AtSame(x, st, z);
    StandsText(x.sym, z.pos, "X" + ((o + h) + body));
    FirstIs(x.sym, z.pos, "X" + ((o + h) + body));
    Splits(x.sym, z.pos, "X", (o + h) + body);
    HomeFollowed(x.sym, z.pos + 1, o, h, MangleType(p.self), p.self, ManglePath(p.role));
    AtInner(x, st, z);
    AtSame(x, b, In(z, 1, 1));
    HomePrints(x, full, p.home, b, In(z, 1, 1), |o|);
    PathSound('X', v);
    ImplShapes(v);
    HomeRuns(x, b, p.dis, p.home, RoleOps());
    var n, r := |o| + |h|, NoRegs().(number := p.dis);
    var w := RolePrints(x, full, p, b, In(z, 1, 1), n, r);
    GoesIs(x, PathOps('X', v), b, NoRegs(), n + |MangleType(p.self)| + |ManglePath(p.role)|, w, r);
    PathEnters(x, v, st, z, 'X', n + |MangleType(p.self)| + |ManglePath(p.role)|, w);
  }

  /** `<self as role>`. */
  lemma {:induction false} RolePrints(x: Context, full: bool, p: PathAst, b: State, z: Place, n: nat, r: Regs) returns (w: string)
    requires (p.ImplPath? || p.TraitPath?) && IsSymbol(x, full) && At(x, b, z) && Sound(RoleOps()) && Stands(x.sym, z.pos + n, MangleType(p.self) + ManglePath(p.role))
    requires FitsType(In(z, n, 0), p.self) && FitsPath(In(z, n + |MangleType(p.self)|, 0), p.role) && Live(x, Adv(b, n, ""))
    requires Roomy(b, |"<" + RenderType(p.self, z.bound, full) + " as " + RenderPath(p.role, false, z.bound, full) + ">"| + 3)
    ensures w == "<" + RenderType(p.self, z.bound, full) + " as " + RenderPath(p.role, false, z.bound, full) + ">"
    ensures Exec(x, RoleOps(), Adv(b, n, ""), r) == Outcome(Adv(b, n + |MangleType(p.self)| + |ManglePath(p.role)|, w), r, false)
    decreases p, 0
  {
    hide Ok, After, SinkAfter, Consumes, ConsumesOp, SoundOp, Sound, Exec, Enter, Loop, Wf, Fine, Adv, NoRegs, Goes, PathOps,
         TypeOps, ConstOps, IsSymbol, TextAt, Stands, MangleOpt, MangleName, ManglePath, MangleType, MangleArgs, MangleConst,
         MangleTypes, MangleConsts, RenderPath, RenderType, RenderConst, RenderArgs, RenderTypes, RenderConsts, FitsPath,
         FitsType, FitsConst, FitsName, FitsArgs, FitsTypes, FitsConsts, Encode62, At, Inner, RoleOps, Follows;
    var t, m, u, u' := MangleType(p.self), ManglePath(p.role), RenderType(p.self, z.bound, full), RenderPath(p.role, false, z.bound, full);
    w := "<" + u + " as " + u' + ">";
    AtSame(x, b, z);
    PathFollows(p.role, "");
    assert m + "" == m;
    StandsText(x.sym, z.pos + n, t + m);
    Before(x.sym, z.pos + n, t, m);
    AtAdv(x, b, z, n, "<");
    AtSame(x, Adv(b, n, "<"), In(z, n, 0));
    AdvRoom(b, n, "<", |u| + 3);
    TypePrints(x, full, p.self, Adv(b, n, "<"), In(z, n, 0));
    var t1 := "<" + u + " as ";
    AtAdv(x, b, z, n + |t|, t1);
    AtSame(x, Adv(b, n + |t|, t1), In(z, n + |t|, 0));
    AdvRoom(b, n + |t|, t1, |u'| + 3);
    PathPrints(x, full, p.role, false, Adv(b, n + |t|, t1), In(z, n + |t|, 0));
    RoleRuns(x, b, n, r, |t|, u, |m|, u');
  }

  lemma {:induction false} TraitPrints(x: Context, full: bool, p: PathAst, v: bool, st: State, z: Place)
    requires p.TraitPath? && PathReady(x, full, p, v, st, z)
    ensures PathDone(x, full, p, v, st, z)
    decreases p, 1
  {
    hide Ok, After, SinkAfter, Consumes, ConsumesOp, SoundOp, Sound, Exec, Enter, Loop, Wf, Fine, Adv, NoRegs, Goes, PathOps,
         TypeOps, ConstOps, IsSymbol, TextAt, Stands, MangleOpt, MangleName, ManglePath, MangleType, MangleArgs, MangleConst,
         MangleTypes, MangleConsts, RenderPath, RenderType, RenderConst, RenderArgs, RenderTypes, RenderConsts, FitsPath,
         FitsType, FitsConst, FitsName, FitsArgs, FitsTypes, FitsConsts, Encode62, At, Inner, RoleOps;
    var b, body := Inner(st), MangleType(p.self) + ManglePath(p.role);
    TraitParts(z, p, v, full);
    AtSame(x, st, z);
    StandsText(x.sym, z.pos, "Y" + body);
    FirstIs(x.sym, z.pos, "Y" + body);
    Splits(x.sym, z.pos, "Y", body);
    AtInner(x, st, z);
    AtSame(x, b, In(z, 1, 1));
    PathSound('Y', v);
    ImplShapes(v);
    AdvNone(b);
    var w := RolePrints(x, full, p, b, In(z, 1, 1), 0, NoRegs());
    GoesIs(x, PathOps('Y', v), b, NoRegs(), |MangleType(p.self)| + |ManglePath(p.role)|, w, NoRegs());
    PathEnters(x, v, st, z, 'Y', |MangleType(p.self)| + |ManglePath(p.role)|, w);
  }

  lemma {:induction false} GenericPrints(x: Context, full: bool, p: PathAst, v: bool, st: State, z: Place)
    requires p.GenericPath? && PathReady(x, full, p, v, st, z)
    ensures PathDone(x, full, p, v, st, z)
    decreases p, 1
  {
    hide Ok, After, SinkAfter, Consumes, ConsumesOp, SoundOp, Sound, Exec, Enter, Loop, Wf, Fine, Adv, NoRegs, Goes, PathOps,
         TypeOps, ConstOps, IsSymbol, TextAt, Stands, MangleOpt, MangleName, ManglePath, MangleType, MangleArgs, MangleConst,
         MangleTypes, MangleConsts, RenderPath, RenderType, RenderConst, RenderArgs, RenderTypes, RenderConsts, FitsPath,
         FitsType, FitsConst, FitsName, FitsArgs, FitsTypes, FitsConsts, Encode62, At, Inner, GenericArg, Follows, Join, Tail;
    var b, w, list := Inner(st), ManglePath(p.base), MangleArgs(p.args) + "E";
    var u, u', open := RenderPath(p.base, v, z.bound, full), Join(RenderArgs(p.args, z.bound, full), ", "), if v then "::<" else "<";
    GenericParts(z, p, v, full);
    AtSame(x, st, z);
    StandsText(x.sym, z.pos, "I" + (w + list));
    FirstIs(x.sym, z.pos, "I" + (w + list));
    Splits(x.sym, z.pos, "I", w + list);
    ArgsFollow(In(z, 1 + |w|, 1), p.args);
    Before(x.sym, z.pos + 1, w, list);
    AtInner(x, st, z);
    AtSame(x, b, In(z, 1, 1));
    PathPrints(x, full, p.base, v, b, In(z, 1, 1));
    var s := Adv(b, |w|, u + open);
    AtAdv(x, b, In(z, 1, 1), |w|, u + open);
    AtSame(x, s, In(z, 1 + |w|, 1));
    JoinTail(RenderArgs(p.args, z.bound, full), ", ");
    AdvRoom(b, |w|, u + open, |u'| + 3);
    ArgsPrint(x, full, p.args, s, In(z, 1 + |w|, 1), NoRegs(), 0);
    GenericRuns(x, v, b, |w|, u, |list|, u', NoRegs().(count := |p.args|));
    PathEnters(x, v, st, z, 'I', |w| + |list|, u + open + u' + ">");
  }

  lemma {:induction false} PathRefPrints(x: Context, full: bool, p: PathAst, v: bool, st: State, z: Place)
    requires p.PathRef? && PathReady(x, full, p, v, st, z)
    ensures PathDone(x, full, p, v, st, z)
    decreases p, 1
  {
    hide Ok, After, SinkAfter, Consumes, ConsumesOp, SoundOp, Sound, Exec, Enter, Loop, Wf, Fine, Adv, NoRegs, Goes, PathOps,
         TypeOps, ConstOps, IsSymbol, TextAt, Stands, MangleOpt, MangleName, ManglePath, MangleType, MangleArgs, MangleConst,
         MangleTypes, MangleConsts, RenderPath, RenderType, RenderConst, RenderArgs, RenderTypes, RenderConsts, FitsPath,
         FitsType, FitsConst, FitsName, FitsArgs, FitsTypes, FitsConsts, Encode62, At, Inner;
    var b, w, u := Inner(st), Encode62(p.at), RenderPath(p, v, z.bound, full);
    PathRefParts(z, p, v, full);
    AtSame(x, st, z);
    StandsText(x.sym, z.pos, "B" + w);
    FirstIs(x.sym, z.pos, "B" + w);
    Splits(x.sym, z.pos, "B", w);
    AtInner(x, st, z);
    AtSame(x, b, In(z, 1, 1));
    if z.loud {
      var back := b.(next := p.at, depth := b.depth + 1);
      AtTarget(x, st, z, p.at);
      PathPrints(x, full, p.target, v, back, In(z, 0, 2).(pos := p.at));
    }
    RefRuns(x, Path(v), b, p.at, |ManglePath(p.target)|, u);
    RefShape(v);
    PathEnters(x, v, st, z, 'B', |w|, u);
  }

  lemma RefShape(v: bool)
    ensures PathOps('B', v) == [Backref(Path(v))]
  {
  }

  /** Where a back-reference leads. */
  lemma AtTarget(x: Context, st: State, z: Place, at: nat)
    requires At(x, st, z) && z.depth + 1 < DEPTH_LIMIT && at < z.pos
    ensures var s := Inner(st).(next := at, depth := Inner(st).depth + 1); At(x, s, In(z, 0, 2).(pos := at)) && forall need: nat :: Roomy(s, need) == Roomy(st, need)
  {
  }

  // ------------------------------------------------------------------ generic arguments

  lemma {:induction false} ArgGoes(x: Context, full: bool, a: ArgAst, st: State, z: Place)
    requires IsSymbol(x, full) && At(x, st, z) && Stands(x.sym, z.pos, MangleArg(a)) && FitsArg(z, a) && Roomy(st, |RenderArg(a, z.bound, full)| + 3)
    ensures Goes(x, GenericArg(), st, NoRegs(), |MangleArg(a)|, RenderArg(a, z.bound, full))
    decreases a, 0
  {
    hide Ok, After, SinkAfter, Consumes, ConsumesOp, SoundOp, Sound, Exec, Enter, Loop, Wf, Fine, Adv, NoRegs, Goes, PathOps,
         TypeOps, ConstOps, IsSymbol, TextAt, Stands, MangleOpt, MangleName, ManglePath, MangleType, MangleArgs, MangleConst,
         MangleTypes, MangleConsts, RenderPath, RenderType, RenderConst, RenderArgs, RenderTypes, RenderConsts, FitsPath,
         FitsType, FitsConst, FitsName, FitsArgs, FitsTypes, FitsConsts, Encode62, At, Inner, GenericArg, RenderLife;
    AtSame(x, st, z);
    StandsText(x.sym, z.pos, MangleArg(a));
    match a
    case LifeArg(index) => LifeArgRuns(x, full, st, index, z.bound);
    case TypeArg(ty) =>
      TypeStarts(ty);
      FirstIs(x.sym, z.pos, MangleType(ty));
      TypePrints(x, full, ty, st, z);
      TypeArgRuns(x, st, |MangleType(ty)|, RenderType(ty, z.bound, full));
    case ConstArg(value) =>
      var u := RenderConst(value, false, z.bound, full);
      Splits(x.sym, z.pos, "K", MangleConst(value));
      FirstIs(x.sym, z.pos, "K");
      AtAdv(x, st, z, 1, "");
      AtSame(x, Adv(st, 1, ""), In(z, 1, 0));
      AdvRoom(st, 1, "", |u| + 3);
      ConstPrints(x, full, value, false, Adv(st, 1, ""), In(z, 1, 0));
      ConstArgRuns(x, st, |MangleConst(value)|, u);
  }

  lemma {:induction false} ArgsPrint(x: Context, full: bool, args: seq<ArgAst>, st: State, z: Place, r: Regs, count: nat)
    requires IsSymbol(x, full) && At(x, st, z) && TextAt(x.sym, z.pos, MangleArgs(args) + "E") && FitsArgs(z, args)
    requires Roomy(st, |Tail(RenderArgs(args, z.bound, full), ", ", count)| + 3)
    ensures ListDone(x, ", ", [Frame(GenericArg())], st, r, count, |args|, |MangleArgs(args)|, Tail(RenderArgs(args, z.bound, full), ", ", count))
    decreases args, 0
  {
    hide Ok, After, SinkAfter, Consumes, ConsumesOp, SoundOp, Sound, Exec, Enter, Loop, Wf, Fine, Adv, NoRegs, Goes, PathOps,
         TypeOps, ConstOps, IsSymbol, TextAt, Stands, MangleOpt, MangleName, ManglePath, MangleType, MangleArgs, MangleConst,
         MangleTypes, MangleConsts, RenderPath, RenderType, RenderConst, RenderArgs, RenderTypes, RenderConsts, FitsPath,
         FitsType, FitsConst, FitsName, FitsArgs, FitsTypes, FitsConsts, Encode62, At, Inner, GenericArg, Follows, Tail,
         MangleArg, RenderArg, FitsArg, Sep;
    var body := [Frame(GenericArg())];
    AtSame(x, st, z);
    GenericArgSound();
    FrameListSound(GenericArg());
    if args == [] {
      NoArgs(z.bound, full, count);
      FirstIs(x.sym, z.pos, "" + "E");
      LoopEnds(x, ", ", body, st, r, count);
    } else {
      var w, list, sep := MangleArg(args[0]), MangleArgs(args[1..]) + "E", Sep(", ", count);
      var u, u' := RenderArg(args[0], z.bound, full), Tail(RenderArgs(args[1..], z.bound, full), ", ", count + 1);
      ArgsParts(z, args, count, full);
      ArgFollows(args[0], list);
      FirstIs(x.sym, z.pos, w + list);
      ArgsFollow(In(z, |w|, 0), args[1..]);
      Before(x.sym, z.pos, w, list);
      var s1, s2 := Adv(st, 0, sep), Adv(st, |w|, sep + u);
      AtAdv(x, st, z, 0, sep);
      AtSame(x, s1, In(z, 0, 0));
      AdvRoom(st, 0, sep, |u| + 3);
      ArgGoes(x, full, args[0], s1, z);
      FrameAlone(x, GenericArg(), s1, r, |w|, u);
      AtAdv(x, st, z, |w|, sep + u);
      AtSame(x, s2, In(z, |w|, 0));
      AdvRoom(st, |w|, sep + u, |u'| + 3);
      ArgsPrint(x, full, args[1..], s2, In(z, |w|, 0), r, count + 1);
      LoopGoes(x, ", ", body, st, r, count, |w|, u, |list|, u', r.(count := count + |args|));
    }
  }

  lemma NoArgs(bound: nat, full: bool, count: nat)
    ensures MangleArgs([]) == "" && Tail(RenderArgs([], bound, full), ", ", count) == "" && "" + "E" == "E"
    ensures MangleTypes([]) == "" && Tail(RenderTypes([], bound, full), ", ", count) == ""
    ensures MangleConsts([]) == "" && Tail(RenderConsts([], bound, full), ", ", count) == ""
  {
  }

  // ------------------------------------------------------------------ types

  lemma {:induction false} TypePrints(x: Context, full: bool, t: TypeAst, st: State, z: Place)
    requires TypeReady(x, full, t, st, z)
    ensures TypeDone(x, full, t, st, z)
    decreases t, 2
  {
    hide *;
    match t
    case BasicType(_) => BasicPrints(x, full, t, st, z);
    case ReferenceType(_, _, _) => ReferencePrints(x, full, t, st, z);
    case PointerType(_, _) => PointerPrints(x, full, t, st, z);
    case ArrayType(_, _) => ArrayPrints(x, full, t, st, z);
    case SliceType(_) => SlicePrints(x, full, t, st, z);
    case TupleType(_) => TuplePrints(x, full, t, st, z);
    case FnType(_, _, _, _, _) => FnPrints(x, full, t, st, z);
    case DynType(_, _, _) => DynPrints(x, full, t, st, z);
    case TypeRef(_, _) => TypeRefPrints(x, full, t, st, z);
    case NamedType(_) => NamedPrints(x, full, t, st, z);
  }

  lemma BasicPrints(x: Context, full: bool, t: TypeAst, st: State, z: Place)
    requires t.BasicType? && TypeReady(x, full, t, st, z)
    ensures TypeDone(x, full, t, st, z)
  {
    hide Ok, After, SinkAfter, Enter, Wf, Fine, Adv, IsSymbol, TextAt, Stands, At, TagOf, NameOf, BasicTypeName, IsBasicType;
    AtSame(x, st, z);
    StandsText(x.sym, z.pos, MangleType(t));
    FirstIs(x.sym, z.pos, [TagOf(t.basic)]);
    BasicSame(t.basic);
    BasicTag(t.basic);
    TypeIsBasic(x, full, st);
  }

  lemma {:induction false} ReferencePrints(x: Context, full: bool, t: TypeAst, st: State, z: Place)
    requires t.ReferenceType? && TypeReady(x, full, t, st, z)
    ensures TypeDone(x, full, t, st, z)
    decreases t, 1
  {
    hide Ok, After, SinkAfter, Consumes, ConsumesOp, SoundOp, Sound, Exec, Enter, Loop, Wf, Fine, Adv, NoRegs, Goes, PathOps,
         TypeOps, ConstOps, IsSymbol, TextAt, Stands, MangleOpt, MangleName, ManglePath, MangleType, MangleArgs, MangleConst,
         MangleTypes, MangleConsts, RenderPath, RenderType, RenderConst, RenderArgs, RenderTypes, RenderConsts, FitsPath,
         FitsType, FitsConst, FitsName, FitsArgs, FitsTypes, FitsConsts, Encode62, At, Inner, MangleLife, RefLifeText, MutText,
         Follows;
    var b, life, w, u := Inner(st), MangleLife(t.life), MangleType(t.to), RenderType(t.to, z.bound, full);
    var tag, head := if t.isMut then 'Q' else 'R', "&" + RefLifeText(t.life, z.bound) + MutText(t.isMut);
    ReferenceParts(z, t, full);
    AtSame(x, st, z);
    StandsText(x.sym, z.pos, [tag] + (life + w));
    FirstIs(x.sym, z.pos, [tag] + (life + w));
    Splits(x.sym, z.pos, [tag], life + w);
    Splits(x.sym, z.pos + 1, life, w);
    LifeAbsent(x.sym, z.pos + 1, t.life, t.to);
    TextEnds(x.sym, z.pos + 1, life + w);
    AtInner(x, st, z);
    AtSame(x, b, In(z, 1, 1));
    AtAdv(x, b, In(z, 1, 1), |life|, head);
    AtSame(x, Adv(b, |life|, head), In(z, 1 + |life|, 1));
    AdvRoom(b, |life|, head, |u| + 3);
    TypePrints(x, full, t.to, Adv(b, |life|, head), In(z, 1 + |life|, 1));
    ReferenceRuns(x, full, t.isMut, b, t.life, z.bound, |w|, u);
    TypeOpsAre(tag);
    TypeEnters(x, st, z, tag, |life| + |w|, head + u);
  }

  lemma LifeAbsent(sym: string, p: nat, life: Option<nat>, to: TypeAst)
    requires TextAt(sym, p, MangleLife(life) + MangleType(to))
    ensures life.None? ==> !Eats(sym, p, 'L')
  {
    hide MangleType, TextAt, Encode62;
    TypeStarts(to);
    if life.None? {
      assert "" + MangleType(to) == MangleType(to);
      FirstIs(sym, p, MangleType(to));
    }
  }

  lemma {:induction false} PointerPrints(x: Context, full: bool, t: TypeAst, st: State, z: Place)
    requires t.PointerType? && TypeReady(x, full, t, st, z)
    ensures TypeDone(x, full, t, st, z)
    decreases t, 1
  {
    hide Ok, After, SinkAfter, Consumes, ConsumesOp, SoundOp, Sound, Exec, Enter, Loop, Wf, Fine, Adv, NoRegs, Goes, PathOps,
         TypeOps, ConstOps, IsSymbol, TextAt, Stands, MangleOpt, MangleName, ManglePath, MangleType, MangleArgs, MangleConst,
         MangleTypes, MangleConsts, RenderPath, RenderType, RenderConst, RenderArgs, RenderTypes, RenderConsts, FitsPath,
         FitsType, FitsConst, FitsName, FitsArgs, FitsTypes, FitsConsts, Encode62, At, Inner, PointerText;
    var b, w, u := Inner(st), MangleType(t.to), RenderType(t.to, z.bound, full);
    var tag, head := if t.isMut then 'O' else 'P', PointerText(t.isMut);
    PointerParts(z, t, full);
    AtSame(x, st, z);
    StandsText(x.sym, z.pos, [tag] + w);
    FirstIs(x.sym, z.pos, [tag] + w);
    Splits(x.sym, z.pos, [tag], w);
    AtInner(x, st, z);
    AtSame(x, b, In(z, 1, 1));
    AtAdv(x, b, In(z, 1, 1), 0, head);
    AtSame(x, Adv(b, 0, head), In(z, 1, 1));
    AdvRoom(b, 0, head, |u| + 3);
    TypePrints(x, full, t.to, Adv(b, 0, head), In(z, 1, 1));
    PointerRuns(x, t.isMut, b, |w|, u);
    TypeOpsAre(tag);
    TypeEnters(x, st, z, tag, |w|, head + u);
  }

  lemma {:induction false} ArrayPrints(x: Context, full: bool, t: TypeAst, st: State, z: Place)
    requires t.ArrayType? && TypeReady(x, full, t, st, z)
    ensures TypeDone(x, full, t, st, z)
    decreases t, 1
  {
    hide Ok, After, SinkAfter, Consumes, ConsumesOp, SoundOp, Sound, Exec, Enter, Loop, Wf, Fine, Adv, NoRegs, Goes, PathOps,
         TypeOps, ConstOps, IsSymbol, TextAt, Stands, MangleOpt, MangleName, ManglePath, MangleType, MangleArgs, MangleConst,
         MangleTypes, MangleConsts, RenderPath, RenderType, RenderConst, RenderArgs, RenderTypes, RenderConsts, FitsPath,
         FitsType, FitsConst, FitsName, FitsArgs, FitsTypes, FitsConsts, Encode62, At, Inner, Follows;
    var b, w, w' := Inner(st), MangleType(t.of), MangleConst(t.length);
    var u, u' := RenderType(t.of, z.bound, full), RenderConst(t.length, true, z.bound, full);
    ArrayParts(z, t, full);
    AtSame(x, st, z);
    StandsText(x.sym, z.pos, "A" + (w + w'));
    FirstIs(x.sym, z.pos, "A" + (w + w'));
    Splits(x.sym, z.pos, "A", w + w');
    ConstFollows(t.length, "");
    assert w' + "" == w';
    Before(x.sym, z.pos + 1, w, w');
    AtInner(x, st, z);
    AtSame(x, b, In(z, 1, 1));
    AtAdv(x, b, In(z, 1, 1), 0, "[");
    AtSame(x, Adv(b, 0, "["), In(z, 1, 1));
    AdvRoom(b, 0, "[", |u| + 3);
    TypePrints(x, full, t.of, Adv(b, 0, "["), In(z, 1, 1));
    var head := "[" + u + "; ";
    AtAdv(x, b, In(z, 1, 1), |w|, head);
    AtSame(x, Adv(b, |w|, head), In(z, 1 + |w|, 1));
    AdvRoom(b, |w|, head, |u'| + 3);
    ConstPrints(x, full, t.length, true, Adv(b, |w|, head), In(z, 1 + |w|, 1));
    ArrayRuns(x, b, |w|, u, |w'|, u');
    TypeOpsAre('A');
    TypeEnters(x, st, z, 'A', |w| + |w'|, head + u' + "]");
  }

  lemma {:induction false} SlicePrints(x: Context, full: bool, t: TypeAst, st: State, z: Place)
    requires t.SliceType? && TypeReady(x, full, t, st, z)
    ensures TypeDone(x, full, t, st, z)
    decreases t, 1
  {
    hide Ok, After, SinkAfter, Consumes, ConsumesOp, SoundOp, Sound, Exec, Enter, Loop, Wf, Fine, Adv, NoRegs, Goes, PathOps,
         TypeOps, ConstOps, IsSymbol, TextAt, Stands, MangleOpt, MangleName, ManglePath, MangleType, MangleArgs, MangleConst,
         MangleTypes, MangleConsts, RenderPath, RenderType, RenderConst, RenderArgs, RenderTypes, RenderConsts, FitsPath,
         FitsType, FitsConst, FitsName, FitsArgs, FitsTypes, FitsConsts, Encode62, At, Inner;
    var b, w, u := Inner(st), MangleType(t.of), RenderType(t.of, z.bound, full);
    SliceParts(z, t, full);
    AtSame(x, st, z);
    StandsText(x.sym, z.pos, "S" + w);
    FirstIs(x.sym, z.pos, "S" + w);
    Splits(x.sym, z.pos, "S", w);
    AtInner(x, st, z);
    AtSame(x, b, In(z, 1, 1));
    AtAdv(x, b, In(z, 1, 1), 0, "[");
    AtSame(x, Adv(b, 0, "["), In(z, 1, 1));
    AdvRoom(b, 0, "[", |u| + 3);
    TypePrints(x, full, t.of, Adv(b, 0, "["), In(z, 1, 1));
    SliceRuns(x, b, |w|, u);
    TypeOpsAre('S');
    TypeEnters(x, st, z, 'S', |w|, "[" + u + "]");
  }

  lemma {:induction false} TuplePrints(x: Context, full: bool, t: TypeAst, st: State, z: Place)
    requires t.TupleType? && TypeReady(x, full, t, st, z)
    ensures TypeDone(x, full, t, st, z)
    decreases t, 1
  {
    hide Ok, After, SinkAfter, Consumes, ConsumesOp, SoundOp, Sound, Exec, Enter, Loop, Wf, Fine, Adv, NoRegs, Goes, PathOps,
         TypeOps, ConstOps, IsSymbol, TextAt, Stands, MangleOpt, MangleName, ManglePath, MangleType, MangleArgs, MangleConst,
         MangleTypes, MangleConsts, RenderPath, RenderType, RenderConst, RenderArgs, RenderTypes, RenderConsts, FitsPath,
         FitsType, FitsConst, FitsName, FitsArgs, FitsTypes, FitsConsts, Encode62, At, Inner, Join, Tail;
    var b, list, u := Inner(st), MangleTypes(t.parts) + "E", Join(RenderTypes(t.parts, z.bound, full), ", ");
    TupleParts(z, t, full);
    AtSame(x, st, z);
    StandsText(x.sym, z.pos, "T" + list);
    FirstIs(x.sym, z.pos, "T" + list);
    Splits(x.sym, z.pos, "T", list);
    AtInner(x, st, z);
    AtSame(x, b, In(z, 1, 1));
    AtAdv(x, b, In(z, 1, 1), 0, "(");
    AtSame(x, Adv(b, 0, "("), In(z, 1, 1));
    AdvRoom(b, 0, "(", |u| + 3);
    JoinTail(RenderTypes(t.parts, z.bound, full), ", ");
    TypesPrint(x, full, t.parts, Adv(b, 0, "("), In(z, 1, 1), NoRegs(), 0);
    TupleRuns(x, full, b, |list|, u, |t.parts|);
    TypeOpsAre('T');
    TypeEnters(x, st, z, 'T', |list|, "(" + u + CommaText(|t.parts|) + ")");
  }

  lemma {:induction false} TypesPrint(x: Context, full: bool, ts: seq<TypeAst>, st: State, z: Place, r: Regs, count: nat)
    requires IsSymbol(x, full) && At(x, st, z) && TextAt(x.sym, z.pos, MangleTypes(ts) + "E") && FitsTypes(z, ts)
    requires Roomy(st, |Tail(RenderTypes(ts, z.bound, full), ", ", count)| + 3)
    ensures ListDone(x, ", ", [Call(Type)], st, r, count, |ts|, |MangleTypes(ts)|, Tail(RenderTypes(ts, z.bound, full), ", ", count))
    decreases ts, 0
  {
    hide Ok, After, SinkAfter, Consumes, ConsumesOp, SoundOp, Sound, Exec, Enter, Loop, Wf, Fine, Adv, NoRegs, Goes, PathOps,
         TypeOps, ConstOps, IsSymbol, TextAt, Stands, MangleOpt, MangleName, ManglePath, MangleType, MangleArgs, MangleConst,
         MangleTypes, MangleConsts, RenderPath, RenderType, RenderConst, RenderArgs, RenderTypes, RenderConsts, FitsPath,
         FitsType, FitsConst, FitsName, FitsArgs, FitsTypes, FitsConsts, Encode62, At, Inner, Follows, Tail, Sep;
    var body := [Call(Type)];
    AtSame(x, st, z);
    CallList(Type);
    if ts == [] {
      NoArgs(z.bound, full, count);
      FirstIs(x.sym, z.pos, "" + "E");
      LoopEnds(x, ", ", body, st, r, count);
    } else {
      var w, list, sep := MangleType(ts[0]), MangleTypes(ts[1..]) + "E", Sep(", ", count);
      var u, u' := RenderType(ts[0], z.bound, full), Tail(RenderTypes(ts[1..], z.bound, full), ", ", count + 1);
      TypesParts(z, ts, count, full);
      TypeFollows(ts[0], list);
      FirstIs(x.sym, z.pos, w + list);
      TypesFollow(ts[1..]);
      Before(x.sym, z.pos, w, list);
      var s1, s2 := Adv(st, 0, sep), Adv(st, |w|, sep + u);
      AtAdv(x, st, z, 0, sep);
      AtSame(x, s1, In(z, 0, 0));
      AdvRoom(st, 0, sep, |u| + 3);
      TypePrints(x, full, ts[0], s1, z);
      CallAlone(x, Type, s1, r, |w|, u);
      AtAdv(x, st, z, |w|, sep + u);
      AtSame(x, s2, In(z, |w|, 0));
      AdvRoom(st, |w|, sep + u, |u'| + 3);
      TypesPrint(x, full, ts[1..], s2, In(z, |w|, 0), r, count + 1);
      LoopGoes(x, ", ", body, st, r, count, |w|, u, |list|, u', r.(count := count + |ts|));
    }
  }

  lemma {:induction false} TypeRefPrints(x: Context, full: bool, t: TypeAst, st: State, z: Place)
    requires t.TypeRef? && TypeReady(x, full, t, st, z)
    ensures TypeDone(x, full, t, st, z)
    decreases t, 1
  {
    hide Ok, After, SinkAfter, Consumes, ConsumesOp, SoundOp, Sound, Exec, Enter, Loop, Wf, Fine, Adv, NoRegs, Goes, PathOps,
         TypeOps, ConstOps, IsSymbol, TextAt, Stands, MangleOpt, MangleName, ManglePath, MangleType, MangleArgs, MangleConst,
         MangleTypes, MangleConsts, RenderPath, RenderType, RenderConst, RenderArgs, RenderTypes, RenderConsts, FitsPath,
         FitsType, FitsConst, FitsName, FitsArgs, FitsTypes, FitsConsts, Encode62, At, Inner;
    var b, w, u := Inner(st), Encode62(t.at), RenderType(t, z.bound, full);
    TypeRefParts(z, t, full);
    AtSame(x, st, z);
    StandsText(x.sym, z.pos, "B" + w);
    FirstIs(x.sym, z.pos, "B" + w);
    Splits(x.sym, z.pos, "B", w);
    AtInner(x, st, z);
    AtSame(x, b, In(z, 1, 1));
    if z.loud {
      var back := b.(next := t.at, depth := b.depth + 1);
      AtTarget(x, st, z, t.at);
      TypePrints(x, full, t.target, back, In(z, 0, 2).(pos := t.at));
    }
    RefRuns(x, Type, b, t.at, |MangleType(t.target)|, u);
    TypeOpsAre('B');
    TypeRefShape();
    TypeEnters(x, st, z, 'B', |w|, u);
  }

  lemma TypeRefShape()
    ensures TypeOps('B') == Some([Backref(Type)])
  {
  }

  lemma {:induction false} NamedPrints(x: Context, full: bool, t: TypeAst, st: State, z: Place)
    requires t.NamedType? && TypeReady(x, full, t, st, z)
    ensures TypeDone(x, full, t, st, z)
    decreases t, 1
  {
    hide Ok, After, SinkAfter, Consumes, ConsumesOp, SoundOp, Sound, Exec, Enter, Loop, Wf, Fine, Adv, NoRegs, Goes, PathOps,
         TypeOps, ConstOps, IsSymbol, TextAt, Stands, MangleOpt, MangleName, ManglePath, MangleType, MangleArgs, MangleConst,
         MangleTypes, MangleConsts, RenderPath, RenderType, RenderConst, RenderArgs, RenderTypes, RenderConsts, FitsPath,
         FitsType, FitsConst, FitsName, FitsArgs, FitsTypes, FitsConsts, Encode62, At, Inner, IsBasicType;
    var w, u := ManglePath(t.path), RenderPath(t.path, false, z.bound, full);
    NamedParts(z, t, full);
    AtSame(x, st, z);
    OwnPathStarts(t.path);
    StandsText(x.sym, z.pos, w);
    FirstIs(x.sym, z.pos, w);
    PathTagsAre(w[0]);
    TypeIsPath(x, st);
    var s := st.(depth := st.depth + 1);
    AtDeeper(x, st, z);
    PathPrints(x, full, t.path, false, s, In(z, 0, 1));
    PoppedIs(x, st, |w|, u);
  }

  lemma AtDeeper(x: Context, st: State, z: Place)
    requires At(x, st, z) && z.depth < DEPTH_LIMIT
    ensures At(x, st.(depth := st.depth + 1), In(z, 0, 1)) && forall need: nat :: Roomy(st.(depth := st.depth + 1), need) == Roomy(st, need)
  {
  }

  lemma PoppedIs(x: Context, st: State, n: nat, u: string)
    requires Live(x, st)
    ensures Popped(Adv(st.(depth := st.depth + 1), n, u)) == Adv(st, n, u)
  {
  }

  // ------------------------------------------------------------------ function types

  lemma {:induction false} FnPrints(x: Context, full: bool, t: TypeAst, st: State, z: Place)
    requires t.FnType? && TypeReady(x, full, t, st, z)
    ensures TypeDone(x, full, t, st, z)
    decreases t, 1
  {
    hide Ok, After, SinkAfter, Consumes, ConsumesOp, SoundOp, Sound, Exec, Enter, Loop, Wf, Fine, Adv, NoRegs, Goes, PathOps,
         TypeOps, ConstOps, IsSymbol, TextAt, Stands, MangleOpt, MangleName, ManglePath, MangleType, MangleArgs, MangleConst,
         MangleTypes, MangleConsts, RenderPath, RenderType, RenderConst, RenderArgs, RenderTypes, RenderConsts, FitsPath,
         FitsType, FitsConst, FitsName, FitsArgs, FitsTypes, FitsConsts, Encode62, At, Inner, FunctionBody, FunctionText,
         RenderBinder, Within, FunctionType, FitsNumber;
    var b, o, w := Inner(st), MangleOpt('G', t.binder), FunctionBody(t);
    var head, u := RenderBinder(z.bound, t.binder), FunctionText(t, z.bound + t.binder, full);
    FnParts(z, t, full);
    AtSame(x, st, z);
    StandsText(x.sym, z.pos, "F" + (o + w));
    FirstIs(x.sym, z.pos, "F" + (o + w));
    Splits(x.sym, z.pos, "F", o + w);
    FunctionBodyStarts(t);
    OptAbsent(x.sym, z.pos + 1, 'G', t.binder, w);
    Splits(x.sym, z.pos + 1, o, w);
    TextEnds(x.sym, z.pos + 1, o + w);
    AtInner(x, st, z);
    AtSame(x, b, In(z, 1, 1));
    AtWithin(x, b, In(z, 1, 1), |o|, head, z.bound + t.binder);
    WithinRoom(b, |o|, head, z.bound + t.binder, |u| + 3);
    FunctionGoes(x, full, t, Within(b, |o|, head, z.bound + t.binder), In(z, 1 + |o|, 1).(bound := z.bound + t.binder));
    FnRuns(x, full, b, t.binder, z.bound, |w|, u);
    TypeOpsAre('F');
    TypeEnters(x, st, z, 'F', |o| + |w|, head + u);
  }

  lemma AtWithin(x: Context, b: State, z: Place, n: nat, t: string, l: nat)
    requires At(x, b, z) && z.pos + n <= |x.sym|
    ensures At(x, Within(b, n, t, l), In(z, n, 0).(bound := l))
  {
  }

  lemma WithinRoom(b: State, n: nat, t: string, l: nat, need: nat)
    requires Roomy(b, |t| + need)
    ensures Roomy(Within(b, n, t, l), need)
  {
  }

  lemma FunctionBodyStarts(t: TypeAst)
    requires t.FnType?
    ensures FunctionBody(t) != "" && FunctionBody(t)[0] != 'G'
  {
    hide MangleAbi, MangleTypes, MangleType;
    AbiStarts(t.abi);
    TypesFollow(t.params);
    var rest := (MangleTypes(t.params) + "E") + MangleType(t.result);
    assert rest[0] == (MangleTypes(t.params) + "E")[0];
  }

  lemma AbiStarts(abi: AbiAst)
    ensures abi.RustAbi? <==> MangleAbi(abi) == ""
    ensures !abi.RustAbi? ==> MangleAbi(abi)[0] == 'K'
  {
    hide MangleName;
  }

  /** The text behind the binder of a function type, part by part. */
  lemma FunctionSplits(sym: string, p: nat, t: TypeAst)
    requires t.FnType? && Stands(sym, p, FunctionBody(t))
    ensures var n := if t.isUnsafe then 1 else 0; var h := HeadLength(t.isUnsafe, t.abi); var list := MangleTypes(t.params) + "E";
      && Eats(sym, p, 'U') == t.isUnsafe && Stands(sym, p + n, MangleAbi(t.abi)) && (t.abi.RustAbi? ==> !Eats(sym, p + n, 'K'))
      && TextAt(sym, p + h, list) && Stands(sym, p + h + |list|, MangleType(t.result)) && p + h + |list| + |MangleType(t.result)| <= |sym|
      && |FunctionBody(t)| == h + |list| + |MangleType(t.result)|
  {
    hide MangleAbi, MangleTypes, MangleType, Stands, TextAt, Follows;
    var u, a, list, w := if t.isUnsafe then "U" else "", MangleAbi(t.abi), MangleTypes(t.params) + "E", MangleType(t.result);
    StandsText(sym, p, u + (a + (list + w)));
    Splits(sym, p, u, a + (list + w));
    TypesFollow(t.params);
    assert (list + w)[0] == list[0];
    ListFollows(list, w);
    Before(sym, p + |u|, a, list + w);
    Splits(sym, p + |u| + |a|, list, w);
    AbiStarts(t.abi);
    FirstIs(sym, p, u + (a + (list + w)));
    FirstIs(sym, p + |u|, a + (list + w));
  }

  lemma ListFollows(list: string, w: string)
    requires Follows(list)
    ensures Follows(list + w) && list != "" && (list + w)[0] == list[0]
  {
  }

  lemma {:induction false} FunctionGoes(x: Context, full: bool, t: TypeAst, s: State, z: Place)
    requires t.FnType? && IsSymbol(x, full) && At(x, s, z) && Stands(x.sym, z.pos, FunctionBody(t)) && (t.abi.OtherAbi? ==> t.abi.name != "")
    requires FitsTypes(In(z, HeadLength(t.isUnsafe, t.abi), 0), t.params)
    requires FitsType(In(z, HeadLength(t.isUnsafe, t.abi) + |MangleTypes(t.params)| + 1, 0), t.result)
    requires Roomy(s, |FunctionText(t, z.bound, full)| + 3)
    ensures Goes(x, FunctionType(), s, NoRegs(), |FunctionBody(t)|, FunctionText(t, z.bound, full))
    decreases t, 0
  {
    hide Ok, After, SinkAfter, Consumes, ConsumesOp, SoundOp, Sound, Exec, Enter, Loop, Wf, Fine, Adv, NoRegs, Goes, PathOps,
         TypeOps, ConstOps, IsSymbol, TextAt, Stands, MangleOpt, MangleName, ManglePath, MangleType, MangleArgs, MangleConst,
         MangleTypes, MangleConsts, RenderPath, RenderType, RenderConst, RenderArgs, RenderTypes, RenderConsts, FitsPath,
         FitsType, FitsConst, FitsName, FitsArgs, FitsTypes, FitsConsts, Encode62, At, Inner, FunctionBody, QualifierPart,
         ResultText, HeadLength, FunctionType, FunctionRest, Join, Tail, MangleAbi, IsUnit;
    var h, list, w := HeadLength(t.isUnsafe, t.abi), MangleTypes(t.params) + "E", MangleType(t.result);
    var q, u := QualifierPart(t.isUnsafe, t.abi), Join(RenderTypes(t.params, z.bound, full), ", ");
    var unit := IsUnit(t.result);
    var u' := if unit then "" else RenderType(t.result, z.bound, full);
    FunctionSplits(x.sym, z.pos, t);
    AtSame(x, s, z);
    FunctionRooms(q, u, unit, u');
    var r := HeadRuns(x, full, s, t.isUnsafe, t.abi);
    var s1 := Adv(s, h, q + "fn(");
    AtAdv(x, s, z, h, q + "fn(");
    AtSame(x, s1, In(z, h, 0));
    AdvRoom(s, h, q + "fn(", |u| + 3);
    JoinTail(RenderTypes(t.params, z.bound, full), ", ");
    TypesPrint(x, full, t.params, s1, In(z, h, 0), r, 0);
    TypeStarts(t.result);
    StandsText(x.sym, z.pos + h + |list|, w);
    FirstIs(x.sym, z.pos + h + |list|, w);
    UnitIs(t.result);
    if !unit {
      var head := q + "fn(" + u + ")" + " -> ";
      AtAdv(x, s, z, h + |list|, head);
      AtSame(x, Adv(s, h + |list|, head), In(z, h + |list|, 0));
      AdvRoom(s, h + |list|, head, |u'| + 3);
      TypePrints(x, full, t.result, Adv(s, h + |list|, head), In(z, h + |list|, 0));
    }
    FunctionRestRuns(x, s, h, q, r, |list|, u, r.(count := |t.params|), unit, |w|, u');
    GoesIs(x, FunctionType(), s, NoRegs(), h + |list| + |w|, q + "fn(" + u + ")" + ResultText(unit, u'), r.(count := |t.params|));
  }

  lemma UnitIs(t: TypeAst)
    ensures IsUnit(t) <==> t == BasicType(UnitType)
    ensures IsUnit(t) ==> |MangleType(t)| == 1
  {
  }

  lemma FunctionRooms(q: string, u: string, unit: bool, u': string)
    ensures var all := |q + "fn(" + u + ")" + ResultText(unit, u')|;
      && all == |q| + 3 + |u| + 1 + |ResultText(unit, u')| && (!unit ==> |ResultText(unit, u')| == 4 + |u'|)
  {
  }

  // ------------------------------------------------------------------ trait objects

  lemma {:induction false} DynPrints(x: Context, full: bool, t: TypeAst, st: State, z: Place)
    requires t.DynType? && TypeReady(x, full, t, st, z)
    ensures TypeDone(x, full, t, st, z)
    decreases t, 1
  {
    hide Ok, After, SinkAfter, Consumes, ConsumesOp, SoundOp, Sound, Exec, Enter, Loop, Wf, Fine, Adv, NoRegs, Goes, PathOps,
         TypeOps, ConstOps, IsSymbol, TextAt, Stands, MangleOpt, MangleName, ManglePath, MangleType, MangleArgs, MangleConst,
         MangleTypes, MangleConsts, RenderPath, RenderType, RenderConst, RenderArgs, RenderTypes, RenderConsts, FitsPath,
         FitsType, FitsConst, FitsName, FitsArgs, FitsTypes, FitsConsts, Encode62, At, Inner, RenderBinder, Within, ObjectBounds,
         MangleBounds, RenderBounds, FitsBounds, Join, Tail, OutlivesText, Follows, DynTrait, FitsNumber;
    var b, o, list, last := Inner(st), MangleOpt('G', t.binder), MangleBounds(t.bounds) + "E", "L" + Encode62(t.outlives);
    var l, u := z.bound + t.binder, Join(RenderBounds(t.bounds, z.bound + t.binder, full), " + ");
    var head, end := "dyn " + RenderBinder(z.bound, t.binder), OutlivesText(t.outlives, z.bound);
    DynParts(z, t, full);
    AtSame(x, st, z);
    StandsText(x.sym, z.pos, "D" + (o + (list + last)));
    FirstIs(x.sym, z.pos, "D" + (o + (list + last)));
    Splits(x.sym, z.pos, "D", o + (list + last));
    BoundsFollow(t.bounds);
    ListFollows(list, last);
    OptAbsent(x.sym, z.pos + 1, 'G', t.binder, list + last);
    Before(x.sym, z.pos + 1, o, list + last);
    StandsText(x.sym, z.pos + 1, o);
    Splits(x.sym, z.pos + 1 + |o|, list, last);
    AtInner(x, st, z);
    AtSame(x, b, In(z, 1, 1));
    var s, zs := Within(b, |o|, head, l), In(z, 1 + |o|, 1).(bound := l);
    AtWithin(x, b, In(z, 1, 1), |o|, head, l);
    AtSame(x, s, zs);
    WithinRoom(b, |o|, head, l, |u| + 3);
    JoinTail(RenderBounds(t.bounds, l, full), " + ");
    BoundsPrint(x, full, t.bounds, s, zs, NoRegs(), 0);
    BoundsRun(x, s, |list|, u, NoRegs().(count := |t.bounds|));
    DynRuns(x, full, b, t.binder, z.bound, |list|, u, t.outlives);
    TypeOpsAre('D');
    TypeEnters(x, st, z, 'D', |o| + |list| + 1 + |Encode62(t.outlives)|, head + u + end);
  }

  lemma {:induction false} BoundsPrint(x: Context, full: bool, bs: seq<BoundAst>, st: State, z: Place, r: Regs, count: nat)
    requires IsSymbol(x, full) && At(x, st, z) && TextAt(x.sym, z.pos, MangleBounds(bs) + "E") && FitsBounds(z, bs)
    requires Roomy(st, |Tail(RenderBounds(bs, z.bound, full), " + ", count)| + 3)
    ensures ListDone(x, " + ", [Frame(DynTrait())], st, r, count, |bs|, |MangleBounds(bs)|, Tail(RenderBounds(bs, z.bound, full), " + ", count))
    decreases bs, 0
  {
    hide Ok, After, SinkAfter, Consumes, ConsumesOp, SoundOp, Sound, Exec, Enter, Loop, Wf, Fine, Adv, NoRegs, Goes, PathOps,
         TypeOps, ConstOps, IsSymbol, TextAt, Stands, MangleOpt, MangleName, ManglePath, MangleType, MangleArgs, MangleConst,
         MangleTypes, MangleConsts, RenderPath, RenderType, RenderConst, RenderArgs, RenderTypes, RenderConsts, FitsPath,
         FitsType, FitsConst, FitsName, FitsArgs, FitsTypes, FitsConsts, Encode62, At, Inner, DynTrait, Follows, Tail,
         MangleBound, MangleBounds, RenderBound, RenderBounds, FitsBound, FitsBounds, Sep, GenericsOps, AssocType;
    var body := [Frame(DynTrait())];
    AtSame(x, st, z);
    DynSound();
    if bs == [] {
      NoBounds(z.bound, full, count);
      FirstIs(x.sym, z.pos, "" + "E");
      LoopEnds(x, " + ", body, st, r, count);
    } else {
      var w, list, sep := MangleBound(bs[0]), MangleBounds(bs[1..]) + "E", Sep(" + ", count);
      var u, u' := RenderBound(bs[0], z.bound, full), Tail(RenderBounds(bs[1..], z.bound, full), " + ", count + 1);
      BoundsParts(z, bs, count, full);
      BoundStarts(bs[0], list);
      FirstIs(x.sym, z.pos, w + list);
      BoundsFollow(bs[1..]);
      Before(x.sym, z.pos, w, list);
      var s1, s2 := Adv(st, 0, sep), Adv(st, |w|, sep + u);
      AtAdv(x, st, z, 0, sep);
      AtSame(x, s1, In(z, 0, 0));
      AdvRoom(st, 0, sep, |u| + 3);
      BoundGoes(x, full, bs[0], s1, z, list);
      FrameAlone(x, DynTrait(), s1, r, |w|, u);
      AtAdv(x, st, z, |w|, sep + u);
      AtSame(x, s2, In(z, |w|, 0));
      AdvRoom(st, |w|, sep + u, |u'| + 3);
      BoundsPrint(x, full, bs[1..], s2, In(z, |w|, 0), r, count + 1);
      LoopGoes(x, " + ", body, st, r, count, |w|, u, |list|, u', r.(count := count + |bs|));
    }
  }

  lemma NoBounds(bound: nat, full: bool, count: nat)
    ensures MangleBounds([]) == "" && Tail(RenderBounds([], bound, full), " + ", count) == "" && "" + "E" == "E"
    ensures MangleFields([]) == "" && Tail(RenderFields([], bound, full), ", ", count) == ""
  {
  }

  /** Text behind a bound: another bound, or the end of the list. */
  predicate BehindBound(w: string) { Follows(w) && w[0] != 'p' }

  lemma {:induction false} BoundGoes(x: Context, full: bool, b: BoundAst, st: State, z: Place, rest: string)
    requires IsSymbol(x, full) && At(x, st, z) && TextAt(x.sym, z.pos, MangleBound(b) + rest) && BehindBound(rest) && FitsBound(z, b)
    requires Roomy(st, |RenderBound(b, z.bound, full)| + 3)
    ensures Goes(x, DynTrait(), st, NoRegs(), |MangleBound(b)|, RenderBound(b, z.bound, full))
    decreases b, 0
  {
    hide Ok, After, SinkAfter, Consumes, ConsumesOp, SoundOp, Sound, Exec, Enter, Loop, Wf, Fine, Adv, NoRegs, Goes, PathOps,
         TypeOps, ConstOps, IsSymbol, TextAt, Stands, MangleOpt, MangleName, ManglePath, MangleType, MangleArgs, MangleConst,
         MangleTypes, MangleConsts, RenderPath, RenderType, RenderConst, RenderArgs, RenderTypes, RenderConsts, FitsPath,
         FitsType, FitsConst, FitsName, FitsArgs, FitsTypes, FitsConsts, Encode62, At, Inner, DynTrait, MangleBound,
         MangleBindings, RenderBound, RenderBindings, FitsBound, FitsTrait, FitsBindings, GenericsOps, AssocType, TraitText,
         TraitParams, BindingsText, Leaves, BindingsGo, Follows;
    var w, list := ManglePath(b.path), MangleBindings(b.bindings);
    var ps, ws := TraitParams(b.path, z.bound, full), RenderBindings(b.bindings, z.bound, full);
    var u, u', open := TraitText(b.path, z.bound, full), BindingsText(ws, ps != []), ps != [];
    BoundParts(z, b);
    BoundIs(b, z.bound, full);
    BindingsFollow(b.bindings, rest);
    assert w + list + rest == w + (list + rest);
    Before(x.sym, z.pos, w, list + rest);
    AtSame(x, st, z);
    TraitLeaves(x, full, b.path, st, z);
    var s := Adv(st, |w|, u);
    AtAdv(x, st, z, |w|, u);
    AtSame(x, s, In(z, |w|, 0));
    AdvSame(st, |w|, u);
    AdvRoom(st, |w|, u, |u'| + 3);
    DynSound();
    var open' := open || b.bindings != [];
    forall r: Regs | st.sink.Sink? ==> r.open == open ensures BindingsGo(x, Adv(st, |w|, u), r, |list|, u', open') {
      BindingsPrint(x, full, b.bindings, s, In(z, |w|, 0), r, open, rest);
    }
    BoundRuns(x, full, st, |w|, u, open, |list|, u', open');
  }

  lemma BindingsFollow(bs: seq<BindingAst>, rest: string)
    requires BehindBound(rest)
    ensures Follows(MangleBindings(bs) + rest)
  {
    hide MangleName, MangleType;
    if bs == [] {
      assert "" + rest == rest;
    } else {
      var a, b, c := MangleName(bs[0].name), MangleType(bs[0].ty), MangleBindings(bs[1..]);
      assert "p" + a + b + c + rest == "p" + (a + b + c + rest);
    }
  }

  /** One associated type, behind its `p`. */
  lemma {:induction false} BindingRuns(x: Context, full: bool, b: BindingAst, s: State, z: Place, r: Regs, open: bool, more: string) returns (r': Regs)
    requires IsSymbol(x, full) && At(x, s, z) && TextAt(x.sym, z.pos, MangleName(b.name) + (MangleType(b.ty) + more)) && Follows(more)
    requires FitsName(b.name) && FitsType(In(z, |MangleName(b.name)|, 0), b.ty) && (s.sink.Sink? ==> r.open == open)
    requires Roomy(s, |OpeningText(open) + RenderName(b.name) + " = " + RenderType(b.ty, z.bound, full)| + 3)
    ensures Wf(x, s) && Sound(AssocType()) && r'.open && z.pos + |MangleName(b.name)| + |MangleType(b.ty)| + |more| <= |x.sym|
    ensures TextAt(x.sym, z.pos + |MangleName(b.name)| + |MangleType(b.ty)|, more)
    ensures Exec(x, AssocType(), s, r) == Outcome(Adv(s, |MangleName(b.name)| + |MangleType(b.ty)|, OpeningText(open) + RenderName(b.name) + " = " + RenderType(b.ty, z.bound, full)), r', false)
    decreases b, 0
  {
    hide Ok, After, SinkAfter, Consumes, ConsumesOp, SoundOp, Sound, Exec, Enter, Loop, Wf, Fine, Adv, NoRegs, Goes, PathOps,
         TypeOps, ConstOps, IsSymbol, TextAt, Stands, MangleOpt, MangleName, ManglePath, MangleType, MangleArgs, MangleConst,
         MangleTypes, MangleConsts, RenderPath, RenderType, RenderConst, RenderArgs, RenderTypes, RenderConsts, FitsPath,
         FitsType, FitsConst, FitsName, FitsArgs, FitsTypes, FitsConsts, Encode62, At, Inner, AssocType, RenderName, OpeningText,
         Follows;
    var a, t, v := MangleName(b.name), MangleType(b.ty), RenderType(b.ty, z.bound, full);
    var head := OpeningText(open) + RenderName(b.name) + " = ";
    AtSame(x, s, z);
    AssocShape();
    TypeFollows(b.ty, more);
    Before(x.sym, z.pos, a, t + more);
    Before(x.sym, z.pos + |a|, t, more);
    AtAdv(x, s, z, |a|, head);
    AtSame(x, Adv(s, |a|, head), In(z, |a|, 0));
    AdvRoom(s, |a|, head, |v| + 3);
    TypePrints(x, full, b.ty, Adv(s, |a|, head), In(z, |a|, 0));
    r' := AssocRuns(x, full, s, r, open, b.name, |t|, v);
  }

  /** Associated types one after the other. */
  lemma {:induction false} BindingsPrint(x: Context, full: bool, bs: seq<BindingAst>, st: State, z: Place, r: Regs, open: bool, rest: string)
    requires IsSymbol(x, full) && At(x, st, z) && TextAt(x.sym, z.pos, MangleBindings(bs) + rest) && BehindBound(rest) && FitsBindings(z, bs)
    requires (st.sink.Sink? ==> r.open == open) && Roomy(st, |BindingsText(RenderBindings(bs, z.bound, full), open)| + 3)
    ensures BindingsGo(x, st, r, |MangleBindings(bs)|, BindingsText(RenderBindings(bs, z.bound, full), open), open || bs != [])
    decreases bs, 0
  {
    hide Ok, After, SinkAfter, Consumes, ConsumesOp, SoundOp, Sound, Exec, Enter, Loop, Wf, Fine, Adv, NoRegs, Goes, PathOps,
         TypeOps, ConstOps, IsSymbol, TextAt, Stands, MangleOpt, MangleName, ManglePath, MangleType, MangleArgs, MangleConst,
         MangleTypes, MangleConsts, RenderPath, RenderType, RenderConst, RenderArgs, RenderTypes, RenderConsts, FitsPath,
         FitsType, FitsConst, FitsName, FitsArgs, FitsTypes, FitsConsts, Encode62, At, Inner, MangleBindings, RenderBindings,
         FitsBindings, AssocType, BindingsText, BindingsGo, EatLoop, RenderName, OpeningText;
    AtSame(x, st, z);
    AssocShape();
    if bs == [] {
      NoBindingsAt(z.bound, full, open, rest);
      FirstIs(x.sym, z.pos, rest);
      EatLoopEnds(x, st, r, open);
    } else {
      var a, t, more := MangleName(bs[0].name), MangleType(bs[0].ty), MangleBindings(bs[1..]) + rest;
      var w := OpeningText(open) + RenderName(bs[0].name) + " = " + RenderType(bs[0].ty, z.bound, full);
      var tail, k := BindingsText(RenderBindings(bs[1..], z.bound, full), true), |a| + |t|;
      BindingsParts(z, bs, rest, open, full);
      FirstIs(x.sym, z.pos, "p" + (a + (t + more)));
      Splits(x.sym, z.pos, "p", a + (t + more));
      BindingsFollow(bs[1..], rest);
      var s1, s2 := Adv(st, 1, ""), Adv(st, 1 + k, w);
      AtAdv(x, st, z, 1, "");
      AtSame(x, s1, In(z, 1, 0));
      AdvSame(st, 1, "");
      AdvRoom(st, 1, "", |w| + 3);
      var r1 := BindingRuns(x, full, bs[0], s1, In(z, 1, 0), r, open, more);
      AtAdv(x, st, z, 1 + k, w);
      AtSame(x, s2, In(z, 1 + k, 0));
      AdvRoom(st, 1 + k, w, |tail| + 3);
      BindingsPrint(x, full, bs[1..], s2, In(z, 1 + k, 0), r1, true, rest);
      BindingsOn(x, st, r, k, w, r1, |MangleBindings(bs[1..])|, tail);
    }
  }

  lemma NoBindingsAt(bound: nat, full: bool, open: bool, rest: string)
    ensures MangleBindings([]) == "" && BindingsText(RenderBindings([], bound, full), open) == "" && "" + rest == rest
  {
  }

  lemma EatLoopEnds(x: Context, st: State, r: Regs, open: bool)
    requires Live(x, st) && Sound(AssocType()) && !Eats(x.sym, st.next, 'p') && (st.sink.Sink? ==> r.open == open)
    ensures BindingsGo(x, st, r, 0, "", open)
  {
    hide Ok, After, SinkAfter, Exec, EatLoop, Sound, Wf, Fine, AssocType, Adv;
    EatLoopUnfolds(x, 'p', AssocType(), st, r);
    AdvNone(st);
  }

  lemma BindingsOn(x: Context, st: State, r: Regs, k: nat, w: string, r1: Regs, k': nat, u': string)
    requires Live(x, st) && Sound(AssocType()) && Eats(x.sym, st.next, 'p') && Roomy(st, |w| + |u'|)
    requires var s := Adv(st, 1, ""); Wf(x, s) && Exec(x, AssocType(), s, r) == Outcome(Adv(s, k, w), r1, false)
    requires BindingsGo(x, Adv(st, 1 + k, w), r1, k', u', true)
    ensures BindingsGo(x, st, r, 1 + k + k', w + u', true)
  {
    hide Ok, After, SinkAfter, Exec, EatLoop, Sound, Wf, Fine, AssocType, Adv;
    var r' := EatLoop(x, 'p', AssocType(), Adv(st, 1 + k, w), r1).regs;
    AdvSame(st, 1 + k, w);
    EatLoopGoes(x, 'p', AssocType(), st, r, k, w, r1, k', u', r');
  }

  /** The path of a trait, with its bracket left open if it has one. */
  lemma {:induction false} TraitLeaves(x: Context, full: bool, p: PathAst, st: State, z: Place)
    requires IsSymbol(x, full) && At(x, st, z) && Stands(x.sym, z.pos, ManglePath(p)) && FitsTrait(z, p) && Roomy(st, |TraitText(p, z.bound, full)| + 3)
    ensures Leaves(x, GenericsOps(), st, |ManglePath(p)|, TraitText(p, z.bound, full), TraitParams(p, z.bound, full) != [])
    decreases p, 3
  {
    hide Ok, After, SinkAfter, Consumes, ConsumesOp, SoundOp, Sound, Exec, Enter, Loop, Wf, Fine, Adv, NoRegs, Goes, PathOps,
         TypeOps, ConstOps, IsSymbol, TextAt, Stands, MangleOpt, MangleName, ManglePath, MangleType, MangleArgs, MangleConst,
         MangleTypes, MangleConsts, RenderPath, RenderType, RenderConst, RenderArgs, RenderTypes, RenderConsts, FitsPath,
         FitsType, FitsConst, FitsName, FitsArgs, FitsTypes, FitsConsts, Encode62, At, Inner, TraitText, TraitParams, FitsTrait,
         GenericsOps, Leaves;
    AtSame(x, st, z);
    StandsText(x.sym, z.pos, ManglePath(p));
    if p.GenericPath? {
      OpenTraitPrints(x, full, p, st, z);
    } else if p.PathRef? {
      TraitRefPrints(x, full, p, st, z);
    } else {
      PlainTrait(z, p, full);
      PlainTag(p);
      FirstIs(x.sym, z.pos, ManglePath(p));
      PathPrints(x, full, p, false, st, z);
      PlainTraitRuns(x, st, |ManglePath(p)|, RenderPath(p, false, z.bound, full));
    }
  }

  lemma PlainTag(p: PathAst)
    requires !p.GenericPath? && !p.PathRef?
    ensures ManglePath(p) != "" && ManglePath(p)[0] != 'B' && ManglePath(p)[0] != 'I'
  {
    hide MangleOpt, MangleName, MangleType;
  }

  lemma {:induction false} OpenTraitPrints(x: Context, full: bool, p: PathAst, st: State, z: Place)
    requires p.GenericPath? && IsSymbol(x, full) && At(x, st, z) && Stands(x.sym, z.pos, ManglePath(p)) && FitsTrait(z, p) && Roomy(st, |TraitText(p, z.bound, full)| + 3)
    ensures Leaves(x, GenericsOps(), st, |ManglePath(p)|, TraitText(p, z.bound, full), TraitParams(p, z.bound, full) != [])
    decreases p, 2
  {
    hide Ok, After, SinkAfter, Consumes, ConsumesOp, SoundOp, Sound, Exec, Enter, Loop, Wf, Fine, Adv, NoRegs, Goes, PathOps,
         TypeOps, ConstOps, IsSymbol, TextAt, Stands, MangleOpt, MangleName, ManglePath, MangleType, MangleArgs, MangleConst,
         MangleTypes, MangleConsts, RenderPath, RenderType, RenderConst, RenderArgs, RenderTypes, RenderConsts, FitsPath,
         FitsType, FitsConst, FitsName, FitsArgs, FitsTypes, FitsConsts, Encode62, At, Inner, TraitText, TraitParams, FitsTrait,
         GenericsOps, Leaves, GenericArg, Follows, Join, Tail;
    var w, list := ManglePath(p.base), MangleArgs(p.args) + "E";
    var u, u' := RenderPath(p.base, false, z.bound, full), Join(RenderArgs(p.args, z.bound, full), ", ");
    GenericParts(z, p, false, full);
    OpenTrait(z, p, full);
    AtSame(x, st, z);
    StandsText(x.sym, z.pos, "I" + (w + list));
    FirstIs(x.sym, z.pos, "I" + (w + list));
    Splits(x.sym, z.pos, "I", w + list);
    ArgsFollow(In(z, 1 + |w|, 0), p.args);
    Before(x.sym, z.pos + 1, w, list);
    AtAdv(x, st, z, 1, "");
    AtSame(x, Adv(st, 1, ""), In(z, 1, 0));
    AdvRoom(st, 1, "", |u| + 3);
    PathPrints(x, full, p.base, false, Adv(st, 1, ""), In(z, 1, 0));
    var s := Adv(st, 1 + |w|, u + "<");
    AtAdv(x, st, z, 1 + |w|, u + "<");
    AtSame(x, s, In(z, 1 + |w|, 0));
    JoinTail(RenderArgs(p.args, z.bound, full), ", ");
    AdvRoom(st, 1 + |w|, u + "<", |u'| + 3);
    ArgsPrint(x, full, p.args, s, In(z, 1 + |w|, 0), NoRegs(), 0);
    OpenTraitRuns(x, st, |w|, u, |list|, u', NoRegs().(count := |p.args|));
  }

  lemma {:induction false} TraitRefPrints(x: Context, full: bool, p: PathAst, st: State, z: Place)
    requires p.PathRef? && IsSymbol(x, full) && At(x, st, z) && Stands(x.sym, z.pos, ManglePath(p)) && FitsTrait(z, p) && Roomy(st, |TraitText(p, z.bound, full)| + 3)
    ensures Leaves(x, GenericsOps(), st, |ManglePath(p)|, TraitText(p, z.bound, full), TraitParams(p, z.bound, full) != [])
    decreases p, 2
  {
    hide Ok, After, SinkAfter, Consumes, ConsumesOp, SoundOp, Sound, Exec, Enter, Loop, Wf, Fine, Adv, NoRegs, Goes, PathOps,
         TypeOps, ConstOps, IsSymbol, TextAt, Stands, MangleOpt, MangleName, ManglePath, MangleType, MangleArgs, MangleConst,
         MangleTypes, MangleConsts, RenderPath, RenderType, RenderConst, RenderArgs, RenderTypes, RenderConsts, FitsPath,
         FitsType, FitsConst, FitsName, FitsArgs, FitsTypes, FitsConsts, Encode62, At, Inner, TraitText, TraitParams, FitsTrait,
         GenericsOps, Leaves;
    PathRefParts(z, p, false, full);
    RefTrait(z, p, full);
    AtSame(x, st, z);
    StandsText(x.sym, z.pos, "B" + Encode62(p.at));
    var u, open := TraitText(p, z.bound, full), TraitParams(p, z.bound, full) != [];
    if z.loud {
      AtTraitTarget(x, st, z, p.at);
      TraitLeaves(x, full, p.target, st.(next := p.at, depth := st.depth + 1), In(z, 0, 1).(pos := p.at));
    }
    TraitRefRuns(x, st, p.at, |ManglePath(p.target)|, u, open);
  }

  lemma AtTraitTarget(x: Context, st: State, z: Place, at: nat)
    requires At(x, st, z) && z.depth < DEPTH_LIMIT && at < z.pos
    ensures var s := st.(next := at, depth := st.depth + 1); At(x, s, In(z, 0, 1).(pos := at)) && forall need: nat :: Roomy(s, need) == Roomy(st, need)
  {
  }

  // ------------------------------------------------------------------ constants

  lemma {:induction false} ConstPrints(x: Context, full: bool, c: ConstAst, v: bool, st: State, z: Place)
    requires ConstReady(x, full, c, v, st, z)
    ensures ConstDone(x, full, c, v, st, z)
    decreases c, 2
  {
    hide *;
    match c
    case AnyConst => LeafPrints(x, full, c, v, st, z);
    case IntConst(_, _, _) => LeafPrints(x, full, c, v, st, z);
    case BoolConst(_) => LiteralPrints(x, full, c, v, st, z);
    case CharConst(_) => LiteralPrints(x, full, c, v, st, z);
    case TextConst(_) => TextPrints(x, full, c, v, st, z);
    case TextRefConst(_) => TextPrints(x, full, c, v, st, z);
    case RefConst(_, _) => RefConstPrints(x, full, c, v, st, z);
    case ArrayConst(_) => ListPrints(x, full, c, v, st, z);
    case TupleConst(_) => ListPrints(x, full, c, v, st, z);
    case UnitVariant(_) => VariantPrints(x, full, c, v, st, z);
    case TupleVariant(_, _) => VariantPrints(x, full, c, v, st, z);
    case StructVariant(_, _) => VariantPrints(x, full, c, v, st, z);
    case ConstRef(_, _) => ConstRefPrints(x, full, c, v, st, z);
  }

  lemma LeafPrints(x: Context, full: bool, c: ConstAst, v: bool, st: State, z: Place)
    requires (c.AnyConst? || c.IntConst?) && ConstReady(x, full, c, v, st, z)
    ensures ConstDone(x, full, c, v, st, z)
  {
    hide Ok, After, SinkAfter, Consumes, ConsumesOp, SoundOp, Sound, Exec, Enter, Loop, Wf, Fine, Adv, NoRegs, Goes, PathOps,
         TypeOps, ConstOps, IsSymbol, TextAt, Stands, MangleOpt, MangleName, ManglePath, MangleType, MangleArgs, MangleConst,
         MangleTypes, MangleConsts, RenderPath, RenderType, RenderConst, RenderArgs, RenderTypes, RenderConsts, FitsPath,
         FitsType, FitsConst, FitsName, FitsArgs, FitsTypes, FitsConsts, Encode62, At, Inner, SignText, NumberText, TagOf, AllHex;
    LeafParts(z, c, v, full);
    AtSame(x, st, z);
    StandsText(x.sym, z.pos, MangleConst(c));
    var b := Inner(st);
    if c.AnyConst? {
      FirstIs(x.sym, z.pos, "p");
      AtInner(x, st, z);
      AtSame(x, b, In(z, 1, 1));
      AnyRuns(x, v, b);
      ConstEnters(x, v, st, z, 'p', 0, "_");
    } else {
      var w := (if c.negative then "n" else "") + c.digits + "_";
      FirstIs(x.sym, z.pos, [TagOf(c.kind)] + w);
      Splits(x.sym, z.pos, [TagOf(c.kind)], w);
      AtInner(x, st, z);
      AtSame(x, b, In(z, 1, 1));
      IntRuns(x, full, v, b, c.kind, c.negative, c.digits);
      ConstEnters(x, v, st, z, TagOf(c.kind), (if c.negative then 1 else 0) + |c.digits| + 1, SignText(c.negative) + NumberText(c.kind, c.digits, full));
    }
  }

  lemma LiteralPrints(x: Context, full: bool, c: ConstAst, v: bool, st: State, z: Place)
    requires (c.BoolConst? || c.CharConst?) && ConstReady(x, full, c, v, st, z)
    ensures ConstDone(x, full, c, v, st, z)
  {
    hide Ok, After, SinkAfter, Consumes, ConsumesOp, SoundOp, Sound, Exec, Enter, Loop, Wf, Fine, Adv, NoRegs, Goes, PathOps,
         TypeOps, ConstOps, IsSymbol, TextAt, Stands, MangleOpt, MangleName, ManglePath, MangleType, MangleArgs, MangleConst,
         MangleTypes, MangleConsts, RenderPath, RenderType, RenderConst, RenderArgs, RenderTypes, RenderConsts, FitsPath,
         FitsType, FitsConst, FitsName, FitsArgs, FitsTypes, FitsConsts, Encode62, At, Inner, HexNumber, RenderChar, AllHex,
         Utf8.IsScalar;
    LeafParts(z, c, v, full);
    LiteralParts(z, c, v, full);
    AtSame(x, st, z);
    StandsText(x.sym, z.pos, MangleConst(c));
    var b, w, tag := Inner(st), c.digits + "_", if c.BoolConst? then "b" else "c";
    FirstIs(x.sym, z.pos, tag + w);
    Splits(x.sym, z.pos, tag, w);
    AtInner(x, st, z);
    AtSame(x, b, In(z, 1, 1));
    if c.BoolConst? {
      BoolRuns(x, full, v, b, c.digits);
      ConstEnters(x, v, st, z, 'b', |c.digits| + 1, if HexNumber(c.digits) == 0 then "false" else "true");
    } else {
      CharRuns(x, full, v, b, c.digits);
      ConstEnters(x, v, st, z, 'c', |c.digits| + 1, "'" + RenderChar(HexNumber(c.digits), '\'') + "'");
    }
  }

  lemma TextPrints(x: Context, full: bool, c: ConstAst, v: bool, st: State, z: Place)
    requires (c.TextConst? || c.TextRefConst?) && ConstReady(x, full, c, v, st, z)
    ensures ConstDone(x, full, c, v, st, z)
  {
    hide Ok, After, SinkAfter, Consumes, ConsumesOp, SoundOp, Sound, Exec, Enter, Loop, Wf, Fine, Adv, NoRegs, Goes, PathOps,
         TypeOps, ConstOps, IsSymbol, TextAt, Stands, MangleOpt, MangleName, ManglePath, MangleType, MangleArgs, MangleConst,
         MangleTypes, MangleConsts, RenderPath, RenderType, RenderConst, RenderArgs, RenderTypes, RenderConsts, FitsPath,
         FitsType, FitsConst, FitsName, FitsArgs, FitsTypes, FitsConsts, Encode62, At, Inner, Braced, Quoted, MangleBytes,
         Utf8.EncodeAll, Utf8.AllScalar;
    LeafParts(z, c, v, full);
    TextConstParts(z, c, v, full);
    AtSame(x, st, z);
    StandsText(x.sym, z.pos, MangleConst(c));
    var b, w := Inner(st), MangleBytes(Utf8.EncodeAll(c.codes)) + "_";
    if c.TextConst? {
      FirstIs(x.sym, z.pos, "e" + w);
      Splits(x.sym, z.pos, "e", w);
      AtInner(x, st, z);
      AtSame(x, b, In(z, 1, 1));
      TextRuns(x, full, v, b, c.codes);
      ConstEnters(x, v, st, z, 'e', |w|, Braced(v, "*" + Quoted(c.codes)));
    } else {
      FirstIs(x.sym, z.pos, "R" + ("e" + w));
      Splits(x.sym, z.pos, "R", "e" + w);
      AtInner(x, st, z);
      AtSame(x, b, In(z, 1, 1));
      TextRefRuns(x, full, v, b, c.codes);
      ConstEnters(x, v, st, z, 'R', |w| + 1, Quoted(c.codes));
    }
  }

  lemma {:induction false} RefConstPrints(x: Context, full: bool, c: ConstAst, v: bool, st: State, z: Place)
    requires c.RefConst? && ConstReady(x, full, c, v, st, z)
    ensures ConstDone(x, full, c, v, st, z)
    decreases c, 1
  {
    hide Ok, After, SinkAfter, Consumes, ConsumesOp, SoundOp, Sound, Exec, Enter, Loop, Wf, Fine, Adv, NoRegs, Goes, PathOps,
         TypeOps, ConstOps, IsSymbol, TextAt, Stands, MangleOpt, MangleName, ManglePath, MangleType, MangleArgs, MangleConst,
         MangleTypes, MangleConsts, RenderPath, RenderType, RenderConst, RenderArgs, RenderTypes, RenderConsts, FitsPath,
         FitsType, FitsConst, FitsName, FitsArgs, FitsTypes, FitsConsts, Encode62, At, Inner, Braced, RefText, Open;
    var b, w, u := Inner(st), MangleConst(c.to), RenderConst(c.to, true, z.bound, full);
    var tag, head := if c.isMut then 'Q' else 'R', Open(v) + RefText(c.isMut);
    LeafParts(z, c, v, full);
    RefConstParts(z, c, v, full);
    AtSame(x, st, z);
    StandsText(x.sym, z.pos, [tag] + w);
    FirstIs(x.sym, z.pos, [tag] + w);
    Splits(x.sym, z.pos, [tag], w);
    ConstStarts(c.to);
    FirstIs(x.sym, z.pos + 1, w);
    AtInner(x, st, z);
    AtSame(x, b, In(z, 1, 1));
    BracedIs(v, RefText(c.isMut) + u);
    AtAdv(x, b, In(z, 1, 1), 0, head);
    AtSame(x, Adv(b, 0, head), In(z, 1, 1));
    AdvRoom(b, 0, head, |u| + 3);
    ConstPrints(x, full, c.to, true, Adv(b, 0, head), In(z, 1, 1));
    RefConstRuns(x, v, c.isMut, b, |w|, u);
    ConstEnters(x, v, st, z, tag, |w|, Braced(v, RefText(c.isMut) + u));
  }

  lemma {:induction false} ListPrints(x: Context, full: bool, c: ConstAst, v: bool, st: State, z: Place)
    requires (c.ArrayConst? || c.TupleConst?) && ConstReady(x, full, c, v, st, z)
    ensures ConstDone(x, full, c, v, st, z)
    decreases c, 1
  {
    hide Ok, After, SinkAfter, Consumes, ConsumesOp, SoundOp, Sound, Exec, Enter, Loop, Wf, Fine, Adv, NoRegs, Goes, PathOps,
         TypeOps, ConstOps, IsSymbol, TextAt, Stands, MangleOpt, MangleName, ManglePath, MangleType, MangleArgs, MangleConst,
         MangleTypes, MangleConsts, RenderPath, RenderType, RenderConst, RenderArgs, RenderTypes, RenderConsts, FitsPath,
         FitsType, FitsConst, FitsName, FitsArgs, FitsTypes, FitsConsts, Encode62, At, Inner, Braced, Open, Join, Tail, CommaText;
    var b, list, u := Inner(st), MangleConsts(c.parts) + "E", Join(RenderConsts(c.parts, z.bound, full), ", ");
    var tag, head := if c.ArrayConst? then 'A' else 'T', Open(v) + (if c.ArrayConst? then "[" else "(");
    var text := if c.ArrayConst? then "[" + u + "]" else "(" + u + CommaText(|c.parts|) + ")";
    LeafParts(z, c, v, full);
    ListConstParts(z, c, v, full);
    AtSame(x, st, z);
    StandsText(x.sym, z.pos, [tag] + list);
    FirstIs(x.sym, z.pos, [tag] + list);
    Splits(x.sym, z.pos, [tag], list);
    AtInner(x, st, z);
    AtSame(x, b, In(z, 1, 1));
    BracedIs(v, text);
    AtAdv(x, b, In(z, 1, 1), 0, head);
    AtSame(x, Adv(b, 0, head), In(z, 1, 1));
    AdvRoom(b, 0, head, |u| + 3);
    JoinTail(RenderConsts(c.parts, z.bound, full), ", ");
    ConstsPrint(x, full, c.parts, Adv(b, 0, head), In(z, 1, 1), NoRegs(), 0);
    if c.ArrayConst? { ArrayConstRuns(x, v, b, |list|, u, NoRegs().(count := |c.parts|)); } else { TupleConstRuns(x, full, v, b, |list|, u, |c.parts|); }
    ConstEnters(x, v, st, z, tag, |list|, Braced(v, text));
  }

  lemma {:induction false} ConstsPrint(x: Context, full: bool, cs: seq<ConstAst>, st: State, z: Place, r: Regs, count: nat)
    requires IsSymbol(x, full) && At(x, st, z) && TextAt(x.sym, z.pos, MangleConsts(cs) + "E") && FitsConsts(z, cs)
    requires Roomy(st, |Tail(RenderConsts(cs, z.bound, full), ", ", count)| + 3)
    ensures ListDone(x, ", ", [Call(Const(true))], st, r, count, |cs|, |MangleConsts(cs)|, Tail(RenderConsts(cs, z.bound, full), ", ", count))
    decreases cs, 0
  {
    hide Ok, After, SinkAfter, Consumes, ConsumesOp, SoundOp, Sound, Exec, Enter, Loop, Wf, Fine, Adv, NoRegs, Goes, PathOps,
         TypeOps, ConstOps, IsSymbol, TextAt, Stands, MangleOpt, MangleName, ManglePath, MangleType, MangleArgs, MangleConst,
         MangleTypes, MangleConsts, RenderPath, RenderType, RenderConst, RenderArgs, RenderTypes, RenderConsts, FitsPath,
         FitsType, FitsConst, FitsName, FitsArgs, FitsTypes, FitsConsts, Encode62, At, Inner, Follows, Tail, Sep;
    var body := [Call(Const(true))];
    AtSame(x, st, z);
    CallList(Const(true));
    if cs == [] {
      NoArgs(z.bound, full, count);
      FirstIs(x.sym, z.pos, "" + "E");
      LoopEnds(x, ", ", body, st, r, count);
    } else {
      var w, list, sep := MangleConst(cs[0]), MangleConsts(cs[1..]) + "E", Sep(", ", count);
      var u, u' := RenderConst(cs[0], true, z.bound, full), Tail(RenderConsts(cs[1..], z.bound, full), ", ", count + 1);
      ConstsParts(z, cs, count, full);
      ConstFollows(cs[0], list);
      FirstIs(x.sym, z.pos, w + list);
      ConstsFollow(In(z, |w|, 0), cs[1..]);
      Before(x.sym, z.pos, w, list);
      var s1, s2 := Adv(st, 0, sep), Adv(st, |w|, sep + u);
      AtAdv(x, st, z, 0, sep);
      AtSame(x, s1, In(z, 0, 0));
      AdvRoom(st, 0, sep, |u| + 3);
      ConstPrints(x, full, cs[0], true, s1, z);
      CallAlone(x, Const(true), s1, r, |w|, u);
      AtAdv(x, st, z, |w|, sep + u);
      AtSame(x, s2, In(z, |w|, 0));
      AdvRoom(st, |w|, sep + u, |u'| + 3);
      ConstsPrint(x, full, cs[1..], s2, In(z, |w|, 0), r, count + 1);
      LoopGoes(x, ", ", body, st, r, count, |w|, u, |list|, u', r.(count := count + |cs|));
    }
  }

  lemma {:induction false} VariantPrints(x: Context, full: bool, c: ConstAst, v: bool, st: State, z: Place)
    requires (c.UnitVariant? || c.TupleVariant? || c.StructVariant?) && ConstReady(x, full, c, v, st, z)
    ensures ConstDone(x, full, c, v, st, z)
    decreases c, 1
  {
    hide Ok, After, SinkAfter, Consumes, ConsumesOp, SoundOp, Sound, Exec, Enter, Loop, Wf, Fine, Adv, NoRegs, Goes, PathOps,
         TypeOps, ConstOps, IsSymbol, TextAt, Stands, MangleOpt, MangleName, ManglePath, MangleType, MangleArgs, MangleConst,
         MangleTypes, MangleConsts, RenderPath, RenderType, RenderConst, RenderArgs, RenderTypes, RenderConsts, FitsPath,
         FitsType, FitsConst, FitsName, FitsArgs, FitsTypes, FitsConsts, Encode62, At, Inner, Braced, Open, VariantBody,
         VariantText, VariantTag, Follows, FieldsGo, FitsFields;
    var b, w, tag, body := Inner(st), ManglePath(c.path), VariantTag(c), VariantBody(c);
    var u, u' := RenderPath(c.path, true, z.bound, full), VariantText(c, z.bound, full);
    LeafParts(z, c, v, full);
    VariantParts(z, c, v, full);
    AtSame(x, st, z);
    TagFollows(c);
    VariantSplits(x.sym, z.pos, w, tag, body);
    AtInner(x, st, z);
    AtSame(x, b, In(z, 1, 1));
    BracedIs(v, u + u');
    AtAdv(x, b, In(z, 1, 1), 0, Open(v));
    AtSame(x, Adv(b, 0, Open(v)), In(z, 1, 1));
    AdvRoom(b, 0, Open(v), |u| + 3);
    PathPrints(x, full, c.path, true, Adv(b, 0, Open(v)), In(z, 1, 1));
    var s := Adv(b, |w| + 1, Open(v) + u);
    AtAdv(x, b, In(z, 1, 1), |w| + 1, Open(v) + u);
    AtSame(x, s, In(z, 2 + |w|, 1));
    AdvRoom(b, |w| + 1, Open(v) + u, |u'| + 3);
    VariantGoes(x, full, c, s, In(z, 2 + |w|, 1));
    VariantRuns(x, v, b, tag, |w|, u, |body|, u');
    ConstEnters(x, v, st, z, 'V', |w| + 1 + |body|, Braced(v, u + u'));
  }

  lemma VariantSplits(sym: string, p: nat, w: string, tag: char, body: string)
    requires Stands(sym, p, "V" + (w + ([tag] + body))) && Follows([tag] + body)
    ensures Eats(sym, p, 'V') && Stands(sym, p + 1, w) && Eats(sym, p + 1 + |w|, tag) && TextAt(sym, p + 2 + |w|, body) && p + 2 + |w| + |body| <= |sym|
  {
    hide Stands, TextAt, Follows;
    StandsText(sym, p, "V" + (w + ([tag] + body)));
    FirstIs(sym, p, "V" + (w + ([tag] + body)));
    Splits(sym, p, "V", w + ([tag] + body));
    Before(sym, p + 1, w, [tag] + body);
    FirstIs(sym, p + 1 + |w|, [tag] + body);
    Splits(sym, p + 1 + |w|, [tag], body);
  }

  lemma TagFollows(c: ConstAst)
    requires c.UnitVariant? || c.TupleVariant? || c.StructVariant?
    ensures Follows([VariantTag(c)] + VariantBody(c))
  {
    hide VariantBody;
  }

  /** The fields of a variant. */
  lemma {:induction false} VariantGoes(x: Context, full: bool, c: ConstAst, s: State, z: Place)
    requires (c.UnitVariant? || c.TupleVariant? || c.StructVariant?) && IsSymbol(x, full) && At(x, s, z) && TextAt(x.sym, z.pos, VariantBody(c))
    requires (c.TupleVariant? ==> FitsConsts(z, c.parts)) && (c.StructVariant? ==> FitsFields(z, c.fields)) && Roomy(s, |VariantText(c, z.bound, full)| + 3)
    ensures FieldsGo(x, s, NoRegs().(tag := VariantTag(c)), |VariantBody(c)|, VariantText(c, z.bound, full))
    decreases c, 0
  {
    hide Ok, After, SinkAfter, Consumes, ConsumesOp, SoundOp, Sound, Exec, Enter, Loop, Wf, Fine, Adv, NoRegs, Goes, PathOps,
         TypeOps, ConstOps, IsSymbol, TextAt, Stands, MangleOpt, MangleName, ManglePath, MangleType, MangleArgs, MangleConst,
         MangleTypes, MangleConsts, RenderPath, RenderType, RenderConst, RenderArgs, RenderTypes, RenderConsts, FitsPath,
         FitsType, FitsConst, FitsName, FitsArgs, FitsTypes, FitsConsts, Encode62, At, Inner, FieldsGo, FitsFields, MangleFields,
         RenderFields, Join, Tail, StructField;
    var r := NoRegs().(tag := VariantTag(c));
    AtSame(x, s, z);
    if c.UnitVariant? {
      UnitFields(x, s, r);
    } else if c.TupleVariant? {
      var u := Join(RenderConsts(c.parts, z.bound, full), ", ");
      JoinTail(RenderConsts(c.parts, z.bound, full), ", ");
      TextEnds(x.sym, z.pos, VariantBody(c));
      AtAdv(x, s, z, 0, "(");
      AtSame(x, Adv(s, 0, "("), In(z, 0, 0));
      AdvRoom(s, 0, "(", |u| + 3);
      ConstsPrint(x, full, c.parts, Adv(s, 0, "("), z, r, 0);
      TupleFieldsRun(x, s, r, |VariantBody(c)|, u, r.(count := |c.parts|));
    } else {
      var u := Join(RenderFields(c.fields, z.bound, full), ", ");
      JoinTail(RenderFields(c.fields, z.bound, full), ", ");
      TextEnds(x.sym, z.pos, VariantBody(c));
      AtAdv(x, s, z, 0, " { ");
      AtSame(x, Adv(s, 0, " { "), In(z, 0, 0));
      AdvRoom(s, 0, " { ", |u| + 3);
      FieldsPrint(x, full, c.fields, Adv(s, 0, " { "), z, r, 0);
      StructFieldsRun(x, s, r, |VariantBody(c)|, u, r.(count := |c.fields|));
    }
  }

  lemma {:induction false} FieldsPrint(x: Context, full: bool, fs: seq<FieldAst>, st: State, z: Place, r: Regs, count: nat)
    requires IsSymbol(x, full) && At(x, st, z) && TextAt(x.sym, z.pos, MangleFields(fs) + "E") && FitsFields(z, fs)
    requires Roomy(st, |Tail(RenderFields(fs, z.bound, full), ", ", count)| + 3)
    ensures ListDone(x, ", ", [Frame(StructField())], st, r, count, |fs|, |MangleFields(fs)|, Tail(RenderFields(fs, z.bound, full), ", ", count))
    decreases fs, 0
  {
    hide Ok, After, SinkAfter, Consumes, ConsumesOp, SoundOp, Sound, Exec, Enter, Loop, Wf, Fine, Adv, NoRegs, Goes, PathOps,
         TypeOps, ConstOps, IsSymbol, TextAt, Stands, MangleOpt, MangleName, ManglePath, MangleType, MangleArgs, MangleConst,
         MangleTypes, MangleConsts, RenderPath, RenderType, RenderConst, RenderArgs, RenderTypes, RenderConsts, FitsPath,
         FitsType, FitsConst, FitsName, FitsArgs, FitsTypes, FitsConsts, Encode62, At, Inner, StructField, Follows, Tail,
         MangleField, MangleFields, RenderField, RenderFields, FitsField, FitsFields, Sep;
    var body := [Frame(StructField())];
    AtSame(x, st, z);
    StructListSound();
    if fs == [] {
      NoBounds(z.bound, full, count);
      FirstIs(x.sym, z.pos, "" + "E");
      LoopEnds(x, ", ", body, st, r, count);
    } else {
      var w, list, sep := MangleField(fs[0]), MangleFields(fs[1..]) + "E", Sep(", ", count);
      var u, u' := RenderField(fs[0], z.bound, full), Tail(RenderFields(fs[1..], z.bound, full), ", ", count + 1);
      FieldsParts(z, fs, count, full);
      FieldStarts(fs[0], list);
      FirstIs(x.sym, z.pos, w + list);
      FieldsFollow(fs[1..]);
      Before(x.sym, z.pos, w, list);
      var s1, s2 := Adv(st, 0, sep), Adv(st, |w|, sep + u);
      AtAdv(x, st, z, 0, sep);
      AtSame(x, s1, In(z, 0, 0));
      AdvRoom(st, 0, sep, |u| + 3);
      FieldGoes(x, full, fs[0], s1, z);
      FrameAlone(x, StructField(), s1, r, |w|, u);
      AtAdv(x, st, z, |w|, sep + u);
      AtSame(x, s2, In(z, |w|, 0));
      AdvRoom(st, |w|, sep + u, |u'| + 3);
      FieldsPrint(x, full, fs[1..], s2, In(z, |w|, 0), r, count + 1);
      LoopGoes(x, ", ", body, st, r, count, |w|, u, |list|, u', r.(count := count + |fs|));
    }
  }

  lemma {:induction false} FieldGoes(x: Context, full: bool, f: FieldAst, st: State, z: Place)
    requires IsSymbol(x, full) && At(x, st, z) && Stands(x.sym, z.pos, MangleField(f)) && FitsField(z, f) && Roomy(st, |RenderField(f, z.bound, full)| + 3)
    ensures Goes(x, StructField(), st, NoRegs(), |MangleField(f)|, RenderField(f, z.bound, full))
    decreases f, 0
  {
    hide Ok, After, SinkAfter, Consumes, ConsumesOp, SoundOp, Sound, Exec, Enter, Loop, Wf, Fine, Adv, NoRegs, Goes, PathOps,
         TypeOps, ConstOps, IsSymbol, TextAt, Stands, MangleOpt, MangleName, ManglePath, MangleType, MangleArgs, MangleConst,
         MangleTypes, MangleConsts, RenderPath, RenderType, RenderConst, RenderArgs, RenderTypes, RenderConsts, FitsPath,
         FitsType, FitsConst, FitsName, FitsArgs, FitsTypes, FitsConsts, Encode62, At, Inner, StructField, MangleField,
         RenderField, FitsField, RenderName, Follows;
    var o, a, w := MangleOpt('s', f.dis), MangleName(f.name), MangleConst(f.value);
    var u, head := RenderConst(f.value, true, z.bound, full), RenderName(f.name) + ": ";
    FieldParts(z, f, full);
    AtSame(x, st, z);
    StandsText(x.sym, z.pos, (o + a) + w);
    ConstFollows(f.value, "");
    assert w + "" == w;
    Before(x.sym, z.pos, o + a, w);
    StandsText(x.sym, z.pos, o + a);
    Splits(x.sym, z.pos, o, a);
    var n := |o| + |a|;
    AtAdv(x, st, z, n, head);
    AtSame(x, Adv(st, n, head), In(z, n, 0));
    AdvRoom(st, n, head, |u| + 3);
    ConstPrints(x, full, f.value, true, Adv(st, n, head), In(z, n, 0));
    FieldRuns(x, full, st, f.dis, f.name, |w|, u);
  }

  lemma {:induction false} ConstRefPrints(x: Context, full: bool, c: ConstAst, v: bool, st: State, z: Place)
    requires c.ConstRef? && ConstReady(x, full, c, v, st, z)
    ensures ConstDone(x, full, c, v, st, z)
    decreases c, 1
  {
    hide Ok, After, SinkAfter, Consumes, ConsumesOp, SoundOp, Sound, Exec, Enter, Loop, Wf, Fine, Adv, NoRegs, Goes, PathOps,
         TypeOps, ConstOps, IsSymbol, TextAt, Stands, MangleOpt, MangleName, ManglePath, MangleType, MangleArgs, MangleConst,
         MangleTypes, MangleConsts, RenderPath, RenderType, RenderConst, RenderArgs, RenderTypes, RenderConsts, FitsPath,
         FitsType, FitsConst, FitsName, FitsArgs, FitsTypes, FitsConsts, Encode62, At, Inner;
    var b, w, u := Inner(st), Encode62(c.at), RenderConst(c, v, z.bound, full);
    LeafParts(z, c, v, full);
    ConstRefParts(z, c, v, full);
    AtSame(x, st, z);
    StandsText(x.sym, z.pos, "B" + w);
    FirstIs(x.sym, z.pos, "B" + w);
    Splits(x.sym, z.pos, "B", w);
    AtInner(x, st, z);
    AtSame(x, b, In(z, 1, 1));
    if z.loud {
      var back := b.(next := c.at, depth := b.depth + 1);
      AtTarget(x, st, z, c.at);
      ConstPrints(x, full, c.target, v, back, In(z, 0, 2).(pos := c.at));
    }
    RefRuns(x, Const(v), b, c.at, |MangleConst(c.target)|, u);
    TextConstShape(v);
    ConstEnters(x, v, st, z, 'B', |w|, u);
  }
}

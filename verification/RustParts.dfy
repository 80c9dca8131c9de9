/** The parts of mangled text, of rendered text and of what fits, one level at a time. */
module RustParts {
  import opened Bytes
  import opened RustLexer
  import opened RustSyntax
  import opened RustPlaces
  import opened RustPrinter
  import opened RustInterpreter
  import opened RustText
  import opened RustTokens
  import opened RustSteps
  import opened RustPhrases
  import opened RustTypePhrases
  import opened RustConstPhrases
  import Utf8

  // ------------------------------------------------------------------ places and states

  /** The interpreter is at the place. */
  predicate At(x: Context, st: State, z: Place) {
    Live(x, st) && z.sym == x.sym && z.pos == st.next && z.depth == st.depth && z.loud == st.sink.Sink? && (z.loud ==> z.bound == st.lifetimes)
  }

  /** Behind the tag of a function, one level deeper. */
  function Inner(st: State): State { st.(next := st.next + 1, depth := st.depth + 1) }

  lemma AtAdv(x: Context, st: State, z: Place, n: nat, t: string)
    requires At(x, st, z) && z.pos + n <= |x.sym|
    ensures At(x, Adv(st, n, t), In(z, n, 0))
  {
  }

  lemma AtInner(x: Context, st: State, z: Place)
    requires At(x, st, z) && z.depth < DEPTH_LIMIT && z.pos < |x.sym|
    ensures At(x, Inner(st), In(z, 1, 1)) && (forall need: nat :: Roomy(Inner(st), need) == Roomy(st, need))
  {
  }

  lemma AtSame(x: Context, st: State, z: Place)
    requires At(x, st, z)
    ensures Live(x, st) && Wf(x, st) && z.sym == x.sym && z.pos == st.next && z.depth == st.depth && z.loud == st.sink.Sink? && (z.loud ==> z.bound == st.lifetimes)
  {
  }

  lemma InIn(z: Place, n: nat, levels: nat, m: nat)
    ensures In(In(z, n, levels), m, 0) == In(z, n + m, levels)
  {
  }

  lemma PathEnters(x: Context, v: bool, st: State, z: Place, tag: char, k: nat, u: string)
    requires At(x, st, z) && z.depth < DEPTH_LIMIT && Eats(x.sym, z.pos, tag) && Goes(x, PathOps(tag, v), Inner(st), NoRegs(), k, u)
    ensures Enter(x, Path(v), st) == Adv(st, 1 + k, u)
  {
    hide Ok, After, SinkAfter, Exec, Enter, Entered, Sound, PathOps, Wf, Fine, Goes, Adv, NoRegs;
    var r := GoesTo(x, PathOps(tag, v), Inner(st), NoRegs(), k, u);
    PathIs(x, v, st);
    EnteredIs(x, PathOps(tag, v), st, k, u, r);
  }

  lemma ConstEnters(x: Context, v: bool, st: State, z: Place, tag: char, k: nat, u: string)
    requires At(x, st, z) && z.depth < DEPTH_LIMIT && Eats(x.sym, z.pos, tag) && Goes(x, ConstOps(tag, v), Inner(st), NoRegs(), k, u)
    ensures Enter(x, Const(v), st) == Adv(st, 1 + k, u)
  {
    hide Ok, After, SinkAfter, Exec, Enter, Entered, Sound, ConstOps, Wf, Fine, Goes, Adv, NoRegs;
    var r := GoesTo(x, ConstOps(tag, v), Inner(st), NoRegs(), k, u);
    ConstIs(x, v, st);
    EnteredIs(x, ConstOps(tag, v), st, k, u, r);
  }

  lemma TypeEnters(x: Context, st: State, z: Place, tag: char, k: nat, u: string)
    requires At(x, st, z) && z.depth < DEPTH_LIMIT && Eats(x.sym, z.pos, tag) && OwnTypeStart(tag) && TypeOps(tag).Some?
    requires Goes(x, TypeOps(tag).value, Inner(st), NoRegs(), k, u)
    ensures Enter(x, Type, st) == Adv(st, 1 + k, u)
  {
    hide Ok, After, SinkAfter, Exec, Enter, Entered, Sound, TypeOps, Wf, Fine, Goes, Adv, NoRegs, IsBasicType;
    TypeOpsAre(tag);
    var r := GoesTo(x, TypeOps(tag).value, Inner(st), NoRegs(), k, u);
    TypeIs(x, st);
    EnteredIs(x, TypeOps(tag).value, st, k, u, r);
  }

  // ------------------------------------------------------------------ what follows a name or a path

  /** Text that can follow a name: it does not start with an underscore. */
  predicate Follows(w: string) { w != "" && w[0] != '_' }

  lemma OptNameStarts(dis: nat, name: Name)
    ensures var w := MangleOpt('s', dis) + MangleName(name); Follows(w) && w[0] != 'E'
  {
    hide MangleName, Encode62;
    NameStarts(name);
  }

  lemma TypeFollows(t: TypeAst, rest: string)
    ensures Follows(MangleType(t) + rest) && TypeStart((MangleType(t) + rest)[0])
  {
    hide MangleType;
    TypeStarts(t);
  }

  lemma PathFollows(p: PathAst, rest: string)
    ensures Follows(ManglePath(p) + rest) && PathStart((ManglePath(p) + rest)[0])
  {
    hide ManglePath;
    PathStarts(p);
  }

  lemma ConstFollows(c: ConstAst, rest: string)
    requires c.IntConst? ==> IsSigned(c.kind) || IsUnsigned(c.kind)
    ensures Follows(MangleConst(c) + rest) && ConstStart((MangleConst(c) + rest)[0])
  {
    hide MangleConst;
    ConstStarts(c);
  }

  predicate ArgStart(c: char) { TypeStart(c) || c == 'L' || c == 'K' }

  lemma ArgFollows(a: ArgAst, rest: string)
    requires a.ConstArg? && a.value.IntConst? ==> IsSigned(a.value.kind) || IsUnsigned(a.value.kind)
    ensures Follows(MangleArg(a) + rest) && ArgStart((MangleArg(a) + rest)[0])
  {
    hide MangleType, MangleConst, Encode62;
    if a.TypeArg? { TypeStarts(a.ty); }
  }

  // ------------------------------------------------------------------ paths

  lemma CrateParts(z: Place, p: PathAst, v: bool, full: bool)
    requires p.CratePath? && FitsPath(z, p)
    ensures z.depth < DEPTH_LIMIT && FitsNumber(p.dis) && FitsName(p.name)
    ensures ManglePath(p) == "C" + (MangleOpt('s', p.dis) + MangleName(p.name))
    ensures RenderPath(p, v, z.bound, full) == CrateText(p.name, p.dis, full)
  {
    hide MangleOpt, MangleName, RenderName, HexText;
    assert "C" + MangleOpt('s', p.dis) + MangleName(p.name) == "C" + (MangleOpt('s', p.dis) + MangleName(p.name));
  }

  lemma NestedParts(z: Place, p: PathAst, v: bool, full: bool)
    requires p.NestedPath? && FitsPath(z, p)
    ensures z.depth < DEPTH_LIMIT && FitsNumber(p.dis) && FitsName(p.name) && IsLetter(p.space) && FitsPath(In(z, 2, 1), p.parent)
    ensures ManglePath(p) == "N" + ([p.space] + (ManglePath(p.parent) + (MangleOpt('s', p.dis) + MangleName(p.name))))
    ensures RenderPath(p, v, z.bound, full) == RenderPath(p.parent, v, z.bound, full) + RenderSegment(p.space, p.dis, p.name)
  {
    hide MangleOpt, MangleName, RenderSegment;
    var w, name := ManglePath(p.parent), MangleOpt('s', p.dis) + MangleName(p.name);
    assert "N" + [p.space] + w + MangleOpt('s', p.dis) + MangleName(p.name) == "N" + ([p.space] + (w + name));
  }

  lemma InherentParts(z: Place, p: PathAst, v: bool, full: bool)
    requires p.InherentPath? && FitsPath(z, p)
    ensures z.depth < DEPTH_LIMIT && FitsNumber(p.dis) && FitsPath(In(z, 1 + |MangleOpt('s', p.dis)|, 1).(loud := false), p.home)
    ensures FitsType(In(z, 1 + |MangleOpt('s', p.dis)| + |ManglePath(p.home)|, 1), p.self)
    ensures ManglePath(p) == "M" + ((MangleOpt('s', p.dis) + ManglePath(p.home)) + MangleType(p.self))
    ensures RenderPath(p, v, z.bound, full) == "<" + RenderType(p.self, z.bound, full) + ">"
  {
    hide MangleOpt, MangleType, RenderType;
    FourParts("M", MangleOpt('s', p.dis), ManglePath(p.home), MangleType(p.self));
  }

  lemma FourParts(a: string, b: string, c: string, d: string)
    ensures a + b + c + d == a + (b + (c + d)) == a + ((b + c) + d)
  {
    assert a + b + c + d == a + (b + (c + d));
  }

  lemma FiveParts(a: string, b: string, c: string, d: string, e: string)
    ensures a + b + c + d + e == a + ((b + c) + (d + e))
  {
    assert a + b + c + d + e == a + b + c + (d + e);
    assert a + b + c == a + (b + c);
  }

  lemma ThreeParts(a: string, b: string, c: string)
    ensures a + b + c == a + (b + c)
  {
  }

  lemma ImplMangled(p: PathAst)
    requires p.ImplPath?
    ensures ManglePath(p) == "X" + ((MangleOpt('s', p.dis) + ManglePath(p.home)) + (MangleType(p.self) + ManglePath(p.role)))
  {
    hide MangleOpt, MangleType;
    FiveParts("X", MangleOpt('s', p.dis), ManglePath(p.home), MangleType(p.self), ManglePath(p.role));
  }

  lemma ImplRendered(p: PathAst, v: bool, bound: nat, full: bool)
    requires p.ImplPath?
    ensures RenderPath(p, v, bound, full) == "<" + RenderType(p.self, bound, full) + " as " + RenderPath(p.role, false, bound, full) + ">"
  {
    hide RenderType;
  }

  lemma ImplFits(z: Place, p: PathAst)
    requires p.ImplPath? && FitsPath(z, p)
    ensures z.depth < DEPTH_LIMIT && FitsNumber(p.dis) && FitsPath(In(z, 1 + |MangleOpt('s', p.dis)|, 1).(loud := false), p.home)
    ensures var n := 1 + |MangleOpt('s', p.dis)| + |ManglePath(p.home)|; FitsType(In(z, n, 1), p.self) && FitsPath(In(z, n + |MangleType(p.self)|, 1), p.role)
  {
    hide MangleOpt, MangleType, ManglePath, FitsType;
  }

  lemma ImplParts(z: Place, p: PathAst, v: bool, full: bool)
    requires p.ImplPath? && FitsPath(z, p)
    ensures z.depth < DEPTH_LIMIT && FitsNumber(p.dis) && FitsPath(In(z, 1 + |MangleOpt('s', p.dis)|, 1).(loud := false), p.home)
    ensures var n := 1 + |MangleOpt('s', p.dis)| + |ManglePath(p.home)|; FitsType(In(z, n, 1), p.self) && FitsPath(In(z, n + |MangleType(p.self)|, 1), p.role)
    ensures ManglePath(p) == "X" + ((MangleOpt('s', p.dis) + ManglePath(p.home)) + (MangleType(p.self) + ManglePath(p.role)))
    ensures RenderPath(p, v, z.bound, full) == "<" + RenderType(p.self, z.bound, full) + " as " + RenderPath(p.role, false, z.bound, full) + ">"
  {
    hide MangleOpt, MangleType, RenderType, ManglePath, RenderPath, FitsPath, FitsType;
    ImplMangled(p);
    ImplRendered(p, v, z.bound, full);
    ImplFits(z, p);
  }

  lemma TraitParts(z: Place, p: PathAst, v: bool, full: bool)
    requires p.TraitPath? && FitsPath(z, p)
    ensures z.depth < DEPTH_LIMIT && FitsType(In(z, 1, 1), p.self) && FitsPath(In(z, 1 + |MangleType(p.self)|, 1), p.role)
    ensures ManglePath(p) == "Y" + (MangleType(p.self) + ManglePath(p.role))
    ensures RenderPath(p, v, z.bound, full) == "<" + RenderType(p.self, z.bound, full) + " as " + RenderPath(p.role, false, z.bound, full) + ">"
  {
    hide MangleType, RenderType;
    var c, d := MangleType(p.self), ManglePath(p.role);
    assert "Y" + c + d == "Y" + (c + d);
  }

  lemma GenericParts(z: Place, p: PathAst, v: bool, full: bool)
    requires p.GenericPath?
    ensures FitsPath(z, p) ==> z.depth < DEPTH_LIMIT && FitsPath(In(z, 1, 1), p.base) && FitsArgs(In(z, 1 + |ManglePath(p.base)|, 1), p.args)
    ensures FitsTrait(z, p) ==> FitsPath(In(z, 1, 0), p.base) && FitsArgs(In(z, 1 + |ManglePath(p.base)|, 0), p.args)
    ensures ManglePath(p) == "I" + (ManglePath(p.base) + (MangleArgs(p.args) + "E"))
    ensures RenderPath(p, v, z.bound, full)
         == RenderPath(p.base, v, z.bound, full) + (if v then "::<" else "<") + Join(RenderArgs(p.args, z.bound, full), ", ") + ">"
  {
    hide MangleArgs, RenderArgs, Join, FitsArgs;
    FourParts("I", ManglePath(p.base), MangleArgs(p.args), "E");
  }

  lemma PathRefParts(z: Place, p: PathAst, v: bool, full: bool)
    requires p.PathRef?
    ensures FitsPath(z, p) ==> z.depth + 1 < DEPTH_LIMIT && FitsNumber(p.at) && p.at < z.pos
    ensures FitsPath(z, p) && z.loud ==> Stands(z.sym, p.at, ManglePath(p.target)) && FitsPath(In(z, 0, 2).(pos := p.at), p.target)
    ensures FitsTrait(z, p) ==> z.depth < DEPTH_LIMIT && FitsNumber(p.at) && p.at < z.pos
    ensures FitsTrait(z, p) && z.loud ==> Stands(z.sym, p.at, ManglePath(p.target)) && FitsTrait(In(z, 0, 1).(pos := p.at), p.target)
    ensures ManglePath(p) == "B" + Encode62(p.at) && RenderPath(p, v, z.bound, full) == RenderPath(p.target, v, z.bound, full)
  {
    hide Encode62, Stands;
  }

  // ------------------------------------------------------------------ lists

  lemma ArgsParts(z: Place, args: seq<ArgAst>, count: nat, full: bool)
    requires args != [] && FitsArgs(z, args)
    ensures FitsArg(z, args[0]) && FitsArgs(In(z, |MangleArg(args[0])|, 0), args[1..])
    ensures MangleArgs(args) + "E" == MangleArg(args[0]) + (MangleArgs(args[1..]) + "E")
    ensures Tail(RenderArgs(args, z.bound, full), ", ", count)
         == Sep(", ", count) + RenderArg(args[0], z.bound, full) + Tail(RenderArgs(args[1..], z.bound, full), ", ", count + 1)
    ensures args[0].ConstArg? && args[0].value.IntConst? ==> IsSigned(args[0].value.kind) || IsUnsigned(args[0].value.kind)
  {
    hide MangleArg, RenderArg;
    var w, rest := RenderArg(args[0], z.bound, full), RenderArgs(args[1..], z.bound, full);
    assert MangleArg(args[0]) + MangleArgs(args[1..]) + "E" == MangleArg(args[0]) + (MangleArgs(args[1..]) + "E");
    assert ([w] + rest)[1..] == rest;
  }

  lemma TypesParts(z: Place, ts: seq<TypeAst>, count: nat, full: bool)
    requires ts != [] && FitsTypes(z, ts)
    ensures FitsType(z, ts[0]) && FitsTypes(In(z, |MangleType(ts[0])|, 0), ts[1..])
    ensures MangleTypes(ts) + "E" == MangleType(ts[0]) + (MangleTypes(ts[1..]) + "E")
    ensures Tail(RenderTypes(ts, z.bound, full), ", ", count)
         == Sep(", ", count) + RenderType(ts[0], z.bound, full) + Tail(RenderTypes(ts[1..], z.bound, full), ", ", count + 1)
  {
    hide MangleType, RenderType, FitsType;
    var w, rest := RenderType(ts[0], z.bound, full), RenderTypes(ts[1..], z.bound, full);
    assert MangleType(ts[0]) + MangleTypes(ts[1..]) + "E" == MangleType(ts[0]) + (MangleTypes(ts[1..]) + "E");
    assert ([w] + rest)[1..] == rest;
  }

  lemma ConstsParts(z: Place, cs: seq<ConstAst>, count: nat, full: bool)
    requires cs != [] && FitsConsts(z, cs)
    ensures FitsConst(z, cs[0]) && FitsConsts(In(z, |MangleConst(cs[0])|, 0), cs[1..]) && (cs[0].IntConst? ==> IsSigned(cs[0].kind) || IsUnsigned(cs[0].kind))
    ensures MangleConsts(cs) + "E" == MangleConst(cs[0]) + (MangleConsts(cs[1..]) + "E")
    ensures Tail(RenderConsts(cs, z.bound, full), ", ", count)
         == Sep(", ", count) + RenderConst(cs[0], true, z.bound, full) + Tail(RenderConsts(cs[1..], z.bound, full), ", ", count + 1)
  {
    hide MangleConst, RenderConst;
    var w, rest := RenderConst(cs[0], true, z.bound, full), RenderConsts(cs[1..], z.bound, full);
    assert MangleConst(cs[0]) + MangleConsts(cs[1..]) + "E" == MangleConst(cs[0]) + (MangleConsts(cs[1..]) + "E");
    assert ([w] + rest)[1..] == rest;
  }

  lemma FieldsParts(z: Place, fs: seq<FieldAst>, count: nat, full: bool)
    requires fs != [] && FitsFields(z, fs)
    ensures FitsField(z, fs[0]) && FitsFields(In(z, |MangleField(fs[0])|, 0), fs[1..])
    ensures MangleFields(fs) + "E" == MangleField(fs[0]) + (MangleFields(fs[1..]) + "E")
    ensures Tail(RenderFields(fs, z.bound, full), ", ", count)
         == Sep(", ", count) + RenderField(fs[0], z.bound, full) + Tail(RenderFields(fs[1..], z.bound, full), ", ", count + 1)
  {
    hide MangleField, RenderField, FitsField;
    var w, rest := RenderField(fs[0], z.bound, full), RenderFields(fs[1..], z.bound, full);
    assert MangleField(fs[0]) + MangleFields(fs[1..]) + "E" == MangleField(fs[0]) + (MangleFields(fs[1..]) + "E");
    assert ([w] + rest)[1..] == rest;
  }

  lemma BoundsParts(z: Place, bs: seq<BoundAst>, count: nat, full: bool)
    requires bs != [] && FitsBounds(z, bs)
    ensures FitsBound(z, bs[0]) && FitsBounds(In(z, |MangleBound(bs[0])|, 0), bs[1..])
    ensures MangleBounds(bs) + "E" == MangleBound(bs[0]) + (MangleBounds(bs[1..]) + "E")
    ensures Tail(RenderBounds(bs, z.bound, full), " + ", count)
         == Sep(" + ", count) + RenderBound(bs[0], z.bound, full) + Tail(RenderBounds(bs[1..], z.bound, full), " + ", count + 1)
  {
    hide MangleBound, RenderBound, FitsBound;
    var w, rest := RenderBound(bs[0], z.bound, full), RenderBounds(bs[1..], z.bound, full);
    assert MangleBound(bs[0]) + MangleBounds(bs[1..]) + "E" == MangleBound(bs[0]) + (MangleBounds(bs[1..]) + "E");
    assert ([w] + rest)[1..] == rest;
  }

  // ------------------------------------------------------------------ how lists start

  lemma ArgsFollow(z: Place, args: seq<ArgAst>)
    requires FitsArgs(z, args)
    ensures Follows(MangleArgs(args) + "E")
  {
    hide MangleArg;
    if args == [] {
      assert "" + "E" == "E";
    } else {
      ArgsParts(z, args, 0, false);
      ArgFollows(args[0], MangleArgs(args[1..]) + "E");
    }
  }

  lemma TypesFollow(ts: seq<TypeAst>)
    ensures Follows(MangleTypes(ts) + "E") && (TypeStart((MangleTypes(ts) + "E")[0]) || (MangleTypes(ts) + "E")[0] == 'E')
  {
    hide MangleType;
    if ts == [] {
      assert "" + "E" == "E";
    } else {
      TypeFollows(ts[0], MangleTypes(ts[1..]) + "E");
      assert MangleType(ts[0]) + MangleTypes(ts[1..]) + "E" == MangleType(ts[0]) + (MangleTypes(ts[1..]) + "E");
    }
  }

  lemma ConstsFollow(z: Place, cs: seq<ConstAst>)
    requires FitsConsts(z, cs)
    ensures Follows(MangleConsts(cs) + "E")
  {
    hide MangleConst;
    if cs == [] {
      assert "" + "E" == "E";
    } else {
      ConstsParts(z, cs, 0, false);
      ConstFollows(cs[0], MangleConsts(cs[1..]) + "E");
    }
  }

  lemma FieldStarts(f: FieldAst, rest: string)
    ensures Follows(MangleField(f) + rest) && (MangleField(f) + rest)[0] != 'E'
  {
    hide MangleConst, MangleOpt, MangleName;
    OptNameStarts(f.dis, f.name);
    var w := MangleOpt('s', f.dis) + MangleName(f.name);
    assert MangleField(f) + rest == w + (MangleConst(f.value) + rest);
  }

  lemma FieldsFollow(fs: seq<FieldAst>)
    ensures Follows(MangleFields(fs) + "E")
  {
    hide MangleField;
    if fs == [] {
      assert "" + "E" == "E";
    } else {
      FieldStarts(fs[0], MangleFields(fs[1..]) + "E");
      assert MangleField(fs[0]) + MangleFields(fs[1..]) + "E" == MangleField(fs[0]) + (MangleFields(fs[1..]) + "E");
    }
  }

  lemma BoundStarts(b: BoundAst, rest: string)
    ensures Follows(MangleBound(b) + rest) && PathStart((MangleBound(b) + rest)[0])
  {
    hide ManglePath, MangleBindings;
    PathFollows(b.path, MangleBindings(b.bindings) + rest);
    assert MangleBound(b) + rest == ManglePath(b.path) + (MangleBindings(b.bindings) + rest);
  }

  lemma BoundsFollow(bs: seq<BoundAst>)
    ensures Follows(MangleBounds(bs) + "E") && (PathStart((MangleBounds(bs) + "E")[0]) || (MangleBounds(bs) + "E")[0] == 'E')
  {
    hide MangleBound;
    if bs == [] {
      assert "" + "E" == "E";
    } else {
      BoundStarts(bs[0], MangleBounds(bs[1..]) + "E");
      assert MangleBound(bs[0]) + MangleBounds(bs[1..]) + "E" == MangleBound(bs[0]) + (MangleBounds(bs[1..]) + "E");
    }
  }
}

/** The parts of types, trait bounds and constants, one level at a time. */
module RustTypeParts {
  import opened Bytes
  import opened RustLexer
  import opened RustSyntax
  import opened RustPlaces
  import opened RustTokens
  import opened RustPhrases
  import opened RustTypePhrases
  import opened RustTraitPhrases
  import opened RustConstPhrases
  import opened RustParts
  import Utf8

  // ------------------------------------------------------------------ types

  lemma ReferenceParts(z: Place, t: TypeAst, full: bool)
    requires t.ReferenceType? && FitsType(z, t)
    ensures z.depth < DEPTH_LIMIT && (t.life.Some? ==> FitsLife(z, t.life.value)) && FitsType(In(z, 1 + |MangleLife(t.life)|, 1), t.to)
    ensures MangleType(t) == [if t.isMut then 'Q' else 'R'] + (MangleLife(t.life) + MangleType(t.to))
    ensures RenderType(t, z.bound, full) == "&" + RefLifeText(t.life, z.bound) + MutText(t.isMut) + RenderType(t.to, z.bound, full)
  {
    hide MangleLife, RenderLife;
    var tag, a, b := if t.isMut then "Q" else "R", MangleLife(t.life), MangleType(t.to);
    assert tag + a + b == tag + (a + b) && tag == [if t.isMut then 'Q' else 'R'];
  }

  lemma PointerParts(z: Place, t: TypeAst, full: bool)
    requires t.PointerType? && FitsType(z, t)
    ensures z.depth < DEPTH_LIMIT && FitsType(In(z, 1, 1), t.to)
    ensures MangleType(t) == [if t.isMut then 'O' else 'P'] + MangleType(t.to)
    ensures RenderType(t, z.bound, full) == PointerText(t.isMut) + RenderType(t.to, z.bound, full)
  {
    assert (if t.isMut then "O" else "P") == [if t.isMut then 'O' else 'P'];
  }

  lemma ArrayParts(z: Place, t: TypeAst, full: bool)
    requires t.ArrayType? && FitsType(z, t)
    ensures z.depth < DEPTH_LIMIT && FitsType(In(z, 1, 1), t.of) && FitsConst(In(z, 1 + |MangleType(t.of)|, 1), t.length)
    ensures t.length.IntConst? ==> IsSigned(t.length.kind) || IsUnsigned(t.length.kind)
    ensures MangleType(t) == "A" + (MangleType(t.of) + MangleConst(t.length))
    ensures RenderType(t, z.bound, full) == "[" + RenderType(t.of, z.bound, full) + "; " + RenderConst(t.length, true, z.bound, full) + "]"
  {
    hide MangleConst, RenderConst;
    ThreeParts("A", MangleType(t.of), MangleConst(t.length));
  }

  lemma SliceParts(z: Place, t: TypeAst, full: bool)
    requires t.SliceType? && FitsType(z, t)
    ensures z.depth < DEPTH_LIMIT && FitsType(In(z, 1, 1), t.of) && MangleType(t) == "S" + MangleType(t.of)
    ensures RenderType(t, z.bound, full) == "[" + RenderType(t.of, z.bound, full) + "]"
  {
  }

  lemma TupleParts(z: Place, t: TypeAst, full: bool)
    requires t.TupleType? && FitsType(z, t)
    ensures z.depth < DEPTH_LIMIT && FitsTypes(In(z, 1, 1), t.parts) && MangleType(t) == "T" + (MangleTypes(t.parts) + "E")
    ensures RenderType(t, z.bound, full) == "(" + Join(RenderTypes(t.parts, z.bound, full), ", ") + CommaText(|t.parts|) + ")"
  {
    hide MangleTypes, RenderTypes, Join, FitsTypes;
    assert "T" + MangleTypes(t.parts) + "E" == "T" + (MangleTypes(t.parts) + "E");
  }

  lemma TypeRefParts(z: Place, t: TypeAst, full: bool)
    requires t.TypeRef? && FitsType(z, t)
    ensures z.depth + 1 < DEPTH_LIMIT && FitsNumber(t.at) && t.at < z.pos
    ensures z.loud ==> Stands(z.sym, t.at, MangleType(t.target)) && FitsType(In(z, 0, 2).(pos := t.at), t.target)
    ensures MangleType(t) == "B" + Encode62(t.at) && RenderType(t, z.bound, full) == RenderType(t.target, z.bound, full)
  {
    hide Encode62, Stands;
  }

  lemma NamedParts(z: Place, t: TypeAst, full: bool)
    requires t.NamedType? && FitsType(z, t)
    ensures z.depth < DEPTH_LIMIT && !t.path.PathRef? && FitsPath(In(z, 0, 1), t.path)
    ensures MangleType(t) == ManglePath(t.path) && RenderType(t, z.bound, full) == RenderPath(t.path, false, z.bound, full)
  {
    hide ManglePath, RenderPath;
  }

  /** A path that is not a reference starts with a tag of its own. */
  lemma OwnPathStarts(p: PathAst)
    requires !p.PathRef?
    ensures ManglePath(p) != "" && OwnPathStart(ManglePath(p)[0])
  {
    hide MangleOpt, MangleName, MangleType, MangleArgs;
  }

  /** The text of a function type behind its binder. */
  function FunctionText(t: TypeAst, bound: nat, full: bool): string
    requires t.FnType?
  {
    QualifierPart(t.isUnsafe, t.abi) + "fn(" + Join(RenderTypes(t.params, bound, full), ", ") + ")" + ResultText(IsUnit(t.result), if IsUnit(t.result) then "" else RenderType(t.result, bound, full))
  }

  /** The mangled text of a function type behind its binder. */
  function FunctionBody(t: TypeAst): string
    requires t.FnType?
  {
    (if t.isUnsafe then "U" else "") + (MangleAbi(t.abi) + ((MangleTypes(t.params) + "E") + MangleType(t.result)))
  }

  lemma FnParts(z: Place, t: TypeAst, full: bool)
    requires t.FnType? && FitsType(z, t)
    ensures z.depth < DEPTH_LIMIT && FitsNumber(t.binder) && (t.abi.OtherAbi? ==> t.abi.name != "")
    ensures var q := In(z, 1 + |MangleOpt('G', t.binder)| + HeadLength(t.isUnsafe, t.abi), 1).(bound := z.bound + t.binder);
      FitsTypes(q, t.params) && FitsType(In(q, |MangleTypes(t.params)| + 1, 0), t.result)
    ensures MangleType(t) == "F" + (MangleOpt('G', t.binder) + FunctionBody(t))
    ensures RenderType(t, z.bound, full) == RenderBinder(z.bound, t.binder) + FunctionText(t, z.bound + t.binder, full)
  {
    hide MangleOpt, MangleAbi, MangleTypes, RenderBinder, RenderAbi, RenderTypes, Join, FitsTypes;
    FnMangled(t);
    FnRendered(t, z.bound, full);
  }

  lemma FnMangled(t: TypeAst)
    requires t.FnType?
    ensures MangleType(t) == "F" + (MangleOpt('G', t.binder) + FunctionBody(t))
  {
    hide MangleOpt, MangleAbi, MangleTypes;
    var a, b, c, d, e := MangleOpt('G', t.binder), if t.isUnsafe then "U" else "", MangleAbi(t.abi), MangleTypes(t.params), MangleType(t.result);
    assert "F" + a + b + c + d + "E" + e == "F" + (a + (b + (c + ((d + "E") + e))));
  }

  lemma FnRendered(t: TypeAst, bound: nat, full: bool)
    requires t.FnType?
    ensures RenderType(t, bound, full) == RenderBinder(bound, t.binder) + FunctionText(t, bound + t.binder, full)
  {
    hide RenderBinder, RenderAbi, RenderTypes, Join, RenderType, ResultText;
    FnUnfolds(t, bound, full);
    var u := if IsUnit(t.result) then "" else RenderType(t.result, bound + t.binder, full);
    FnAssociates(RenderBinder(bound, t.binder), if t.isUnsafe then "unsafe " else "", RenderAbi(t.abi),
                 Join(RenderTypes(t.params, bound + t.binder, full), ", "), ResultText(IsUnit(t.result), u));
  }

  lemma FnAssociates(a: string, b: string, c: string, d: string, e: string)
    ensures a + b + c + "fn(" + d + ")" + e == a + (b + c + "fn(" + d + ")" + e)
  {
  }

  lemma FnUnfolds(t: TypeAst, bound: nat, full: bool)
    requires t.FnType?
    ensures var l := bound + t.binder; var u := if IsUnit(t.result) then "" else RenderType(t.result, l, full);
      RenderType(t, bound, full) == RenderBinder(bound, t.binder) + (if t.isUnsafe then "unsafe " else "") + RenderAbi(t.abi)
        + "fn(" + Join(RenderTypes(t.params, l, full), ", ") + ")" + ResultText(IsUnit(t.result), u)
  {
    hide RenderBinder, RenderAbi, RenderTypes, Join;
  }

  lemma DynParts(z: Place, t: TypeAst, full: bool)
    requires t.DynType? && FitsType(z, t)
    ensures z.depth < DEPTH_LIMIT && FitsNumber(t.binder) && FitsLife(z, t.outlives)
    ensures FitsBounds(In(z, 1 + |MangleOpt('G', t.binder)|, 1).(bound := z.bound + t.binder), t.bounds)
    ensures MangleType(t) == "D" + (MangleOpt('G', t.binder) + ((MangleBounds(t.bounds) + "E") + ("L" + Encode62(t.outlives))))
    ensures RenderType(t, z.bound, full)
         == "dyn " + RenderBinder(z.bound, t.binder) + Join(RenderBounds(t.bounds, z.bound + t.binder, full), " + ") + OutlivesText(t.outlives, z.bound)
  {
    hide MangleOpt, MangleBounds, RenderBinder, RenderBounds, Join, FitsBounds, Encode62, RenderLife;
    var a, b, c := MangleOpt('G', t.binder), MangleBounds(t.bounds), Encode62(t.outlives);
    assert "D" + a + b + "E" + "L" + c == "D" + (a + ((b + "E") + ("L" + c)));
  }

  // ------------------------------------------------------------------ traits

  /** The path of a trait, up to the last of its own parameters. */
  function TraitText(p: PathAst, bound: nat, full: bool): string {
    TraitName(p, bound, full) + if TraitParams(p, bound, full) == [] then "" else "<" + Join(TraitParams(p, bound, full), ", ")
  }

  lemma PlainTrait(z: Place, p: PathAst, full: bool)
    requires !p.GenericPath? && !p.PathRef?
    ensures TraitText(p, z.bound, full) == RenderPath(p, false, z.bound, full) && TraitParams(p, z.bound, full) == [] && (FitsTrait(z, p) ==> FitsPath(z, p))
  {
    hide RenderPath, FitsPath;
    assert RenderPath(p, false, z.bound, full) + "" == RenderPath(p, false, z.bound, full);
  }

  lemma OpenTrait(z: Place, p: PathAst, full: bool)
    requires p.GenericPath?
    ensures TraitText(p, z.bound, full) == RenderPath(p.base, false, z.bound, full) + "<" + Join(RenderArgs(p.args, z.bound, full), ", ") && TraitParams(p, z.bound, full) != []
  {
    hide RenderPath;
    var base := RenderPath(p.base, false, z.bound, full);
    if p.args == [] {
      assert Join([""], ", ") == "";
      assert base + ("<" + "") == base + "<" + "";
    } else {
      var w := Join(RenderArgs(p.args, z.bound, full), ", ");
      assert base + ("<" + w) == base + "<" + w;
    }
  }

  lemma RefTrait(z: Place, p: PathAst, full: bool)
    requires p.PathRef?
    ensures TraitText(p, z.bound, full) == TraitText(p.target, z.bound, full) && TraitParams(p, z.bound, full) == TraitParams(p.target, z.bound, full)
  {
    hide RenderPath, Join;
  }

  /** Associated types behind a list that is open or not. */
  function BindingsText(ws: seq<string>, open: bool): string {
    if ws == [] then "" else OpeningText(open) + ws[0] + BindingsText(ws[1..], true)
  }

  lemma {:induction false} OpenBindings(ws: seq<string>)
    requires ws != []
    ensures BindingsText(ws, false) == "<" + Join(ws, ", ") && BindingsText(ws, true) == ", " + Join(ws, ", ")
  {
    var w := ws[0];
    if |ws| > 1 {
      OpenBindings(ws[1..]);
      var rest := Join(ws[1..], ", ");
      assert "<" + w + (", " + rest) == "<" + (w + ", " + rest);
      assert ", " + w + (", " + rest) == ", " + (w + ", " + rest);
    } else {
      assert ws[1..] == [];
      assert "<" + w + "" == "<" + w && ", " + w + "" == ", " + w;
    }
  }

  lemma {:induction false} JoinMore(ps: seq<string>, ws: seq<string>)
    requires ps != [] && ws != []
    ensures Join(ps + ws, ", ") == Join(ps, ", ") + ", " + Join(ws, ", ")
  {
    assert (ps + ws)[1..] == ps[1..] + ws;
    if |ps| == 1 {
      assert ps[1..] + ws == ws;
    } else {
      JoinMore(ps[1..], ws);
      var a, b, c := ps[0], Join(ps[1..], ", "), Join(ws, ", ");
      assert a + ", " + (b + ", " + c) == a + ", " + b + ", " + c;
    }
  }

  /** A bound is its trait, its associated types and the bracket that closes both. */
  lemma BoundIs(b: BoundAst, bound: nat, full: bool)
    ensures var ps, ws := TraitParams(b.path, bound, full), RenderBindings(b.bindings, bound, full);
      RenderBound(b, bound, full) == TraitText(b.path, bound, full) + BindingsText(ws, ps != []) + (if ps != [] || b.bindings != [] then ">" else "")
  {
    hide TraitName, TraitParams, RenderBindings, Join, BindingsText;
    var name, ps, ws := TraitName(b.path, bound, full), TraitParams(b.path, bound, full), RenderBindings(b.bindings, bound, full);
    BindingsEmpty(b.bindings, bound, full);
    if ws == [] {
      NoBindings(ps != []);
      assert ps + ws == ps;
      var w := "<" + Join(ps, ", ");
      assert name + (w + ">") == name + w + "" + ">" && name + "" + "" + "" == name + "";
    } else {
      OpenBindings(ws);
      var w := Join(ws, ", ");
      if ps == [] {
        assert ps + ws == ws;
        assert name + ("<" + w + ">") == name + "" + ("<" + w) + ">";
      } else {
        JoinMore(ps, ws);
        var v := Join(ps, ", ");
        assert name + ("<" + (v + ", " + w) + ">") == name + ("<" + v) + (", " + w) + ">";
      }
    }
  }

  lemma BindingsEmpty(bs: seq<BindingAst>, bound: nat, full: bool)
    ensures RenderBindings(bs, bound, full) == [] <==> bs == []
  {
    hide RenderBinding;
  }

  lemma NoBindings(open: bool)
    ensures BindingsText([], open) == ""
  {
  }

  lemma BindingsParts(z: Place, bs: seq<BindingAst>, rest: string, open: bool, full: bool)
    requires bs != [] && FitsBindings(z, bs)
    ensures FitsName(bs[0].name) && FitsType(In(z, 1 + |MangleName(bs[0].name)|, 0), bs[0].ty)
    ensures FitsBindings(In(z, 1 + |MangleName(bs[0].name)| + |MangleType(bs[0].ty)|, 0), bs[1..])
    ensures MangleBindings(bs) + rest == "p" + (MangleName(bs[0].name) + (MangleType(bs[0].ty) + (MangleBindings(bs[1..]) + rest)))
    ensures |MangleBindings(bs)| == 1 + |MangleName(bs[0].name)| + |MangleType(bs[0].ty)| + |MangleBindings(bs[1..])|
    ensures BindingsText(RenderBindings(bs, z.bound, full), open)
         == (OpeningText(open) + RenderName(bs[0].name) + " = " + RenderType(bs[0].ty, z.bound, full)) + BindingsText(RenderBindings(bs[1..], z.bound, full), true)
  {
    hide MangleName, MangleType, RenderName, RenderType, FitsType, FitsName;
    var a, b, c := MangleName(bs[0].name), MangleType(bs[0].ty), MangleBindings(bs[1..]);
    assert "p" + a + b + c + rest == "p" + (a + (b + (c + rest)));
    var u, v, ws := RenderName(bs[0].name), RenderType(bs[0].ty, z.bound, full), RenderBindings(bs[1..], z.bound, full);
    var o, w := OpeningText(open), BindingsText(ws, true);
    assert ([u + " = " + v] + ws)[1..] == ws;
    assert o + (u + " = " + v) + w == (o + u + " = " + v) + w;
  }

  lemma BoundParts(z: Place, b: BoundAst)
    requires FitsBound(z, b)
    ensures FitsTrait(z, b.path) && FitsBindings(In(z, |ManglePath(b.path)|, 0), b.bindings) && MangleBound(b) == ManglePath(b.path) + MangleBindings(b.bindings)
  {
    hide FitsTrait, FitsBindings, ManglePath, MangleBindings;
  }

  // ------------------------------------------------------------------ constants

  lemma LeafParts(z: Place, c: ConstAst, v: bool, full: bool)
    requires FitsConst(z, c)
    ensures z.depth < DEPTH_LIMIT
    ensures c.AnyConst? ==> MangleConst(c) == "p" && RenderConst(c, v, z.bound, full) == "_"
    ensures c.IntConst? ==> AllHex(c.digits) && (IsSigned(c.kind) || (IsUnsigned(c.kind) && !c.negative))
    ensures c.IntConst? ==> MangleConst(c) == [TagOf(c.kind)] + ((if c.negative then "n" else "") + c.digits + "_")
    ensures c.IntConst? ==> RenderConst(c, v, z.bound, full) == SignText(c.negative) + NumberText(c.kind, c.digits, full)
  {
    hide TagOf, NameOf, RenderNumber, AllHex;
    if c.IntConst? {
      var tag, sign := [TagOf(c.kind)], if c.negative then "n" else "";
      assert tag + sign + c.digits + "_" == tag + (sign + c.digits + "_");
      var a, b, d := SignText(c.negative), RenderNumber(c.digits), if full then NameOf(c.kind) else "";
      assert a + b + d == a + (b + d);
    }
  }

  lemma LiteralParts(z: Place, c: ConstAst, v: bool, full: bool)
    requires FitsConst(z, c)
    ensures c.BoolConst? ==> AllHex(c.digits) && HexNumber(c.digits) <= 1 && MangleConst(c) == "b" + (c.digits + "_")
    ensures c.BoolConst? ==> RenderConst(c, v, z.bound, full) == if HexNumber(c.digits) == 0 then "false" else "true"
    ensures c.CharConst? ==> AllHex(c.digits) && Utf8.IsScalar(HexNumber(c.digits)) && MangleConst(c) == "c" + (c.digits + "_")
    ensures c.CharConst? ==> RenderConst(c, v, z.bound, full) == "'" + RenderChar(HexNumber(c.digits), '\'') + "'"
  {
    hide AllHex, HexNumber, RenderChar, Utf8.IsScalar;
    if c.BoolConst? { assert "b" + c.digits + "_" == "b" + (c.digits + "_"); }
    if c.CharConst? { assert "c" + c.digits + "_" == "c" + (c.digits + "_"); }
  }

  lemma TextConstParts(z: Place, c: ConstAst, v: bool, full: bool)
    requires FitsConst(z, c) && (c.TextConst? || c.TextRefConst?)
    ensures Utf8.AllScalar(c.codes)
    ensures var w := MangleBytes(Utf8.EncodeAll(c.codes)) + "_"; MangleConst(c) == if c.TextConst? then "e" + w else "R" + ("e" + w)
    ensures RenderConst(c, v, z.bound, full) == if c.TextConst? then Braced(v, "*" + Quoted(c.codes)) else Quoted(c.codes)
  {
    hide MangleBytes, Utf8.EncodeAll, Utf8.AllScalar, RenderText, Braced;
    var w, q := MangleBytes(Utf8.EncodeAll(c.codes)), RenderText(c.codes);
    assert "e" + w + "_" == "e" + (w + "_") && "Re" + w + "_" == "R" + ("e" + (w + "_"));
    assert "*\"" + q + "\"" == "*" + ("\"" + q + "\"");
  }

  lemma RefConstParts(z: Place, c: ConstAst, v: bool, full: bool)
    requires c.RefConst? && FitsConst(z, c)
    ensures (!c.isMut ==> !c.to.TextConst?) && FitsConst(In(z, 1, 1), c.to) && (c.to.IntConst? ==> IsSigned(c.to.kind) || IsUnsigned(c.to.kind))
    ensures MangleConst(c) == [if c.isMut then 'Q' else 'R'] + MangleConst(c.to)
    ensures RenderConst(c, v, z.bound, full) == Braced(v, RefText(c.isMut) + RenderConst(c.to, true, z.bound, full))
  {
    hide Braced;
    assert (if c.isMut then "Q" else "R") == [if c.isMut then 'Q' else 'R'];
  }

  lemma ListConstParts(z: Place, c: ConstAst, v: bool, full: bool)
    requires (c.ArrayConst? || c.TupleConst?) && FitsConst(z, c)
    ensures FitsConsts(In(z, 1, 1), c.parts) && MangleConst(c) == [if c.ArrayConst? then 'A' else 'T'] + (MangleConsts(c.parts) + "E")
    ensures var u := Join(RenderConsts(c.parts, z.bound, full), ", ");
      RenderConst(c, v, z.bound, full) == Braced(v, if c.ArrayConst? then "[" + u + "]" else "(" + u + CommaText(|c.parts|) + ")")
  {
    hide Braced, Join, RenderConsts, MangleConsts, FitsConsts;
    var w := MangleConsts(c.parts);
    assert "A" + w + "E" == "A" + (w + "E") && "T" + w + "E" == "T" + (w + "E");
    assert "A" == ['A'] && "T" == ['T'];
  }

  /** The tag of the fields of a variant, and what stands behind it. */
  function VariantTag(c: ConstAst): char { if c.UnitVariant? then 'U' else if c.TupleVariant? then 'T' else 'S' }

  function VariantBody(c: ConstAst): string
    requires c.UnitVariant? || c.TupleVariant? || c.StructVariant?
  {
    if c.UnitVariant? then "" else if c.TupleVariant? then MangleConsts(c.parts) + "E" else MangleFields(c.fields) + "E"
  }

  function VariantText(c: ConstAst, bound: nat, full: bool): string
    requires c.UnitVariant? || c.TupleVariant? || c.StructVariant?
  {
    if c.UnitVariant? then ""
    else if c.TupleVariant? then "(" + Join(RenderConsts(c.parts, bound, full), ", ") + ")"
    else " { " + Join(RenderFields(c.fields, bound, full), ", ") + " }"
  }

  lemma VariantParts(z: Place, c: ConstAst, v: bool, full: bool)
    requires (c.UnitVariant? || c.TupleVariant? || c.StructVariant?) && FitsConst(z, c)
    ensures FitsPath(In(z, 1, 1), c.path)
    ensures c.TupleVariant? ==> FitsConsts(In(z, 2 + |ManglePath(c.path)|, 1), c.parts)
    ensures c.StructVariant? ==> FitsFields(In(z, 2 + |ManglePath(c.path)|, 1), c.fields)
    ensures MangleConst(c) == "V" + (ManglePath(c.path) + ([VariantTag(c)] + VariantBody(c)))
    ensures RenderConst(c, v, z.bound, full) == Braced(v, RenderPath(c.path, true, z.bound, full) + VariantText(c, z.bound, full))
  {
    hide Braced, Join, RenderConsts, RenderFields, MangleConsts, MangleFields, FitsConsts, FitsFields, ManglePath, RenderPath;
    VariantMangled(c);
    VariantRendered(c, v, z.bound, full);
  }

  lemma VariantMangled(c: ConstAst)
    requires c.UnitVariant? || c.TupleVariant? || c.StructVariant?
    ensures MangleConst(c) == "V" + (ManglePath(c.path) + ([VariantTag(c)] + VariantBody(c)))
  {
    hide MangleConsts, MangleFields, ManglePath;
    var p := ManglePath(c.path);
    if c.UnitVariant? {
      assert "V" + p + "U" == "V" + (p + (['U'] + ""));
    } else if c.TupleVariant? {
      assert "V" + p + "T" + MangleConsts(c.parts) + "E" == "V" + (p + (['T'] + (MangleConsts(c.parts) + "E")));
    } else {
      assert "V" + p + "S" + MangleFields(c.fields) + "E" == "V" + (p + (['S'] + (MangleFields(c.fields) + "E")));
    }
  }

  lemma VariantRendered(c: ConstAst, v: bool, bound: nat, full: bool)
    requires c.UnitVariant? || c.TupleVariant? || c.StructVariant?
    ensures RenderConst(c, v, bound, full) == Braced(v, RenderPath(c.path, true, bound, full) + VariantText(c, bound, full))
  {
    hide Braced, Join, RenderConsts, RenderFields, RenderPath;
    var p := RenderPath(c.path, true, bound, full);
    if c.UnitVariant? {
      assert p + "" == p;
    } else if c.TupleVariant? {
      var w := Join(RenderConsts(c.parts, bound, full), ", ");
      assert p + "(" + w + ")" == p + ("(" + w + ")");
    } else {
      var w := Join(RenderFields(c.fields, bound, full), ", ");
      assert p + " { " + w + " }" == p + (" { " + w + " }");
    }
  }

  lemma ConstRefParts(z: Place, c: ConstAst, v: bool, full: bool)
    requires c.ConstRef? && FitsConst(z, c)
    ensures z.depth + 1 < DEPTH_LIMIT && FitsNumber(c.at) && c.at < z.pos
    ensures z.loud ==> Stands(z.sym, c.at, MangleConst(c.target)) && FitsConst(In(z, 0, 2).(pos := c.at), c.target)
    ensures MangleConst(c) == "B" + Encode62(c.at) && RenderConst(c, v, z.bound, full) == RenderConst(c.target, v, z.bound, full)
  {
    hide Encode62, Stands;
  }

  lemma FieldParts(z: Place, f: FieldAst, full: bool)
    requires FitsField(z, f)
    ensures FitsNumber(f.dis) && FitsName(f.name) && FitsConst(In(z, |MangleOpt('s', f.dis)| + |MangleName(f.name)|, 0), f.value)
    ensures f.value.IntConst? ==> IsSigned(f.value.kind) || IsUnsigned(f.value.kind)
    ensures MangleField(f) == (MangleOpt('s', f.dis) + MangleName(f.name)) + MangleConst(f.value)
    ensures RenderField(f, z.bound, full) == RenderName(f.name) + ": " + RenderConst(f.value, true, z.bound, full)
  {
    hide MangleOpt, MangleName, MangleConst, RenderName, RenderConst;
  }
}

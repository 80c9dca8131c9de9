/** When a syntax tree can stand at a place of a symbol. */
module RustPlaces {
  import opened Bytes
  import opened RustLexer
  import opened RustSyntax
  import Utf8

  const DEPTH_LIMIT: nat := 500

  /** A position in a symbol, how deeply nested it is, how many lifetimes are bound there, and whether it is printed. */
  datatype Place = Place(sym: string, pos: nat, depth: nat, bound: nat, loud: bool)

  /** `w` stands at `p`, and what follows cannot be read as part of a name at its end. */
  predicate Stands(sym: string, p: nat, w: string) { TextAt(sym, p, w) && !Eats(sym, p + |w|, '_') }

  /** Further on and deeper. */
  function In(z: Place, n: nat, levels: nat): Place { z.(pos := z.pos + n, depth := z.depth + levels) }

  predicate FitsNumber(n: nat) { n <= U64_MAX }

  predicate FitsName(n: Name) { '_' !in n.puny }

  predicate IsLetter(c: char) { 'A' <= c <= 'Z' || 'a' <= c <= 'z' }

  /** A lifetime that is printed has been bound. */
  predicate FitsLife(z: Place, index: nat) { FitsNumber(index) && (z.loud ==> index <= z.bound) }

  /** A back-reference goes back, and what is printed for it stands there. */
  predicate Refers(z: Place, at: nat, text: string) { FitsNumber(at) && at < z.pos && (z.loud ==> Stands(z.sym, at, text)) }

  predicate FitsPath(z: Place, p: PathAst)
    decreases p, 0
  {
    && z.depth < DEPTH_LIMIT
    && match p
       case CratePath(dis, name) => FitsNumber(dis) && FitsName(name)
       case NestedPath(space, parent, dis, name) => IsLetter(space) && FitsPath(In(z, 2, 1), parent) && FitsNumber(dis) && FitsName(name)
       case InherentPath(dis, home, self) => FitsHome(z, dis, home) && FitsType(In(z, HomeEnd(dis, home), 1), self)
       case ImplPath(dis, home, self, role) =>
         && FitsHome(z, dis, home) && FitsType(In(z, HomeEnd(dis, home), 1), self)
         && FitsPath(In(z, HomeEnd(dis, home) + |MangleType(self)|, 1), role)
       case TraitPath(self, role) => FitsType(In(z, 1, 1), self) && FitsPath(In(z, 1 + |MangleType(self)|, 1), role)
       case GenericPath(base, args) => FitsPath(In(z, 1, 1), base) && FitsArgs(In(z, 1 + |ManglePath(base)|, 1), args)
       case PathRef(at, target) => z.depth + 1 < DEPTH_LIMIT && Refers(z, at, ManglePath(target)) && (z.loud ==> FitsPath(In(z, 0, 2).(pos := at), target))
  }

  /** The path of an impl is read, and not printed. */
  predicate FitsHome(z: Place, dis: nat, home: PathAst)
    decreases home, 1
  {
    FitsNumber(dis) && FitsPath(In(z, 1 + |MangleOpt('s', dis)|, 1).(loud := false), home)
  }

  function HomeEnd(dis: nat, home: PathAst): nat { 1 + |MangleOpt('s', dis)| + |ManglePath(home)| }

  predicate FitsArgs(z: Place, args: seq<ArgAst>)
    decreases args, 0
  {
    args != [] ==> FitsArg(z, args[0]) && FitsArgs(In(z, |MangleArg(args[0])|, 0), args[1..])
  }

  predicate FitsArg(z: Place, a: ArgAst)
    decreases a, 0
  {
    match a
    case LifeArg(index) => FitsLife(z, index)
    case TypeArg(ty) => FitsType(z, ty)
    case ConstArg(value) => FitsConst(In(z, 1, 0), value)
  }

  /** Where the parameters of a function type start. */
  function ParamsStart(binder: nat, isUnsafe: bool, abi: AbiAst): nat {
    1 + |MangleOpt('G', binder)| + (if isUnsafe then 1 else 0) + |MangleAbi(abi)|
  }

  predicate FitsType(z: Place, t: TypeAst)
    decreases t, 0
  {
    t.BasicType? ||
    (&& z.depth < DEPTH_LIMIT
     && match t
        case BasicType(_) => true
        case ReferenceType(life, _, to) => (life.Some? ==> FitsLife(z, life.value)) && FitsType(In(z, 1 + |MangleLife(life)|, 1), to)
        case PointerType(_, to) => FitsType(In(z, 1, 1), to)
        case ArrayType(of, length) => FitsType(In(z, 1, 1), of) && FitsConst(In(z, 1 + |MangleType(of)|, 1), length)
        case SliceType(of) => FitsType(In(z, 1, 1), of)
        case TupleType(parts) => FitsTypes(In(z, 1, 1), parts)
        case FnType(binder, isUnsafe, abi, params, result) =>
          var q := In(z, ParamsStart(binder, isUnsafe, abi), 1).(bound := z.bound + binder);
          FitsNumber(binder) && (abi.OtherAbi? ==> abi.name != "") && FitsTypes(q, params) && FitsType(In(q, |MangleTypes(params)| + 1, 0), result)
        case DynType(binder, bounds, outlives) =>
          FitsNumber(binder) && FitsBounds(In(z, 1 + |MangleOpt('G', binder)|, 1).(bound := z.bound + binder), bounds) && FitsLife(z, outlives)
        case TypeRef(at, target) => z.depth + 1 < DEPTH_LIMIT && Refers(z, at, MangleType(target)) && (z.loud ==> FitsType(In(z, 0, 2).(pos := at), target))
        case NamedType(path) => !path.PathRef? && FitsPath(In(z, 0, 1), path))
  }

  predicate FitsTypes(z: Place, ts: seq<TypeAst>)
    decreases ts, 0
  {
    ts != [] ==> FitsType(z, ts[0]) && FitsTypes(In(z, |MangleType(ts[0])|, 0), ts[1..])
  }

  predicate FitsBounds(z: Place, bs: seq<BoundAst>)
    decreases bs, 0
  {
    bs != [] ==> FitsBound(z, bs[0]) && FitsBounds(In(z, |MangleBound(bs[0])|, 0), bs[1..])
  }

  predicate FitsBound(z: Place, b: BoundAst)
    decreases b, 0
  {
    FitsTrait(z, b.path) && FitsBindings(In(z, |ManglePath(b.path)|, 0), b.bindings)
  }

  /** The path of a trait, whose brackets may stay open. */
  predicate FitsTrait(z: Place, p: PathAst)
    decreases p, 1
  {
    match p
    case GenericPath(base, args) => FitsPath(In(z, 1, 0), base) && FitsArgs(In(z, 1 + |ManglePath(base)|, 0), args)
    case PathRef(at, target) => z.depth < DEPTH_LIMIT && Refers(z, at, ManglePath(target)) && (z.loud ==> FitsTrait(In(z, 0, 1).(pos := at), target))
    case _ => FitsPath(z, p)
  }

  predicate FitsBindings(z: Place, bs: seq<BindingAst>)
    decreases bs, 0
  {
    bs != [] ==> FitsBinding(z, bs[0]) && FitsBindings(In(z, |MangleBinding(bs[0])|, 0), bs[1..])
  }

  predicate FitsBinding(z: Place, b: BindingAst)
    decreases b, 0
  {
    FitsName(b.name) && FitsType(In(z, 1 + |MangleName(b.name)|, 0), b.ty)
  }

  predicate AllHex(digits: string) { forall i | 0 <= i < |digits| :: IsHex(digits[i]) }

  predicate IsSigned(p: Primitive) { p.I8Type? || p.I16Type? || p.I32Type? || p.I64Type? || p.I128Type? || p.IsizeType? }

  predicate IsUnsigned(p: Primitive) { p.U8Type? || p.U16Type? || p.U32Type? || p.U64Type? || p.U128Type? || p.UsizeType? }

  predicate FitsConst(z: Place, c: ConstAst)
    decreases c, 0
  {
    && z.depth < DEPTH_LIMIT
    && match c
       case AnyConst => true
       case IntConst(kind, negative, digits) => AllHex(digits) && (IsSigned(kind) || (IsUnsigned(kind) && !negative))
       case BoolConst(digits) => AllHex(digits) && HexNumber(digits) <= 1
       case CharConst(digits) => AllHex(digits) && Utf8.IsScalar(HexNumber(digits))
       case TextConst(codes) => Utf8.AllScalar(codes)
       case TextRefConst(codes) => Utf8.AllScalar(codes)
       case RefConst(isMut, to) => (to.TextConst? ==> isMut) && FitsConst(In(z, 1, 1), to)
       case ArrayConst(parts) => FitsConsts(In(z, 1, 1), parts)
       case TupleConst(parts) => FitsConsts(In(z, 1, 1), parts)
       case UnitVariant(path) => FitsPath(In(z, 1, 1), path)
       case TupleVariant(path, parts) => FitsPath(In(z, 1, 1), path) && FitsConsts(In(z, 2 + |ManglePath(path)|, 1), parts)
       case StructVariant(path, fields) => FitsPath(In(z, 1, 1), path) && FitsFields(In(z, 2 + |ManglePath(path)|, 1), fields)
       case ConstRef(at, target) => z.depth + 1 < DEPTH_LIMIT && Refers(z, at, MangleConst(target)) && (z.loud ==> FitsConst(In(z, 0, 2).(pos := at), target))
  }

  predicate FitsConsts(z: Place, cs: seq<ConstAst>)
    decreases cs, 0
  {
    cs != [] ==> FitsConst(z, cs[0]) && FitsConsts(In(z, |MangleConst(cs[0])|, 0), cs[1..])
  }

  predicate FitsFields(z: Place, fs: seq<FieldAst>)
    decreases fs, 0
  {
    fs != [] ==> FitsField(z, fs[0]) && FitsFields(In(z, |MangleField(fs[0])|, 0), fs[1..])
  }

  predicate FitsField(z: Place, f: FieldAst)
    decreases f, 0
  {
    FitsNumber(f.dis) && FitsName(f.name) && FitsConst(In(z, |MangleOpt('s', f.dis)| + |MangleName(f.name)|, 0), f.value)
  }

  // ------------------------------------------------------------------ how mangled text starts

  predicate OwnPathStart(c: char) { c == 'C' || c == 'N' || c == 'M' || c == 'X' || c == 'Y' || c == 'I' }

  predicate PathStart(c: char) { OwnPathStart(c) || c == 'B' }

  predicate OwnTypeStart(c: char) {
    c == 'R' || c == 'Q' || c == 'P' || c == 'O' || c == 'A' || c == 'S' || c == 'T' || c == 'F' || c == 'D' || c == 'B'
  }

  predicate TypeStart(c: char) { PathStart(c) || OwnTypeStart(c) || 'a' <= c <= 'z' }

  predicate ConstStart(c: char) { 'a' <= c <= 'z' || c == 'R' || c == 'Q' || c == 'A' || c == 'T' || c == 'V' || c == 'B' }

  lemma PathStarts(p: PathAst)
    ensures ManglePath(p) != "" && PathStart(ManglePath(p)[0])
  {
    hide MangleOpt, MangleName, MangleType, MangleArgs, Encode62;
  }

  lemma TypeStarts(t: TypeAst)
    ensures MangleType(t) != "" && TypeStart(MangleType(t)[0])
    ensures (MangleType(t)[0] == 'u') <==> t == BasicType(UnitType)
  {
    hide MangleOpt, MangleLife, MangleAbi, MangleConst, MangleTypes, MangleBounds, ManglePath, Encode62;
    if t.NamedType? { PathStarts(t.path); }
  }

  lemma ConstStarts(c: ConstAst)
    requires c.IntConst? ==> IsSigned(c.kind) || IsUnsigned(c.kind)
    ensures MangleConst(c) != "" && ConstStart(MangleConst(c)[0]) && (MangleConst(c)[0] == 'e' <==> c.TextConst?)
  {
    hide MangleBytes, ManglePath, MangleConsts, MangleFields, Encode62;
  }

  lemma NameStarts(n: Name)
    ensures MangleName(n) != "" && (MangleName(n)[0] == 'u' || '0' <= MangleName(n)[0] <= '9')
  {
    Text10Starts(|IdentBytes(n.ascii, n.puny)|);
    hide Text10;
  }

  lemma {:induction false} Text10Starts(n: nat)
    ensures Text10(n) != "" && '0' <= Text10(n)[0] <= '9'
  {
    if n >= 10 { Text10Starts(n / 10); }
  }
}

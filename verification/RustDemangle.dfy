/** Demangling a whole v0 symbol: it is accepted by a silent pass, and printed by a second one. */
module RustDemangle {
  import opened Bytes
  import opened RustLexer
  import opened RustSyntax
  import opened RustPlaces
  import opened RustPrinter
  import opened RustInterpreter
  import opened RustPasses
  import opened RustRoom
  import opened RustText
  import opened RustSteps
  import opened RustParts
  import opened RustPhrases
  import opened RustRoundTrip

  const OVERFLOW_MARGIN: nat := 4

  /** An accepted symbol without its prefix, and where its path ends. */
  datatype Accepted = Accepted(inner: string, end: nat) | Rejected(status: Status)

  /** The symbol behind `_R`, `R` or `__R`. */
  function Stripped(s: string): Option<string> {
    if "_R" <= s then Some(s[2..]) else if "R" <= s then Some(s[1..]) else if "__R" <= s then Some(s[3..]) else None
  }

  predicate IsUpper(c: char) { 'A' <= c <= 'Z' }

  predicate IsAscii(s: string) { forall i | 0 <= i < |s| :: s[i] as int < 0x80 }

  /** `rust_demangle_v0_demangle`. */
  function Accept(s: string): Accepted {
    var inner := Stripped(s);
    if inner.None? || inner.value == "" || !IsUpper(inner.value[0]) || !IsAscii(inner.value) then Rejected(Invalid)
    else
      var x := Symbol(inner.value, true);
      var p := ParsedPath(x);
      if p.status != Good then Rejected(p.status)
      else if p.next < |x.sym| && IsUpper(x.sym[p.next]) then
        // the crate that instantiates it
        var q := Enter(x, Path(false), Start(Silent).(next := p.next, depth := p.depth));
        if q.status != Good then Rejected(q.status) else Accepted(x.sym, q.next)
      else Accepted(x.sym, p.next)
  }

  /** `rust_demangle_v0_display_demangle`: `None` if the buffer is too small. */
  function Display(inner: string, full: bool, room: nat): Option<string> {
    var p := PrintedPath(Symbol(inner, full), room);
    if p.overflow || p.sink.Silent? || p.sink.room < OVERFLOW_MARGIN then None else Some(p.sink.text)
  }

  /** The place of a path that is a whole symbol. */
  function Whole(sym: string, loud: bool): Place { Place(sym, 0, 0, 0, loud) }

  /** The printing pass over a mangled path ends well at its end, with the Rust text. */
  lemma PrintsMangled(sym: string, p: PathAst, full: bool, room: nat)
    requires Stands(sym, 0, ManglePath(p)) && FitsPath(Whole(sym, true), p) && room >= |RenderPath(p, true, 0, full)| + 3
    ensures var text := RenderPath(p, true, 0, full);
      PrintedPath(Symbol(sym, full), room) == State(|ManglePath(p)|, 0, Good, Sink(text, room - |text|), 0, false)
  {
    hide ManglePath, RenderPath, FitsPath, Stands, Enter, IsSymbol, Symbol;
    var x, st := Symbol(sym, full), Start(Sink("", room));
    SymbolIs(sym, full);
    PathPrints(x, full, p, true, st, Whole(sym, true));
    assert "" + RenderPath(p, true, 0, full) == RenderPath(p, true, 0, full);
  }

  lemma ParsesMangled(sym: string, p: PathAst, full: bool)
    requires Stands(sym, 0, ManglePath(p)) && FitsPath(Whole(sym, true), p)
    ensures ParsedPath(Symbol(sym, full)) == State(|ManglePath(p)|, 0, Good, Silent, 0, false)
  {
    hide ManglePath, RenderPath, FitsPath, Stands, Enter, IsSymbol, Symbol;
    var room := |RenderPath(p, true, 0, full)| + 3;
    PrintsMangled(sym, p, full, room);
    PassesAgree(Symbol(sym, full), room);
    OutputFits(Symbol(sym, full), room);
  }

  /** What stands behind the path: nothing, text that starts no path, or the path of the crate that instantiates it. */
  predicate Ends(sym: string, end: nat, crate: Option<PathAst>) {
    if crate.Some? then TextAt(sym, end, ManglePath(crate.value)) && Stands(sym, end, ManglePath(crate.value)) && FitsPath(Whole(sym, false).(pos := end), crate.value)
    else end == |sym| || (end < |sym| && !IsUpper(sym[end]))
  }

  lemma CrateEnds(sym: string, full: bool, crate: PathAst, end: nat)
    requires Stands(sym, end, ManglePath(crate)) && FitsPath(Whole(sym, false).(pos := end), crate)
    ensures end < |sym| && IsUpper(sym[end])
    ensures var st := Start(Silent).(next := end); Wf(Symbol(sym, full), st) && Enter(Symbol(sym, full), Path(false), st) == st.(next := end + |ManglePath(crate)|)
  {
    hide ManglePath, RenderPath, FitsPath, Stands, Enter, IsSymbol, Symbol;
    var x, st := Symbol(sym, full), Start(Silent).(next := end);
    SymbolIs(sym, full);
    PathStarts(crate);
    StandsText(sym, end, ManglePath(crate));
    FirstIs(sym, end, ManglePath(crate));
    PathPrints(x, full, crate, false, st, Whole(sym, false).(pos := end));
  }

  lemma StripsPrefix(inner: string)
    ensures Stripped("_R" + inner) == Some(inner) && Stripped("R" + inner) == Some(inner) && Stripped("__R" + inner) == Some(inner)
  {
    assert ("_R" + inner)[2..] == inner && ("R" + inner)[1..] == inner && ("__R" + inner)[3..] == inner;
    assert "_R" <= "_R" + inner && "R" <= "R" + inner && "__R" <= "__R" + inner;
    assert ("R" + inner)[0] == 'R' && ("__R" + inner)[1] == '_';
  }

  lemma AcceptsInner(s: string, sym: string, p: PathAst, crate: Option<PathAst>)
    requires Stripped(s) == Some(sym) && IsAscii(sym)
    requires Stands(sym, 0, ManglePath(p)) && FitsPath(Whole(sym, true), p) && Ends(sym, |ManglePath(p)|, crate)
    ensures Accept(s) == Accepted(sym, |ManglePath(p)| + (if crate.Some? then |ManglePath(crate.value)| else 0))
  {
    hide ManglePath, RenderPath, FitsPath, Stands, Enter, Symbol, IsAscii, Stripped, ParsedPath, TextAt;
    SymbolIs(sym, true);
    ParsesMangled(sym, p, true);
    PathStarts(p);
    StandsText(sym, 0, ManglePath(p));
    FirstIs(sym, 0, ManglePath(p));
    if crate.Some? { CrateEnds(sym, true, crate.value, |ManglePath(p)|); }
  }

  /**
   A symbol that mangles a path is accepted up to its end, and displayed as the Rust text of the path exactly in the buffers with
   four bytes more than the text: for all paths, with all types, constants and back-references in them.
   */
  lemma DemanglesMangled(sym: string, p: PathAst, crate: Option<PathAst>, full: bool, room: nat)
    requires IsAscii(sym) && Stands(sym, 0, ManglePath(p)) && FitsPath(Whole(sym, true), p) && Ends(sym, |ManglePath(p)|, crate)
    ensures Accept("_R" + sym) == Accept("R" + sym) == Accept("__R" + sym) == Accepted(sym, |ManglePath(p)| + (if crate.Some? then |ManglePath(crate.value)| else 0))
    ensures var text := RenderPath(p, true, 0, full); Display(sym, full, room) == if room >= |text| + OVERFLOW_MARGIN then Some(text) else None
  {
    hide ManglePath, RenderPath, FitsPath, Stands, Accept, IsAscii, Stripped, PrintedPath, Ends;
    StripsPrefix(sym);
    AcceptsInner("_R" + sym, sym, p, crate);
    AcceptsInner("R" + sym, sym, p, crate);
    AcceptsInner("__R" + sym, sym, p, crate);
    if room >= |RenderPath(p, true, 0, full)| + OVERFLOW_MARGIN { PrintsMangled(sym, p, full, room); } else { TooSmall(sym, p, full, room); }
  }

  /** A buffer that is too small is refused. */
  lemma TooSmall(sym: string, p: PathAst, full: bool, room: nat)
    requires Stands(sym, 0, ManglePath(p)) && FitsPath(Whole(sym, true), p) && room < |RenderPath(p, true, 0, full)| + OVERFLOW_MARGIN
    ensures Display(sym, full, room) == None
  {
    hide ManglePath, RenderPath, FitsPath, Stands, Enter, Symbol;
    var x, d := Symbol(sym, full), |RenderPath(p, true, 0, full)| + OVERFLOW_MARGIN;
    PrintsMangled(sym, p, full, room + d);
    if !PrintedPath(x, room).overflow { EnterWider(x, Path(true), Start(Sink("", room)), d); }
  }

  // ------------------------------------------------------------------ an example

  /** `a::f::<&u8>` */
  function Example(): PathAst {
    GenericPath(NestedPath('v', CratePath(0, Name("a", "")), 0, Name("f", "")), [TypeArg(ReferenceType(None, false, BasicType(U8Type)))])
  }

  lemma ExampleType(t: TypeAst)
    requires t == ReferenceType(None, false, BasicType(U8Type))
    ensures MangleType(t) == "Rh" && RenderType(t, 0, true) == "&u8"
  {
  }

  lemma ExampleArgs(t: TypeAst)
    requires MangleType(t) == "Rh" && RenderType(t, 0, true) == "&u8"
    ensures MangleArgs([TypeArg(t)]) == "Rh" && RenderArgs([TypeArg(t)], 0, true) == ["&u8"]
  {
    hide MangleType, RenderType;
    assert [TypeArg(t)][1..] == [];
    assert ["&u8"] + [] == ["&u8"];
  }

  lemma ExampleBase(base: PathAst)
    requires base == NestedPath('v', CratePath(0, Name("a", "")), 0, Name("f", ""))
    ensures ManglePath(base) == "NvC1a1f" && RenderPath(base, true, 0, true) == "a::f"
  {
    assert MangleName(Name("a", "")) == "1a" && MangleName(Name("f", "")) == "1f" && MangleOpt('s', 0) == "";
    assert ManglePath(base.parent) == "C1a" && RenderPath(base.parent, true, 0, true) == "a";
  }

  lemma ExampleTexts()
    ensures ManglePath(Example()) == "INvC1a1fRhE" && RenderPath(Example(), true, 0, true) == "a::f::<&u8>"
  {
    hide MangleType, RenderType, MangleArgs, RenderArgs, MangleName, MangleOpt;
    var p := Example();
    ExampleBase(p.base);
    ExampleType(p.args[0].ty);
    ExampleArgs(p.args[0].ty);
    assert p.args == [TypeArg(p.args[0].ty)];
  }

  lemma ExampleDemangles()
    ensures Accept("_RINvC1a1fRhE") == Accepted("INvC1a1fRhE", 11) && Display("INvC1a1fRhE", true, 15) == Some("a::f::<&u8>")
  {
    var sym := "INvC1a1fRhE";
    ExampleTexts();
    ExampleFits();
    hide ManglePath, RenderPath, FitsPath, Accept, Display, Example;
    assert sym[0..11] == sym;
    assert "_R" + sym == "_RINvC1a1fRhE";
    DemanglesMangled(sym, Example(), None, true, 15);
  }

  lemma ExampleFits()
    ensures FitsPath(Whole("INvC1a1fRhE", true), Example())
  {
  }
}

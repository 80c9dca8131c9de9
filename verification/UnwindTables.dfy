/** The table of an image: the entries of `.eh_frame` in the order of its index, and the search for an address. */
module UnwindTables {
  import opened Bytes
  import opened CallFrameStandard
  import opened FrameTable
  import opened CallFrames
  import opened CallFrameAgreement
  import opened SectionOrder

  /** A frame description entry: the range it covers, its common information and its program. */
  datatype Fde = Fde(start: u32, length: u32, cie: Cie, program: seq<Cfi>)

  function Program(f: Fde, factors: Factors): seq<Instr> { AllScaled(f.program, factors) }

  /** What the parser relies on, in an entry of its own alignment factors: the usual initial rules, and a handled program within the range. */
  ghost predicate WellFormed(f: Fde, defaults: u32 -> RegRule) {
    && f.start + f.length < END && Span(Program(f, f.cie.factors)) <= f.length
    && InitialState(f.cie, defaults).Some?
    && var init := InitialState(f.cie, defaults).value;
       Usual(init) && Handled(Program(f, f.cie.factors), f.start, init, [], init, false)
  }

  /** The entries come in the order of the section's index, do not overlap, and share their alignment factors. */
  ghost predicate InOrder(fdes: seq<Fde>, factors: Factors, defaults: u32 -> RegRule) {
    && (forall i | 0 <= i < |fdes| :: WellFormed(fdes[i], defaults) && fdes[i].cie.factors == factors)
    && (forall i, j | 0 <= i < j < |fdes| :: fdes[i].start + fdes[i].length <= fdes[j].start)
  }

  function BodyRows(f: Fde, factors: Factors): seq<Row> { Emitted(Program(f, factors), f.start, InitialRegs(), InitialRegs()) }

  function EntryRows(f: Fde, factors: Factors): seq<Row> { BodyRows(f, factors) + [Row(U32(f.start + f.length), LinkedFrame())] }

  function AllRows(fdes: seq<Fde>, factors: Factors): seq<Row> {
    if fdes == [] then [] else AllRows(fdes[..|fdes| - 1], factors) + EntryRows(fdes[|fdes| - 1], factors)
  }

  /** The standard's rules for `pc` in its entry. */
  function RulesIn(f: Fde, pc: u32, defaults: u32 -> RegRule): Option<State> {
    match InitialState(f.cie, defaults)
    case None => None
    case Some(init) => RuleAt(Program(f, f.cie.factors), f.start, init, [], init, pc)
  }

  /** A right answer: in an entry's range what the standard's rules say, behind it the linked frame, and none before the first. */
  ghost predicate Right(answer: Option<Rule>, fdes: seq<Fde>, pc: u32, defaults: u32 -> RegRule) {
    if fdes == [] then answer == None
    else
      var f := fdes[|fdes| - 1];
      if f.start > pc then Right(answer, fdes[..|fdes| - 1], pc, defaults)
      else if pc < f.start + f.length then
        answer.Some? && RulesIn(f, pc, defaults).Some? && Agrees(answer.value, RulesIn(f, pc, defaults).value)
      else answer == Some(LinkedFrame())
  }

  /** Factors of another entry do for every instruction exactly if they are the same. */
  lemma FactorsExact(a: Factors, b: Factors)
    ensures (forall c: Cfi :: Scaled(c, a) == Scaled(c, b)) <==> a == b
  {
    if forall c: Cfi :: Scaled(c, a) == Scaled(c, b) {
      assert Scaled(AdvanceBy(1), a) == Scaled(AdvanceBy(1), b);
      assert Scaled(OffsetBy(REG_PC, 1), a) == Scaled(OffsetBy(REG_PC, 1), b);
    }
  }

  lemma WithinSnoc(rows: seq<Row>, row: Row, low: nat, high: nat)
    requires Within(rows, low, high) && low <= high <= row.loc
    ensures Within(rows + [row], low, row.loc)
  {
  }

  lemma LookupBelow(rows: seq<Row>, low: nat, high: nat, pc: u32)
    requires Within(rows, low, high) && pc < low
    ensures Lookup(rows, pc) == None
  {
    hide Lookup;
    LookupAbove(rows, pc);
  }

  lemma EntryParts(f: Fde, defaults: u32 -> RegRule)
    requires WellFormed(f, defaults)
    ensures f.start + f.length < 0x1_0000_0000 && Span(Program(f, f.cie.factors)) <= f.length
    ensures EntryRows(f, f.cie.factors) == BodyRows(f, f.cie.factors) + [Row(f.start + f.length, LinkedFrame())]
  {
    hide BodyRows, LinkedFrame, Handled, Span, Program, InitialState;
  }

  lemma BodyWithin(f: Fde, defaults: u32 -> RegRule)
    requires WellFormed(f, defaults)
    ensures f.start + f.length < 0x1_0000_0000 && Within(BodyRows(f, f.cie.factors), f.start, f.start + f.length)
  {
    hide WellFormed, Program, Emitted, Span;
    var p := Program(f, f.cie.factors);
    EntryParts(f, defaults);
    EmittedWithin(p, f.start, InitialRegs(), InitialRegs());
  }

  /** Inside its range an entry's rows say what the standard's rules say. */
  lemma BodyGivesRule(f: Fde, defaults: u32 -> RegRule, pc: u32)
    requires WellFormed(f, defaults) && f.start <= pc
    ensures Answers(BodyRows(f, f.cie.factors), pc, RulesIn(f, pc, defaults))
  {
    var p, init := Program(f, f.cie.factors), InitialState(f.cie, defaults).value;
    EntryParts(f, defaults);
    UsualStands(init);
    hide Program, Emitted, RuleAt, Handled, Stands, Usual, Answers, InitialState;
    RowsGiveRule(p, f.start, InitialRegs(), InitialRegs(), init, [], init, false, pc);
  }

  lemma EntryWithin(f: Fde, defaults: u32 -> RegRule)
    requires WellFormed(f, defaults)
    ensures f.start + f.length < 0x1_0000_0000 && Within(EntryRows(f, f.cie.factors), f.start, f.start + f.length)
  {
    hide *;
    EntryParts(f, defaults);
    BodyWithin(f, defaults);
    WithinSnoc(BodyRows(f, f.cie.factors), Row(f.start + f.length, LinkedFrame()), f.start, f.start + f.length);
  }

  lemma EntryGivesRule(f: Fde, defaults: u32 -> RegRule, pc: u32)
    requires WellFormed(f, defaults)
    ensures f.start > pc ==> Lookup(EntryRows(f, f.cie.factors), pc) == None
    ensures f.start <= pc < f.start + f.length ==> Answers(EntryRows(f, f.cie.factors), pc, RulesIn(f, pc, defaults))
    ensures f.start + f.length <= pc ==> Lookup(EntryRows(f, f.cie.factors), pc) == Some(LinkedFrame())
  {
    hide WellFormed, EntryRows, BodyRows, Lookup, Agrees, RulesIn, LinkedFrame, Within;
    EntryParts(f, defaults);
    EntryWithin(f, defaults);
    if f.start > pc {
      LookupBelow(EntryRows(f, f.cie.factors), f.start, f.start + f.length, pc);
    } else {
      var last := Row(f.start + f.length, LinkedFrame());
      LookupAppend(BodyRows(f, f.cie.factors), [last], pc);
      LookupSingle(last, pc);
      BodyGivesRule(f, defaults, pc);
    }
  }

  lemma {:induction false} AllRowsOrdered(fdes: seq<Fde>, factors: Factors, defaults: u32 -> RegRule)
    requires InOrder(fdes, factors, defaults)
    ensures Ordered(AllRows(fdes, factors))
    ensures fdes != [] ==> forall i | 0 <= i < |AllRows(fdes, factors)| :: AllRows(fdes, factors)[i].loc <= fdes[|fdes| - 1].start + fdes[|fdes| - 1].length
  {
    hide EntryRows, WellFormed;
    if fdes != [] {
      var n := |fdes| - 1;
      AllRowsOrdered(fdes[..n], factors, defaults);
      EntryWithin(fdes[n], defaults);
      JoinOrdered(AllRows(fdes[..n], factors), EntryRows(fdes[n], factors), fdes[n].start);
    }
  }

  lemma JoinOrdered(a: seq<Row>, b: seq<Row>, at: nat)
    requires Ordered(a) && Ordered(b) && (forall i | 0 <= i < |a| :: a[i].loc <= at) && (forall i | 0 <= i < |b| :: at <= b[i].loc)
    ensures Ordered(a + b)
  {
  }

  lemma {:induction false} AllRowsRight(fdes: seq<Fde>, factors: Factors, defaults: u32 -> RegRule, pc: u32)
    requires InOrder(fdes, factors, defaults)
    ensures Right(Lookup(AllRows(fdes, factors), pc), fdes, pc, defaults)
  {
    hide EntryRows, WellFormed, RulesIn, LinkedFrame, Lookup, Agrees;
    if fdes == [] {
      LookupAbove([], pc);
    } else {
      var n := |fdes| - 1;
      AllRowsRight(fdes[..n], factors, defaults, pc);
      EntryGivesRule(fdes[n], defaults, pc);
      LookupAppend(AllRows(fdes[..n], factors), EntryRows(fdes[n], factors), pc);
    }
  }

  /** The table built from entries in order answers every address with the rule of the standard. */
  lemma TableIsFaithful(fdes: seq<Fde>, factors: Factors, defaults: u32 -> RegRule, pc: u32)
    requires InOrder(fdes, factors, defaults)
    ensures var table := AllAdded([], AllRows(fdes, factors)); StrictlyOrdered(table) && Right(Lookup(table, pc), fdes, pc, defaults)
  {
    AllRowsOrdered(fdes, factors, defaults);
    AllRowsRight(fdes, factors, defaults, pc);
    hide AllRows, Right, Lookup, InOrder;
    CompressionIsFaithful([], AllRows(fdes, factors), pc);
    assert [] + AllRows(fdes, factors) == AllRows(fdes, factors);
  }

  /** `parseFde`: the alignment factors are read only while the table is empty. */
  method ParseFde(b: Builder, f: Fde, factors0: Factors) returns (factors: Factors)
    requires b.Valid()
    modifies b
    ensures factors == if old(b.rows) == [] then f.cie.factors else factors0
    ensures b.Valid() && b.rows == AllAdded(old(b.rows), EntryRows(f, factors)) && b.rows != []
  {
    factors := if |b.rows| == 0 then f.cie.factors else factors0;
    ghost var rows, last := BodyRows(f, factors), Row(U32(f.start + f.length), LinkedFrame());
    AllAddedAppend(b.rows, rows, [last]);
    assert [last] + [] == [last];
    AddedFirst(AllAdded(b.rows, rows), last, []);
    AddedSome(AllAdded(b.rows, rows), last);
    hide Emitted, Added, AllAdded, LinkedFrame, InitialRegs;
    ParseInstructions(b, Program(f, factors), f.start);
    b.AddRecord(U32(f.start + f.length), LinkedFrame());
  }

  lemma AddedSome(table: seq<Row>, row: Row)
    ensures Added(table, row) != []
  {
  }

  /** `parseEhFrame` over the entries of the index: the factors are those of the first entry. */
  method ParseEhFrame(fdes: seq<Fde>, initial: Factors) returns (table: seq<Row>)
    ensures table == AllAdded([], AllRows(fdes, if fdes == [] then initial else fdes[0].cie.factors))
  {
    ghost var first := if fdes == [] then initial else fdes[0].cie.factors;
    hide EntryRows, Added, AllAdded;
    var b := new Builder();
    var factors := initial;
    var n := 0;
    AddedFirst([], Row(0, LinkedFrame()), []);
    hide LinkedFrame;
    while n < |fdes|
      invariant n <= |fdes| && b.Valid() && b.rows == AllAdded([], AllRows(fdes[..n], first))
      invariant if n == 0 then b.rows == [] else b.rows != [] && factors == first
    {
      assert fdes[..n + 1][..n] == fdes[..n];
      AllAddedAppend([], AllRows(fdes[..n], first), EntryRows(fdes[n], first));
      factors := ParseFde(b, fdes[n], factors);
      n := n + 1;
    }
    assert fdes[..n] == fdes;
    table := b.rows;
  }

  /** Parsing and searching together: the frame for an address is the one the standard's rules give. */
  method Unwind(fdes: seq<Fde>, initial: Factors, ghost defaults: u32 -> RegRule, pc: u32, pltOffset: u32, pltSize: u32) returns (frame: Frame)
    requires fdes != [] ==> InOrder(fdes, fdes[0].cie.factors, defaults)
    requires |AllAdded([], AllRows(fdes, if fdes == [] then initial else fdes[0].cie.factors))| < 0x8000_0000
    ensures frame.Entry? ==> Right(Some(frame.rule), fdes, pc, defaults)
    ensures !frame.Entry? ==> Right(None, fdes, pc, defaults) && frame == if InLinkageTable(pc, pltOffset, pltSize) then EmptyFrame else DefaultFrame
  {
    hide AllAdded, AllRows, Right, Lookup, WellFormed, StrictlyOrdered;
    ghost var first := if fdes == [] then initial else fdes[0].cie.factors;
    var table := ParseEhFrame(fdes, initial);
    TableIsFaithful(fdes, first, defaults, pc);
    frame := FindFrameDesc(table, pc, pltOffset, pltSize);
  }

  /** What x86-64 compilers write: the CFA is the stack pointer plus 8, and the return address is below it. */
  function UsualCie(): Cie { Cie(Factors(1, -8), [Unscaled(DefCfa(REG_SP, 8)), OffsetBy(REG_PC, 1)]) }

  lemma UsualCieIsUsual(defaults: u32 -> RegRule)
    requires defaults(REG_FP) == SameRule
    ensures InitialState(UsualCie(), defaults).Some? && Usual(InitialState(UsualCie(), defaults).value)
  {
    var p := AllScaled(UsualCie().initial, UsualCie().factors);
    assert p == [DefCfa(REG_SP, 8), Offset(REG_PC, -8)];
    assert p[1..] == [Offset(REG_PC, -8)] && p[1..][1..] == [];
    var st0 := State(NoCfa, defaults);
    var st1 := st0.(cfa := CfaRegister(REG_SP, 8));
    assert Initial(p[1..], st1) == Initial([], With(st1, REG_PC, OffsetRule(-8)));
  }

  // ------------------------------------------------------------------ a section without an index

  /** Entries at address zero are leftovers of functions that the linker removed. */
  function Present(fdes: seq<Fde>): seq<Fde> {
    if fdes == [] then []
    else
      var f := fdes[|fdes| - 1];
      Present(fdes[..|fdes| - 1]) + (if f.start != 0 then [f] else [])
  }

  function Groups(fdes: seq<Fde>): seq<seq<Row>> { seq(|fdes|, i requires 0 <= i < |fdes| => BodyRows(fdes[i], fdes[i].cie.factors)) }

  /** `parseDebugFrame` before sorting: each entry with its own factors, and no row behind it. */
  method ParseDebugFrame(fdes: seq<Fde>) returns (table: seq<Row>)
    ensures table == AllAdded([], Concat(Groups(Present(fdes))))
  {
    hide BodyRows, Added, AllAdded;
    var b := new Builder();
    AddedFirst([], Row(0, LinkedFrame()), []);
    hide LinkedFrame;
    var n := 0;
    while n < |fdes|
      invariant n <= |fdes| && b.Valid() && b.rows == AllAdded([], Concat(Groups(Present(fdes[..n]))))
    {
      var f := fdes[n];
      ghost var before := Present(fdes[..n]);
      assert fdes[..n + 1][..n] == fdes[..n];
      if f.start != 0 {
        assert Groups(before + [f])[..|before|] == Groups(before);
        AllAddedAppend([], Concat(Groups(before)), BodyRows(f, f.cie.factors));
        ParseBody(b, f);
      } else {
        assert before + [] == before;
      }
      n := n + 1;
    }
    assert fdes[..n] == fdes;
    table := b.rows;
  }

  method ParseBody(b: Builder, f: Fde)
    requires b.Valid()
    modifies b
    ensures b.Valid() && b.rows == AllAdded(old(b.rows), BodyRows(f, f.cie.factors))
  {
    hide Emitted, AllAdded, InitialRegs;
    ParseInstructions(b, Program(f, f.cie.factors), f.start);
  }

  /** Entries in any order, each ending before its range does. */
  ghost predicate AnyOrder(fdes: seq<Fde>, defaults: u32 -> RegRule) {
    && (forall i | 0 <= i < |fdes| ::
          WellFormed(fdes[i], defaults) && Span(Program(fdes[i], fdes[i].cie.factors)) < fdes[i].length && fdes[i].start + fdes[i].length <= 0x8000_0000)
    && (forall i, j | 0 <= i < |fdes| && 0 <= j < |fdes| && i != j ::
          fdes[i].start + fdes[i].length <= fdes[j].start || fdes[j].start + fdes[j].length <= fdes[i].start)
  }

  lemma BodyInside(f: Fde, defaults: u32 -> RegRule)
    requires WellFormed(f, defaults) && Span(Program(f, f.cie.factors)) < f.length
    ensures var g := BodyRows(f, f.cie.factors);
      && g != [] && Ordered(g) && g[0].loc == f.start && forall i | 0 <= i < |g| :: f.start <= g[i].loc < f.start + f.length
  {
    var p, g := Program(f, f.cie.factors), BodyRows(f, f.cie.factors);
    EntryParts(f, defaults);
    BodyGivesRule(f, defaults, f.start);
    hide Program, Handled, Agrees, InitialState, RulesIn, Span, Emitted, Lookup;
    EmittedWithin(p, f.start, InitialRegs(), InitialRegs());
    assert Lookup(g, f.start).Some?;
    if g == [] || g[0].loc > f.start { LookupAbove(g, f.start); }
  }

  lemma GroupsAreEntries(fdes: seq<Fde>, defaults: u32 -> RegRule)
    requires AnyOrder(fdes, defaults)
    ensures Entries(Groups(fdes))
    ensures forall i | 0 <= i < |fdes| :: Groups(fdes)[i] != [] && Groups(fdes)[i][0].loc == fdes[i].start
    ensures forall x | x in Concat(Groups(fdes)) :: x.loc < 0x8000_0000
  {
    var gs: seq<seq<Row>> := Groups(fdes);
    hide WellFormed, BodyRows, Span, Program;
    forall i | 0 <= i < |fdes|
      ensures gs[i] != [] && Ordered(gs[i]) && gs[i][0].loc == fdes[i].start && forall j | 0 <= j < |gs[i]| :: fdes[i].start <= gs[i][j].loc < fdes[i].start + fdes[i].length
    {
      BodyInside(fdes[i], defaults);
    }
    forall x | x in Concat(gs) ensures x.loc < 0x8000_0000 {
      InConcat(gs, x);
      var k :| 0 <= k < |gs| && x in gs[k];
    }
    hide Concat;
    forall i, j | 0 <= i < j < |gs| ensures Before(gs[i], gs[j]) || Before(gs[j], gs[i]) {
      assert fdes[i].start + fdes[i].length <= fdes[j].start || fdes[j].start + fdes[j].length <= fdes[i].start;
    }
  }

  lemma CoverOfEntry(fdes: seq<Fde>, defaults: u32 -> RegRule, k: nat, pc: u32)
    requires AnyOrder(fdes, defaults) && k < |fdes| && fdes[k].start <= pc < fdes[k].start + fdes[k].length && Entries(Groups(fdes))
    requires forall i | 0 <= i < |fdes| :: Groups(fdes)[i] != [] && Groups(fdes)[i][0].loc == fdes[i].start
    ensures Cover(Groups(fdes), pc) == Some(k)
  {
    var c := Cover(Groups(fdes), pc);
    hide Cover, WellFormed, BodyRows;
    assert Groups(fdes)[k][0].loc <= pc;
    assert c.Some? && c.value < |fdes|;
  }

  /** Sorted, the table gives the standard's rule at every address of every entry, if no dropped row was needed. */
  lemma DebugTableIsFaithful(fdes: seq<Fde>, defaults: u32 -> RegRule, t: seq<Row>, p: seq<nat>, k: nat, pc: u32)
    requires AnyOrder(fdes, defaults) && k < |fdes| && fdes[k].start <= pc < fdes[k].start + fdes[k].length
    requires SortedBy(t, AllAdded([], Concat(Groups(fdes))), p)
    requires Entries(Groups(fdes)) ==> forall j | 0 <= j < |fdes| :: Harmless(Groups(fdes), j)
    ensures StrictlyOrdered(t) && Answers(t, pc, RulesIn(fdes[k], pc, defaults))
  {
    hide AllAdded, Concat, Cover, Harmless, BodyRows, RulesIn, WellFormed, Lookup, SortedBy, Entries, Agrees;
    DebugTableAnswers(fdes, defaults, t, p, pc);
    GroupsAreEntries(fdes, defaults);
    CoverOfEntry(fdes, defaults, k, pc);
    assert WellFormed(fdes[k], defaults);
    BodyGivesRule(fdes[k], defaults, pc);
  }

  /** Every address is answered by the entry that starts last at or below it. */
  lemma DebugTableAnswers(fdes: seq<Fde>, defaults: u32 -> RegRule, t: seq<Row>, p: seq<nat>, pc: u32)
    requires AnyOrder(fdes, defaults) && SortedBy(t, AllAdded([], Concat(Groups(fdes))), p)
    requires Entries(Groups(fdes)) ==> forall j | 0 <= j < |fdes| :: Harmless(Groups(fdes), j)
    ensures Entries(Groups(fdes)) && StrictlyOrdered(t) && Lookup(t, pc) == Reference(Groups(fdes), pc)
  {
    hide AllAdded, Concat, Cover, Harmless, BodyRows, WellFormed, Lookup, BestRule, SortedBy, Entries, Kept, Distinct, Reference;
    var gs: seq<seq<Row>> := Groups(fdes);
    var table := AllAdded([], Concat(gs));
    GroupsAreEntries(fdes, defaults);
    SectionExact(gs);
    TableIs(gs);
    KeptDistinct(gs);
    forall i | 0 <= i < |table| ensures table[i].loc < 0x8000_0000 { AddedMembers([], Concat(gs), table[i]); }
    SortedLookup(t, table, p, pc);
    assert BestRule(table, pc) == Reference(gs, pc);
  }

  /** Searching a sorted `.debug_frame` table: the frame for an address of an entry is the one the standard's rules give. */
  method UnwindDebug(fdes: seq<Fde>, t: seq<Row>, ghost p: seq<nat>, ghost defaults: u32 -> RegRule, pc: u32, pltOffset: u32, pltSize: u32)
    returns (frame: Frame)
    requires AnyOrder(Present(fdes), defaults) && SortedBy(t, AllAdded([], Concat(Groups(Present(fdes)))), p) && |t| < 0x8000_0000
    requires Entries(Groups(Present(fdes))) ==> forall j | 0 <= j < |Present(fdes)| :: Harmless(Groups(Present(fdes)), j)
    ensures forall f | f in fdes && f.start != 0 && f.start <= pc < f.start + f.length ::
              frame.Entry? && RulesIn(f, pc, defaults).Some? && Agrees(frame.rule, RulesIn(f, pc, defaults).value)
    ensures (forall f | f in fdes && f.start != 0 :: pc < f.start) ==>
              frame == if InLinkageTable(pc, pltOffset, pltSize) then EmptyFrame else DefaultFrame
  {
    hide AllAdded, Concat, Cover, Harmless, BodyRows, RulesIn, WellFormed, Lookup, SortedBy, Entries, Agrees, AnyOrder, Reference, Groups;
    ghost var present := Present(fdes);
    DebugTableAnswers(present, defaults, t, p, pc);
    frame := FindFrameDesc(t, pc, pltOffset, pltSize);
    forall f | f in fdes && f.start != 0 && f.start <= pc < f.start + f.length
      ensures frame.Entry? && RulesIn(f, pc, defaults).Some? && Agrees(frame.rule, RulesIn(f, pc, defaults).value)
    {
      var k := WherePresent(fdes, f);
      DebugTableIsFaithful(present, defaults, t, p, k, pc);
      AnswersParts(t, pc, RulesIn(f, pc, defaults));
    }
    if forall f | f in fdes && f.start != 0 :: pc < f.start { BelowAll(fdes, defaults, pc); }
  }

  lemma AnswersParts(rows: seq<Row>, pc: u32, rules: Option<State>)
    requires Answers(rows, pc, rules)
    ensures Lookup(rows, pc).Some? && rules.Some? && Agrees(Lookup(rows, pc).value, rules.value)
  {
    hide Lookup, Agrees;
  }

  /** The entries that are present are those that do not start at zero. */
  lemma {:induction false} WherePresent(fdes: seq<Fde>, f: Fde) returns (k: nat)
    requires f in fdes && f.start != 0
    ensures k < |Present(fdes)| && Present(fdes)[k] == f
  {
    var n := |fdes| - 1;
    if fdes[n] == f { k := |Present(fdes[..n])|; } else { k := WherePresent(fdes[..n], f); }
  }

  lemma {:induction false} PresentOnly(fdes: seq<Fde>)
    ensures forall f | f in Present(fdes) :: f in fdes && f.start != 0
  {
    if fdes != [] { PresentOnly(fdes[..|fdes| - 1]); }
  }

  lemma BelowAll(fdes: seq<Fde>, defaults: u32 -> RegRule, pc: u32)
    requires AnyOrder(Present(fdes), defaults) && Entries(Groups(Present(fdes))) && forall f | f in fdes && f.start != 0 :: pc < f.start
    ensures (forall k | 0 <= k < |Groups(Present(fdes))| :: Groups(Present(fdes))[k] != []) && Reference(Groups(Present(fdes)), pc) == None
  {
    hide Cover, BodyRows, WellFormed, AnyOrder, Entries, Concat;
    PresentOnly(fdes);
    GroupsAreEntries(Present(fdes), defaults);
    var gs: seq<seq<Row>> := Groups(Present(fdes));
    forall k | 0 <= k < |gs| ensures gs[k][0].loc > pc { assert Present(fdes)[k] in Present(fdes); }
  }
}

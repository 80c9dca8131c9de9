/** Lookups return: a lookup that runs alone comes to an answer, whatever the others left behind. */
module DictionaryProgress {
  import opened Bytes
  import opened Dictionary
  import opened DictionaryInvariant
  import opened DictionaryGuarantees

  /** The operation that comes next for a lookup. */
  function NextOperation(p: Lookup, t: nat): Action
    requires !AtRest(p)
  {
    match p
    case Scanning(_, _, _, _) => ReadCell(t)
    case Claiming(_, _, _, _) => ClaimCell(t)
    case Comparing(_, _, _, _) => CompareCell(t)
    case AtNext(_, _, _) => ReadNext(t)
    case Making(_, _, _) => TakeBase(t)
    case Linking(_, _, _, _) => LinkTable(t)
    case Following(_, _, _) => FollowNext(t)
  }

  /** The actions are those of a lookup that `t` completes alone. */
  predicate Alone(s: Dict, t: nat, actions: seq<Action>, hash: Key -> u32)
    decreases |actions|
  {
    t < |s.lookups|
    && if actions == [] then AtRest(s.lookups[t])
       else !AtRest(s.lookups[t]) && actions[0] == NextOperation(s.lookups[t], t) && Alone(Step(s, actions[0], hash), t, actions[1..], hash)
  }

  /** `t` has returned an index for `key`. */
  predicate Answers(s: Dict, t: nat, key: Key) { t < |s.lookups| && s.lookups[t].Returned? && s.lookups[t].key == key }

  ghost predicate Completes(s: Dict, t: nat, actions: seq<Action>, key: Key, hash: Key -> u32) {
    Alone(s, t, actions, hash) && Answers(Run(s, actions, hash), t, key)
  }

  lemma CompletesNow(s: Dict, t: nat, key: Key, hash: Key -> u32)
    requires Answers(s, t, key)
    ensures Completes(s, t, [], key, hash)
  {
  }

  lemma CompletesStep(s: Dict, t: nat, rest: seq<Action>, key: Key, hash: Key -> u32)
    requires t < |s.lookups| && !AtRest(s.lookups[t])
    requires Completes(Step(s, NextOperation(s.lookups[t], t), hash), t, rest, key, hash)
    ensures Completes(s, t, [NextOperation(s.lookups[t], t)] + rest, key, hash)
  {
    hide Step, NextOperation, Answers;
    var a := NextOperation(s.lookups[t], t);
    assert ([a] + rest)[1..] == rest;
  }

  // ------------------------------------------------------------------ links stay

  /** A lookup that is about to follow a link has one to follow. */
  predicate Led(s: Dict, hash: Key -> u32) {
    forall t | 0 <= t < |s.lookups| && s.lookups[t].Following? ::
      var p := s.lookups[t]; var row := RowAt(hash(p.key), p.depth);
      p.table < |s.tables| && row < |s.tables[p.table].rows| && s.tables[p.table].rows[row].next.Some?
  }

  /** Links are never taken back. */
  predicate LinksStay(a: seq<Table>, b: seq<Table>) {
    |a| <= |b| && forall i, r | 0 <= i < |a| && 0 <= r < |a[i].rows| :: r < |b[i].rows| && (a[i].rows[r].next.Some? ==> b[i].rows[r].next.Some?)
  }

  lemma StepLinks(s: Dict, a: Action, hash: Key -> u32)
    ensures LinksStay(s.tables, Step(s, a, hash).tables)
  {
    hide RowAt, KeyEquals;
  }

  lemma StepLeads(s: Dict, a: Action, hash: Key -> u32)
    requires a.t < |s.lookups| && |Step(s, a, hash).lookups| == |s.lookups|
    requires Step(s, a, hash).lookups[a.t].Following?
    ensures var s' := Step(s, a, hash); var p := s'.lookups[a.t]; var row := RowAt(hash(p.key), p.depth);
            s'.lookups[a.t] == s.lookups[a.t] || (p.table < |s'.tables| && row < |s'.tables[p.table].rows| && s'.tables[p.table].rows[row].next.Some?)
  {
    hide RowAt, KeyEquals;
  }

  lemma LedStep(s: Dict, a: Action, hash: Key -> u32)
    requires Led(s, hash)
    ensures Led(Step(s, a, hash), hash)
  {
    hide Step, RowAt;
    var s' := Step(s, a, hash);
    LookupsKept(s, a, hash);
    StepLinks(s, a, hash);
    forall t | 0 <= t < |s'.lookups| && s'.lookups[t].Following?
      ensures var p := s'.lookups[t]; var row := RowAt(hash(p.key), p.depth);
              p.table < |s'.tables| && row < |s'.tables[p.table].rows| && s'.tables[p.table].rows[row].next.Some?
    {
      if t == a.t { StepLeads(s, a, hash); }
    }
  }

  lemma {:induction false} LedRun(s: Dict, actions: seq<Action>, hash: Key -> u32)
    requires Inv(s, hash) && Led(s, hash)
    ensures Inv(Run(s, actions, hash), hash) && Led(Run(s, actions, hash), hash)
    decreases |actions|
  {
    hide Inv, Led, Step;
    if actions != [] {
      StepKeeps(s, actions[0], hash);
      LedStep(s, actions[0], hash);
      LedRun(Step(s, actions[0], hash), actions[1..], hash);
    }
  }

  // ------------------------------------------------------------------ one lookup at work

  /** Lookup `t` is at work for `key`. */
  ghost predicate In(s: Dict, t: nat, key: Key, hash: Key -> u32) {
    Inv(s, hash) && Led(s, hash) && t < |s.lookups| && !AtRest(s.lookups[t]) && s.lookups[t].key == key
  }

  lemma InParts(s: Dict, t: nat, key: Key, hash: Key -> u32)
    requires In(s, t, key, hash)
    ensures var p := s.lookups[t]; var row := RowAt(hash(key), p.depth);
            && p.table < |s.tables| && HasRow(s, p.table, row) && (InRow(p) ==> p.col < CELLS)
            && (p.Comparing? ==> s.tables[p.table].rows[row].keys[p.col].Some?)
            && (p.Following? ==> s.tables[p.table].rows[row].next.Some?)
            && (s.tables[p.table].rows[row].next.Some? ==> p.table < s.tables[p.table].rows[row].next.value < |s.tables|)
  {
    AtRow(s, t, hash);
    var p := s.lookups[t];
    assert LookupOk(p, s.tables, hash);
    assert LinkOk(s.tables, p.table, RowAt(hash(key), p.depth));
    hide Follow, Passed, RowAt, BasesOk, StoredOk;
  }

  /** One step of a lookup keeps it going for its key, unless it returns. */
  lemma StepIn(s: Dict, t: nat, key: Key, hash: Key -> u32)
    requires In(s, t, key, hash)
    ensures var s' := Step(s, NextOperation(s.lookups[t], t), hash); Answers(s', t, key) || In(s', t, key, hash)
  {
    hide Inv, RowAt, KeyEquals, Led;
    InParts(s, t, key, hash);
    StepKeeps(s, NextOperation(s.lookups[t], t), hash);
    LedStep(s, NextOperation(s.lookups[t], t), hash);
  }

  /** At an empty cell a lookup stores its key and returns. */
  lemma EmptyCellAnswers(s: Dict, t: nat, key: Key, hash: Key -> u32) returns (actions: seq<Action>)
    requires In(s, t, key, hash) && s.lookups[t].Scanning?
    requires var p := s.lookups[t];
             && p.table < |s.tables| && HasRow(s, p.table, RowAt(hash(key), p.depth)) && p.col < CELLS
             && s.tables[p.table].rows[RowAt(hash(key), p.depth)].keys[p.col] == None
    ensures Completes(s, t, actions, key, hash)
  {
    hide Inv, Completes, RowAt, KeyEquals, Led;
    var s1 := Step(s, ReadCell(t), hash);
    var s2 := Step(s1, ClaimCell(t), hash);
    CompletesNow(s2, t, key, hash);
    CompletesStep(s1, t, [], key, hash);
    CompletesStep(s, t, [ClaimCell(t)] + [], key, hash);
    actions := [ReadCell(t)] + ([ClaimCell(t)] + []);
  }

  /** A row that is searched from some cell on: its cells end in an answer, or the search goes on behind it. */
  lemma {:induction false} RowAnswers(s: Dict, t: nat, key: Key, hash: Key -> u32) returns (actions: seq<Action>)
    requires In(s, t, key, hash) && InRow(s.lookups[t])
    ensures Completes(s, t, actions, key, hash)
    decreases |s.tables| - s.lookups[t].table, 2, CELLS - s.lookups[t].col, Phase(s.lookups[t])
  {
    hide Inv, Completes, RowAt, KeyEquals, Led;
    var p := s.lookups[t];
    InParts(s, t, key, hash);
    var s1 := Step(s, NextOperation(p, t), hash);
    StepIn(s, t, key, hash);
    if Answers(s1, t, key) {
      CompletesNow(s1, t, key, hash);
      actions := [];
    } else if InRow(s1.lookups[t]) {
      actions := RowAnswers(s1, t, key, hash);
    } else {
      actions := LinkAnswers(s1, t, key, hash);
    }
    CompletesStep(s, t, actions, key, hash);
    actions := [NextOperation(p, t)] + actions;
  }

  /** Reading, claiming and comparing follow each other in this order. */
  function Phase(p: Lookup): nat { if p.Scanning? then 2 else if p.Claiming? then 1 else 0 }

  /** Behind a row there is a table further on, or a new one whose cells are empty. */
  lemma {:induction false} LinkAnswers(s: Dict, t: nat, key: Key, hash: Key -> u32) returns (actions: seq<Action>)
    requires In(s, t, key, hash) && !InRow(s.lookups[t])
    ensures Completes(s, t, actions, key, hash)
    decreases |s.tables| - s.lookups[t].table, 1, LinkPhase(s.lookups[t])
  {
    hide Inv, Completes, RowAt, KeyEquals, Led;
    var p := s.lookups[t];
    InParts(s, t, key, hash);
    var s1 := Step(s, NextOperation(p, t), hash);
    StepIn(s, t, key, hash);
    if p.AtNext? || p.Making? {
      actions := LinkAnswers(s1, t, key, hash);
    } else if p.Linking? {
      if |s1.tables| > |s.tables| { actions := NewTableAnswers(s1, t, key, hash); } else { actions := LinkAnswers(s1, t, key, hash); }
    } else {
      actions := RowAnswers(s1, t, key, hash);
    }
    CompletesStep(s, t, actions, key, hash);
    actions := [NextOperation(p, t)] + actions;
  }

  /** A table that was just linked has an empty cell for the key. */
  lemma NewTableAnswers(s: Dict, t: nat, key: Key, hash: Key -> u32) returns (actions: seq<Action>)
    requires In(s, t, key, hash) && s.lookups[t].Following?
    requires var p := s.lookups[t]; var row := RowAt(hash(key), p.depth);
             && p.table < |s.tables| && row < |s.tables[p.table].rows| && s.tables[p.table].rows[row].next.Some?
             && var j := s.tables[p.table].rows[row].next.value;
                j < |s.tables| && s.tables[j].rows == seq(ROWS, _ => EmptyRow())
    ensures Completes(s, t, actions, key, hash)
  {
    hide Inv, Completes, RowAt, KeyEquals, Led;
    InParts(s, t, key, hash);
    var s1 := Step(s, FollowNext(t), hash);
    StepIn(s, t, key, hash);
    InParts(s1, t, key, hash);
    actions := EmptyCellAnswers(s1, t, key, hash);
    CompletesStep(s, t, actions, key, hash);
    actions := [FollowNext(t)] + actions;
  }

  /** A lookup begun in any state of any run and left to run alone returns an index for its key. */
  lemma LookupReturns(threads: nat, before: seq<Action>, t: nat, key: Key, hash: Key -> u32) returns (actions: seq<Action>)
    requires var s := RunFromStart(threads, before, hash); t < |s.lookups| && AtRest(s.lookups[t])
    ensures Completes(Step(RunFromStart(threads, before, hash), Begin(t, key), hash), t, actions, key, hash)
  {
    var s := RunFromStart(threads, before, hash);
    InvInitial(threads, hash);
    LedRun(Initial(threads), before, hash);
    hide Inv, Led, Run, RunFromStart, Completes, RowAt;
    StepKeeps(s, Begin(t, key), hash);
    LedStep(s, Begin(t, key), hash);
    actions := RowAnswers(Step(s, Begin(t, key), hash), t, key, hash);
  }

  // ------------------------------------------------------------------ levels

  lemma Rotates(low: nat, high: nat)
    requires low < 128 && high < 0x200_0000
    ensures Rotated(low + 128 * high) == high + low * 0x200_0000
  {
  }

  lemma LowDigit(low: nat, high: nat)
    requires low < 128
    ensures (low + 128 * high) % 128 == low && (low + 128 * high) / 128 == high
  {
  }

  /** The 32 bits of a hash as digits of seven bits. */
  function Digits(a: nat, b: nat, c: nat, d: nat, e: nat): nat { a + 128 * (b + 128 * (c + 128 * (d + 128 * e))) }

  /** The rows of the first five levels are these digits; the last one has four bits, and takes three of the first. */
  lemma RowsAre(a: nat, b: nat, c: nat, d: nat, e: nat)
    requires a < 128 && b < 128 && c < 128 && d < 128 && e < 16
    ensures var h: u32 := Digits(a, b, c, d, e);
            RowAt(h, 0) == a && RowAt(h, 1) == b && RowAt(h, 2) == c && RowAt(h, 3) == d && RowAt(h, 4) == e + a % 8 * 16
  {
    hide HashAt, RowAt;
    var h: u32 := Digits(a, b, c, d, e);
    var x1 := c + 128 * (d + 128 * e) + a * 0x4_0000;
    var x2 := d + 128 * e + a * 0x800 + b * 0x4_0000;
    var x3 := e + a * 16 + b * 0x800 + c * 0x4_0000;
    FirstLevel(h);
    NextLevel(h, 0, a, b + 128 * (c + 128 * (d + 128 * e)));
    NextLevel(h, 1, b, x1);
    NextLevel(h, 2, c, x2);
    NextLevel(h, 3, d, x3);
    assert x3 + d * 0x200_0000 == e + a % 8 * 16 + 128 * (a / 8 + b * 16 + c * 0x800 + d * 0x4_0000);
    NextLevel(h, 4, e + a % 8 * 16, a / 8 + b * 16 + c * 0x800 + d * 0x4_0000);
  }

  lemma FirstLevel(h: u32)
    ensures HashAt(h, 0) == h
  {
  }

  lemma NextLevel(h: u32, k: nat, low: nat, high: nat)
    requires HashAt(h, k) == low + 128 * high && low < 128 && high < 0x200_0000
    ensures RowAt(h, k) == low && HashAt(h, k + 1) == high + low * 0x200_0000
  {
    LowDigit(low, high);
    Rotates(low, high);
    hide Rotated;
  }

  lemma DigitsOf(h: u32) returns (a: nat, b: nat, c: nat, d: nat, e: nat)
    ensures a < 128 && b < 128 && c < 128 && d < 128 && e < 16 && h == Digits(a, b, c, d, e)
  {
    var h1, h2, h3 := h / 128, h / 128 / 128, h / 128 / 128 / 128;
    a, b, c, d, e := h % 128, h1 % 128, h2 % 128, h3 % 128, h3 / 128;
    assert h == a + 128 * h1 && h1 == b + 128 * h2 && h2 == c + 128 * h3 && h3 == d + 128 * e;
  }

  /** Keys with different hashes part within five levels. */
  lemma HashesPart(g: u32, h: u32)
    requires forall d: nat | d < 5 :: RowAt(g, d) == RowAt(h, d)
    ensures g == h
  {
    hide RowAt, Digits;
    var a, b, c, d, e := DigitsOf(g);
    var a', b', c', d', e' := DigitsOf(h);
    RowsAre(a, b, c, d, e);
    RowsAre(a', b', c', d', e');
    assert RowAt(g, 0) == RowAt(h, 0) && RowAt(g, 1) == RowAt(h, 1) && RowAt(g, 2) == RowAt(h, 2);
    assert RowAt(g, 3) == RowAt(h, 3) && RowAt(g, 4) == RowAt(h, 4);
  }

  function LinkPhase(p: Lookup): nat { if p.AtNext? then 3 else if p.Making? then 2 else if p.Linking? then 1 else 0 }
}

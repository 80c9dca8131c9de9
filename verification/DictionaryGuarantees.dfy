/** What the dictionary promises. */
module DictionaryGuarantees {
  import opened Bytes
  import opened Dictionary
  import opened DictionaryInvariant

  function RunFromStart(threads: nat, actions: seq<Action>, hash: Key -> u32): Dict { Run(Initial(threads), actions, hash) }

  lemma RunInv(threads: nat, actions: seq<Action>, hash: Key -> u32)
    ensures Inv(RunFromStart(threads, actions, hash), hash)
  {
    hide Inv, Run, Initial;
    InvInitial(threads, hash);
    RunKeeps(Initial(threads), actions, hash);
  }

  // ------------------------------------------------------------------ what callers see

  predicate AtRest(p: Lookup) { p.Idle? || p.Returned? }

  /** The keys asked for, thread by thread: those of the last lookups begun. */
  function AskedNext(s: Dict, a: Action, asked: seq<Option<Key>>): seq<Option<Key>>
    requires |asked| == |s.lookups|
  {
    if a.Begin? && a.t < |s.lookups| && AtRest(s.lookups[a.t]) then asked[a.t := Some(a.key)] else asked
  }

  lemma LookupsKept(s: Dict, a: Action, hash: Key -> u32)
    ensures |Step(s, a, hash).lookups| == |s.lookups|
    ensures forall u | 0 <= u < |s.lookups| && u != a.t :: Step(s, a, hash).lookups[u] == s.lookups[u]
  {
    hide RowAt, KeyEquals;
  }

  /** The lookups that return in a run, in order: the key that was asked for and the index that was returned. */
  function Results(s: Dict, actions: seq<Action>, hash: Key -> u32, asked: seq<Option<Key>>): seq<(Key, nat)>
    requires |asked| == |s.lookups|
    decreases |actions|
  {
    if actions == [] then []
    else
      var a := actions[0];
      var s' := Step(s, a, hash);
      LookupsKept(s, a, hash);
      var ends := a.t < |s.lookups| && !AtRest(s.lookups[a.t]) && s'.lookups[a.t].Returned? && asked[a.t].Some?;
      (if ends then [(asked[a.t].value, s'.lookups[a.t].index)] else [])
      + Results(s', actions[1..], hash, AskedNext(s, a, asked))
  }

  function ResultsFromStart(threads: nat, actions: seq<Action>, hash: Key -> u32): seq<(Key, nat)> {
    Results(Initial(threads), actions, hash, seq(threads, _ => None))
  }

  /** Every thread works for the key that it was asked for. */
  predicate ForAsked(s: Dict, asked: seq<Option<Key>>) {
    |asked| == |s.lookups| && forall t | 0 <= t < |s.lookups| && !s.lookups[t].Idle? :: asked[t] == Some(s.lookups[t].key)
  }

  lemma ResultsStep(s: Dict, a: Action, hash: Key -> u32, asked: seq<Option<Key>>)
    requires ForAsked(s, asked)
    ensures var s' := Step(s, a, hash);
            && ForAsked(s', AskedNext(s, a, asked))
            && (a.t < |s.lookups| && !AtRest(s.lookups[a.t]) && s'.lookups[a.t].Returned? ==>
                  asked[a.t].Some? && s'.answers == s.answers + [(asked[a.t].value, s'.lookups[a.t].index)])
            && (!(a.t < |s.lookups| && !AtRest(s.lookups[a.t]) && s'.lookups[a.t].Returned?) ==> s'.answers == s.answers)
  {
    hide RowAt, KeyEquals;
  }

  lemma {:induction false} AnswersAreResults(s: Dict, actions: seq<Action>, hash: Key -> u32, asked: seq<Option<Key>>)
    requires ForAsked(s, asked)
    ensures Run(s, actions, hash).answers == s.answers + Results(s, actions, hash, asked)
    decreases |actions|
  {
    hide Step, ForAsked, AskedNext;
    ForAskedLength(s, asked);
    if actions != [] {
      LookupsKept(s, actions[0], hash);
      ResultsStep(s, actions[0], hash, asked);
      AnswersAreResults(Step(s, actions[0], hash), actions[1..], hash, AskedNext(s, actions[0], asked));
    }
  }

  lemma ForAskedLength(s: Dict, asked: seq<Option<Key>>)
    requires ForAsked(s, asked)
    ensures |asked| == |s.lookups|
  {
  }

  /** What the dictionary answered is what its callers asked for. */
  lemma AnsweredAsAsked(threads: nat, actions: seq<Action>, hash: Key -> u32)
    ensures RunFromStart(threads, actions, hash).answers == ResultsFromStart(threads, actions, hash)
  {
    hide Run, Results;
    AnswersAreResults(Initial(threads), actions, hash, seq(threads, _ => None));
  }

  // ------------------------------------------------------------------ keys and cells

  /** A stored key is the content of its cell on the path, and of no cell before it. */
  lemma PlaceOnPath(tables: seq<Table>, hash: Key -> u32, key: Key, i: nat, row: nat, col: nat)
    requires TreeOk(tables) && StoredOk(tables, hash) && Holds(tables, i, row, col, key)
    ensures col < CELLS && Follow(tables, hash(key), tables[i].depth) == Some(i) && RowAt(hash(key), tables[i].depth) == row
    ensures CellAt(tables, hash(key), CELLS * tables[i].depth + col) == Some(Some(key))
    ensures forall m: nat | m < CELLS * tables[i].depth + col :: CellAt(tables, hash(key), m) != Some(Some(key))
  {
    assert PlacedOk(tables, i, row, col, key, hash) && Shaped(tables[i]);
    CellHere(tables, hash(key), tables[i].depth, i, col);
    hide CellAt, Follow, RowAt, StoredOk, TreeOk;
  }

  /** A key is in one cell at most. */
  lemma KeyInOneCell(tables: seq<Table>, hash: Key -> u32, key: Key, i: nat, row: nat, col: nat, j: nat, row': nat, col': nat)
    requires TreeOk(tables) && StoredOk(tables, hash) && Holds(tables, i, row, col, key) && Holds(tables, j, row', col', key)
    ensures i == j && row == row' && col == col'
  {
    hide CellAt, Follow, RowAt, StoredOk, TreeOk;
    PlaceOnPath(tables, hash, key, i, row, col);
    PlaceOnPath(tables, hash, key, j, row', col');
    var n, n' := CELLS * tables[i].depth + col, CELLS * tables[j].depth + col';
    assert n == n';
    assert tables[i].depth == tables[j].depth;
  }

  /** Cells of a row are taken from left to right. */
  lemma CellsFillInOrder(tables: seq<Table>, hash: Key -> u32, key: Key, i: nat, row: nat, col: nat, before: nat)
    requires TreeOk(tables) && StoredOk(tables, hash) && Holds(tables, i, row, col, key) && before < col
    ensures tables[i].rows[row].keys[before].Some?
  {
    assert PlacedOk(tables, i, row, col, key, hash) && Shaped(tables[i]);
    CellHere(tables, hash(key), tables[i].depth, i, before);
    hide CellAt, Follow, RowAt, StoredOk, TreeOk;
  }

  /** Different cells have different indices. */
  lemma IndexOfOneCell(s: Dict, i: nat, row: nat, col: nat, j: nat, row': nat, col': nat)
    requires BasesOk(s) && i < |s.tables| && j < |s.tables| && row < ROWS && row' < ROWS && col < CELLS && col' < CELLS
    requires Index(s.tables[i].base, row, col) == Index(s.tables[j].base, row', col')
    ensures i == j && row == row' && col == col'
  {
    var b, b' := s.tables[i].base, s.tables[j].base;
    assert b % 384 == 1 && b' % 384 == 1;
    assert i == j || b != b';
    hide BasesOk;
    SameRange(b, b', col * 128 + row, col' * 128 + row');
  }

  lemma SameRange(b: nat, b': nat, x: nat, x': nat)
    requires b % 384 == 1 && b' % 384 == 1 && x < 384 && x' < 384 && b + x == b' + x'
    ensures b == b' && x == x'
  {
  }

  /** Over every interleaving: lookups of equal keys return equal indices, and lookups of different keys different ones. */
  lemma LookupIsInjective(threads: nat, actions: seq<Action>, hash: Key -> u32, m: nat, n: nat)
    requires var r := ResultsFromStart(threads, actions, hash); m < |r| && n < |r|
    ensures var r := ResultsFromStart(threads, actions, hash); r[m].0 == r[n].0 <==> r[m].1 == r[n].1
  {
    hide RunFromStart, ResultsFromStart;
    RunInv(threads, actions, hash);
    AnsweredAsAsked(threads, actions, hash);
    var s := RunFromStart(threads, actions, hash);
    var (k, a) := s.answers[m];
    var (k', b) := s.answers[n];
    assert AnswerOk(s.tables, k, a) && AnswerOk(s.tables, k', b);
    var i: nat, row: nat, col: nat :| Holds(s.tables, i, row, col, k) && a == Index(s.tables[i].base, row, col);
    var j: nat, row': nat, col': nat :| Holds(s.tables, j, row', col', k') && b == Index(s.tables[j].base, row', col');
    assert Shaped(s.tables[i]) && Shaped(s.tables[j]);
    hide StoredOk, BasesOk, LookupOk, AnswerOk;
    if k == k' { KeyInOneCell(s.tables, hash, k, i, row, col, j, row', col'); }
    if a == b { IndexOfOneCell(s, i, row, col, j, row', col'); }
  }

  /** Indices are positive, and while the base counter leaves room for one more table they fit their 32-bit type. */
  lemma AnswersFit(threads: nat, actions: seq<Action>, hash: Key -> u32, n: nat)
    requires n < |ResultsFromStart(threads, actions, hash)| && RunFromStart(threads, actions, hash).baseIndex + TABLE_CAPACITY <= 0x1_0000_0000
    ensures 0 < ResultsFromStart(threads, actions, hash)[n].1 < 0x1_0000_0000
  {
    hide RunFromStart, ResultsFromStart;
    RunInv(threads, actions, hash);
    AnsweredAsAsked(threads, actions, hash);
    var s := RunFromStart(threads, actions, hash);
    var (k, a) := s.answers[n];
    assert AnswerOk(s.tables, k, a);
    var i: nat, row: nat, col: nat :| Holds(s.tables, i, row, col, k) && a == Index(s.tables[i].base, row, col);
    assert Shaped(s.tables[i]);
    hide StoredOk, LookupOk, AnswerOk;
  }

  // ------------------------------------------------------------------ collecting

  /** The cells before column `c` of a row. */
  function RowEntries(tables: seq<Table>, i: nat, row: nat, c: nat): map<nat, Key>
    requires i < |tables| && Shaped(tables[i]) && row < ROWS && c <= CELLS
  {
    if c == 0 then map[]
    else
      var cell := tables[i].rows[row].keys[c - 1];
      if cell.Some? then RowEntries(tables, i, row, c - 1)[Index(tables[i].base, row, c - 1) := cell.value]
      else RowEntries(tables, i, row, c - 1)
  }

  /** The rows before `row` of a table, with everything below them. */
  ghost function Entries(tables: seq<Table>, i: nat, row: nat): map<nat, Key>
    requires TreeOk(tables) && i < |tables| && row <= ROWS
    decreases |tables| - i, row
  {
    if row == 0 then map[]
    else
      assert Shaped(tables[i]) && LinkOk(tables, i, row - 1);
      var next := tables[i].rows[row - 1].next;
      Entries(tables, i, row - 1) + RowEntries(tables, i, row - 1, CELLS) + (if next.Some? then Entries(tables, next.value, ROWS) else map[])
  }

  lemma Joined(a: map<nat, Key>, b: map<nat, Key>, c: map<nat, Key>, d: map<nat, Key>)
    ensures ((a + b) + c) + d == a + ((b + c) + d)
    ensures d == map[] ==> (a + b) + c == a + ((b + c) + d)
  {
  }

  /** The inner loop of `collect`. */
  method CollectRow(tables: seq<Table>, i: nat, row: nat, found: map<nat, Key>) returns (r: map<nat, Key>)
    requires i < |tables| && Shaped(tables[i]) && row < ROWS
    ensures r == found + RowEntries(tables, i, row, CELLS)
  {
    r := found;
    var col := 0;
    while col < CELLS
      invariant col <= CELLS && r == found + RowEntries(tables, i, row, col)
    {
      var cell := tables[i].rows[row].keys[col];
      if cell.Some? { r := r[Index(tables[i].base, row, col) := cell.value]; }
      col := col + 1;
    }
  }

  /** `collect` on one table and the tables below it. */
  method Collect(tables: seq<Table>, i: nat, found: map<nat, Key>) returns (r: map<nat, Key>)
    requires TreeOk(tables) && i < |tables|
    ensures r == found + Entries(tables, i, ROWS)
    decreases |tables| - i
  {
    assert Shaped(tables[i]);
    assert Entries(tables, i, 0) == map[];
    hide TreeOk, RowEntries, Entries;
    r := found;
    var row := 0;
    while row < ROWS
      invariant row <= ROWS && r == found + Entries(tables, i, row)
    {
      EntriesNext(tables, i, row);
      ghost var before, here := Entries(tables, i, row), RowEntries(tables, i, row, CELLS);
      r := CollectRow(tables, i, row, r);
      var next := tables[i].rows[row].next;
      if next.Some? {
        Joined(found, before, here, Entries(tables, next.value, ROWS));
        r := Collect(tables, next.value, r);
      } else {
        Joined(found, before, here, map[]);
      }
      row := row + 1;
    }
  }

  lemma EntriesNext(tables: seq<Table>, i: nat, row: nat)
    requires TreeOk(tables) && i < |tables| && Shaped(tables[i]) && row < ROWS
    ensures LinkOk(tables, i, row)
    ensures var next := tables[i].rows[row].next;
      Entries(tables, i, row + 1)
        == Entries(tables, i, row) + RowEntries(tables, i, row, CELLS) + (if next.Some? then Entries(tables, next.value, ROWS) else map[])
  {
  }

  lemma {:induction false} RowEntriesSound(tables: seq<Table>, i: nat, row: nat, c: nat, n: nat) returns (col: nat)
    requires i < |tables| && Shaped(tables[i]) && row < ROWS && c <= CELLS && n in RowEntries(tables, i, row, c)
    ensures Holds(tables, i, row, col, RowEntries(tables, i, row, c)[n]) && n == Index(tables[i].base, row, col)
  {
    var cell := tables[i].rows[row].keys[c - 1];
    if cell.Some? && n == Index(tables[i].base, row, c - 1) {
      col := c - 1;
    } else {
      col := RowEntriesSound(tables, i, row, c - 1, n);
    }
  }

  /** Everything collected is in a cell with that index. */
  lemma {:induction false} EntriesSound(tables: seq<Table>, i: nat, row: nat, n: nat) returns (j: nat, r: nat, c: nat)
    requires TreeOk(tables) && i < |tables| && row <= ROWS && n in Entries(tables, i, row)
    ensures Holds(tables, j, r, c, Entries(tables, i, row)[n]) && n == Index(tables[j].base, r, c)
    decreases |tables| - i, row
  {
    assert Shaped(tables[i]);
    EntriesNext(tables, i, row - 1);
    hide TreeOk, Entries;
    var next := tables[i].rows[row - 1].next;
    if next.Some? && n in Entries(tables, next.value, ROWS) {
      j, r, c := EntriesSound(tables, next.value, ROWS, n);
    } else if n in RowEntries(tables, i, row - 1, CELLS) {
      j, r := i, row - 1;
      c := RowEntriesSound(tables, i, row - 1, CELLS, n);
    } else {
      j, r, c := EntriesSound(tables, i, row - 1, n);
    }
  }

  lemma {:induction false} RowEntriesComplete(tables: seq<Table>, i: nat, row: nat, c: nat, col: nat)
    requires i < |tables| && Shaped(tables[i]) && row < ROWS && col < c <= CELLS && tables[i].rows[row].keys[col].Some?
    ensures Index(tables[i].base, row, col) in RowEntries(tables, i, row, c)
  {
    if col < c - 1 { RowEntriesComplete(tables, i, row, c - 1, col); }
  }

  lemma {:induction false} EntriesMonotone(tables: seq<Table>, i: nat, row: nat, row': nat)
    requires TreeOk(tables) && i < |tables| && row <= row' <= ROWS
    ensures Entries(tables, i, row).Keys <= Entries(tables, i, row').Keys
    decreases row' - row
  {
    if row < row' {
      assert Shaped(tables[i]);
      EntriesNext(tables, i, row);
      EntriesMonotone(tables, i, row + 1, row');
      hide TreeOk, Entries, RowEntries;
    }
  }

  /** Every stored key is collected, from any table on its path. */
  lemma {:induction false} EntriesComplete(tables: seq<Table>, h: u32, depth: nat, i: nat, j: nat, col: nat)
    requires TreeOk(tables) && i < |tables| && j < |tables| && depth <= tables[j].depth
    requires Follow(tables, h, depth) == Some(i) && Follow(tables, h, tables[j].depth) == Some(j)
    requires Shaped(tables[j]) && col < CELLS && tables[j].rows[RowAt(h, tables[j].depth)].keys[col].Some?
    ensures Index(tables[j].base, RowAt(h, tables[j].depth), col) in Entries(tables, i, ROWS)
    decreases tables[j].depth - depth
  {
    var row := RowAt(h, depth);
    assert Shaped(tables[i]);
    EntriesNext(tables, i, row);
    EntriesMonotone(tables, i, row + 1, ROWS);
    if depth == tables[j].depth {
      RowEntriesComplete(tables, j, row, CELLS, col);
      hide TreeOk, Entries, RowEntries, Follow, RowAt;
    } else {
      NextOnPath(tables, h, depth, i, tables[j].depth);
      hide TreeOk, Entries, RowEntries, Follow, RowAt;
      EntriesComplete(tables, h, depth + 1, tables[i].rows[row].next.value, j, col);
    }
  }

  /** A path that goes on does so through the row's link. */
  lemma {:induction false} NextOnPath(tables: seq<Table>, h: u32, depth: nat, i: nat, goal: nat)
    requires TreeOk(tables) && i < |tables| && Shaped(tables[i]) && Follow(tables, h, depth) == Some(i) && depth < goal && Follow(tables, h, goal).Some?
    ensures var next := tables[i].rows[RowAt(h, depth)].next; next.Some? && next.value < |tables| && Follow(tables, h, depth + 1) == next
    decreases goal
  {
    assert LinkOk(tables, i, RowAt(h, depth));
    if depth + 1 < goal { NextOnPath(tables, h, depth, i, goal - 1); }
  }

  /** Collecting a dictionary gives exactly the inverse of what its lookups answered and stored. */
  lemma CollectInvertsLookup(threads: nat, actions: seq<Action>, hash: Key -> u32)
    ensures var s := RunFromStart(threads, actions, hash); var r := ResultsFromStart(threads, actions, hash);
      && TreeOk(s.tables)
      && (forall n | 0 <= n < |r| :: r[n].1 in Entries(s.tables, 0, ROWS) && Entries(s.tables, 0, ROWS)[r[n].1] == r[n].0)
      && (forall index | index in Entries(s.tables, 0, ROWS) :: (Entries(s.tables, 0, ROWS)[index], index) in r)
  {
    hide RunFromStart, ResultsFromStart;
    RunInv(threads, actions, hash);
    AnsweredAsAsked(threads, actions, hash);
    var s := RunFromStart(threads, actions, hash);
    var all := Entries(s.tables, 0, ROWS);
    forall n | 0 <= n < |s.answers| ensures s.answers[n].1 in all && all[s.answers[n].1] == s.answers[n].0 {
      AnswerCollected(s, hash, n);
    }
    AllAnswered(threads, actions, hash);
    forall index | index in all ensures (all[index], index) in s.answers {
      var j, r, c := EntriesSound(s.tables, 0, ROWS, index);
    }
    hide Inv, Entries, AnswerOk;
  }

  /** Every stored key was returned to the lookup that stored it. */
  ghost predicate StoredAnswered(s: Dict) {
    forall i: nat, row: nat, col: nat, key: Key | Holds(s.tables, i, row, col, key) :: (key, Index(s.tables[i].base, row, col)) in s.answers
  }

  lemma ClaimAnswered(s: Dict, t: nat, p: Lookup, row: nat)
    requires StoredAnswered(s) && t < |s.lookups| && p.Claiming? && HasRow(s, p.table, row) && p.col < CELLS
    ensures StoredAnswered(AfterClaim(s, t, p, row))
  {
    var s' := AfterClaim(s, t, p, row);
    forall i: nat, r: nat, c: nat, key: Key | Holds(s'.tables, i, r, c, key) ensures (key, Index(s'.tables[i].base, r, c)) in s'.answers {
      if Holds(s.tables, i, r, c, key) { assert (key, Index(s.tables[i].base, r, c)) in s.answers; }
    }
  }

  lemma LinkAnswered(s: Dict, t: nat, p: Lookup, row: nat)
    requires StoredAnswered(s) && t < |s.lookups| && p.Linking? && HasRow(s, p.table, row)
    ensures StoredAnswered(AfterLink(s, t, p, row))
  {
    var s' := AfterLink(s, t, p, row);
    forall i: nat, r: nat, c: nat, key: Key | Holds(s'.tables, i, r, c, key) ensures (key, Index(s'.tables[i].base, r, c)) in s'.answers {
      assert Holds(s.tables, i, r, c, key);
    }
  }

  lemma AnsweredStep(s: Dict, a: Action, hash: Key -> u32)
    requires StoredAnswered(s)
    ensures StoredAnswered(Step(s, a, hash))
  {
    hide AfterClaim, AfterLink, RowAt, KeyEquals;
    if a.t < |s.lookups| && !AtRest(s.lookups[a.t]) {
      var p := s.lookups[a.t];
      var row := RowAt(hash(p.key), p.depth);
      if HasRow(s, p.table, row) {
        if p.Claiming? && p.col < CELLS { ClaimAnswered(s, a.t, p, row); }
        if p.Linking? { LinkAnswered(s, a.t, p, row); }
      }
    }
  }

  lemma {:induction false} AnsweredRun(s: Dict, actions: seq<Action>, hash: Key -> u32)
    requires StoredAnswered(s)
    ensures StoredAnswered(Run(s, actions, hash))
    decreases |actions|
  {
    hide StoredAnswered, Step;
    if actions != [] {
      AnsweredStep(s, actions[0], hash);
      AnsweredRun(Step(s, actions[0], hash), actions[1..], hash);
    }
  }

  lemma AllAnswered(threads: nat, actions: seq<Action>, hash: Key -> u32)
    ensures StoredAnswered(RunFromStart(threads, actions, hash))
  {
    assert StoredAnswered(Initial(threads));
    hide StoredAnswered, Run;
    AnsweredRun(Initial(threads), actions, hash);
  }

  lemma AnswerCollected(s: Dict, hash: Key -> u32, n: nat)
    requires Inv(s, hash) && n < |s.answers|
    ensures s.answers[n].1 in Entries(s.tables, 0, ROWS) && Entries(s.tables, 0, ROWS)[s.answers[n].1] == s.answers[n].0
  {
    var (key, index) := s.answers[n];
    assert AnswerOk(s.tables, key, index);
    var i: nat, row: nat, col: nat :| Holds(s.tables, i, row, col, key) && index == Index(s.tables[i].base, row, col);
    assert PlacedOk(s.tables, i, row, col, key, hash) && Shaped(s.tables[i]) && Follow(s.tables, hash(key), 0) == Some(0);
    hide LookupOk, AnswerOk, Follow, RowAt, Passed, Entries, StoredOk, BasesOk;
    EntriesComplete(s.tables, hash(key), 0, 0, i, col);
    var j, r, c := EntriesSound(s.tables, 0, ROWS, index);
    assert Shaped(s.tables[j]);
    IndexOfOneCell(s, i, row, col, j, r, c);
  }
}

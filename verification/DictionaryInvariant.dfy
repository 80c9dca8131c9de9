/** What every interleaving of lookups keeps. */
module DictionaryInvariant {
  import opened Bytes
  import opened Dictionary

  predicate Shaped(tb: Table) {
    |tb.rows| == ROWS && forall r | 0 <= r < ROWS :: |tb.rows[r].keys| == CELLS
  }

  /** The table at the given depth of the path that a hash takes. */
  function Follow(tables: seq<Table>, h: u32, depth: nat): Option<nat> {
    if depth == 0 then (if tables == [] then None else Some(0))
    else
      match Follow(tables, h, depth - 1)
      case None => None
      case Some(i) =>
        if i < |tables| && RowAt(h, depth - 1) < |tables[i].rows| then tables[i].rows[RowAt(h, depth - 1)].next else None
  }

  /** The `n`-th cell on the path of a hash: `None` if there is none, otherwise its content. */
  function CellAt(tables: seq<Table>, h: u32, n: nat): Option<Option<Key>> {
    match Follow(tables, h, n / CELLS)
    case None => None
    case Some(i) =>
      var row := RowAt(h, n / CELLS);
      if i < |tables| && row < |tables[i].rows| && n % CELLS < |tables[i].rows[row].keys| then Some(tables[i].rows[row].keys[n % CELLS]) else None
  }

  /** All cells before the `n`-th on the path of `key` hold other keys. */
  ghost predicate Passed(tables: seq<Table>, key: Key, h: u32, n: nat) {
    forall m: nat | m < n :: CellAt(tables, h, m).Some? && CellAt(tables, h, m).value.Some? && CellAt(tables, h, m).value.value != key
  }

  predicate Holds(tables: seq<Table>, i: nat, row: nat, col: nat, key: Key) {
    i < |tables| && row < |tables[i].rows| && col < |tables[i].rows[row].keys| && tables[i].rows[row].keys[col] == Some(key)
  }

  /** A stored key is on its own path, behind other keys only. */
  ghost predicate PlacedOk(tables: seq<Table>, i: nat, row: nat, col: nat, key: Key, hash: Key -> u32)
    requires i < |tables|
  {
    var d := tables[i].depth;
    Follow(tables, hash(key), d) == Some(i) && RowAt(hash(key), d) == row && Passed(tables, key, hash(key), CELLS * d + col)
  }

  ghost predicate StoredOk(tables: seq<Table>, hash: Key -> u32) {
    forall i: nat, row: nat, col: nat, key: Key | Holds(tables, i, row, col, key) :: PlacedOk(tables, i, row, col, key, hash)
  }

  predicate LinkOk(tables: seq<Table>, i: nat, row: nat)
    requires i < |tables| && row < |tables[i].rows|
  {
    tables[i].rows[row].next.Some? ==>
      var j := tables[i].rows[row].next.value;
      i < j < |tables| && tables[j].depth == tables[i].depth + 1
  }

  ghost predicate TreeOk(tables: seq<Table>) {
    && |tables| > 0 && tables[0].depth == 0
    && (forall i | 0 <= i < |tables| :: Shaped(tables[i]))
    && (forall i, row | 0 <= i < |tables| && 0 <= row < |tables[i].rows| :: LinkOk(tables, i, row))
  }

  /** Every index range was taken once. */
  ghost predicate BasesOk(s: Dict) {
    && s.baseIndex % 384 == 1
    && (forall i | 0 <= i < |s.tables| :: 1 <= s.tables[i].base <= s.baseIndex && s.tables[i].base % 384 == 1)
    && (forall i, j | 0 <= i < j < |s.tables| :: s.tables[i].base != s.tables[j].base)
    && (forall t | 0 <= t < |s.lookups| && s.lookups[t].Linking? ::
          && 1 <= s.lookups[t].base <= s.baseIndex && s.lookups[t].base % 384 == 1
          && (forall i | 0 <= i < |s.tables| :: s.tables[i].base != s.lookups[t].base))
    && (forall t, u | 0 <= t < u < |s.lookups| && s.lookups[t].Linking? && s.lookups[u].Linking? :: s.lookups[t].base != s.lookups[u].base)
  }

  predicate InRow(p: Lookup) { p.Scanning? || p.Claiming? || p.Comparing? }

  /** How many cells are behind a lookup. */
  function Position(p: Lookup): nat
    requires !p.Idle? && !p.Returned?
  {
    CELLS * p.depth + (if InRow(p) then p.col else CELLS)
  }

  ghost predicate LookupOk(p: Lookup, tables: seq<Table>, hash: Key -> u32) {
    && (!p.Idle? && !p.Returned? ==>
          && Follow(tables, hash(p.key), p.depth) == Some(p.table) && p.table < |tables| && tables[p.table].depth == p.depth
          && (InRow(p) ==> p.col < CELLS)
          && Passed(tables, p.key, hash(p.key), Position(p)))
    && (p.Comparing? ==> exists key :: Holds(tables, p.table, RowAt(hash(p.key), p.depth), p.col, key))
  }

  /** An answer is the index of a cell that holds the key. */
  ghost predicate AnswerOk(tables: seq<Table>, key: Key, index: nat) {
    exists i: nat, row: nat, col: nat :: Holds(tables, i, row, col, key) && index == Index(tables[i].base, row, col)
  }

  ghost predicate Inv(s: Dict, hash: Key -> u32) {
    && TreeOk(s.tables) && BasesOk(s) && StoredOk(s.tables, hash)
    && (forall t | 0 <= t < |s.lookups| :: LookupOk(s.lookups[t], s.tables, hash))
    && (forall n | 0 <= n < |s.answers| :: AnswerOk(s.tables, s.answers[n].0, s.answers[n].1))
  }

  // ------------------------------------------------------------------ comparing keys

  /** The bytes before the first terminator. */
  function CString(s: seq<byte>): seq<byte> { if s == [] || s[0] == 0 then [] else [s[0]] + CString(s[1..]) }

  function Cut(s: seq<byte>, n: nat): seq<byte> { if n < |s| then s[..n] else s }

  lemma {:induction false} SamePrefixExact(a: seq<byte>, b: seq<byte>)
    ensures SamePrefix(a + [0], b + [0], |b|) <==> Cut(CString(a), |b|) == CString(b)
    decreases |b|
  {
    if b != [] && a != [] && a[0] == b[0] != 0 {
      SamePrefixExact(a[1..], b[1..]);
      assert (a + [0])[1..] == a[1..] + [0] && (b + [0])[1..] == b[1..] + [0];
      var x, y := CString(a[1..]), CString(b[1..]);
      assert ([a[0]] + x)[1..] == x && ([b[0]] + y)[1..] == y;
      assert Cut([a[0]] + x, |b|) == [a[0]] + Cut(x, |b| - 1);
      hide CString;
    } else if b == [] {
      assert Cut(CString(a), 0) == [];
    } else if a == [] {
      assert (a + [0])[0] == 0 && (b + [0])[0] == b[0];
    } else {
      assert (a + [0])[0] == a[0] && (b + [0])[0] == b[0];
      assert a[0] != 0 ==> Cut(CString(a), |b|) != [] && Cut(CString(a), |b|)[0] == a[0];
      assert b[0] != 0 ==> CString(b) != [] && CString(b)[0] == b[0];
    }
  }

  /** `keyEquals` on any bytes: the strings agree up to the key's length, where the candidate ends or has a terminator. */
  lemma KeyEqualsIs(candidate: seq<byte>, key: seq<byte>)
    ensures KeyEquals(candidate, key) <==>
      |key| <= |candidate| && (candidate + [0])[|key|] == 0 && Cut(CString(candidate), |key|) == CString(key)
  {
    SamePrefixExact(candidate, key);
    hide SamePrefix, CString, Cut;
  }

  lemma {:induction false} CStringParts(s: seq<byte>)
    ensures CString(s) <= s && 0 !in CString(s) && (0 !in s <==> CString(s) == s)
    ensures |CString(s)| < |s| ==> s[|CString(s)|] == 0
  {
    if s != [] && s[0] != 0 {
      CStringParts(s[1..]);
      assert s == [s[0]] + s[1..];
    }
  }

  lemma {:induction false} CStringPrefix(s: seq<byte>, n: nat)
    requires n <= |s| && 0 !in s[..n]
    ensures n <= |CString(s)| && CString(s)[..n] == s[..n]
    decreases n
  {
    if n > 0 {
      assert s[0] == s[..n][0] && s[1..][..n - 1] == s[..n][1..];
      CStringPrefix(s[1..], n - 1);
    }
  }

  /**
   The keys that are confused with a stored one, exactly: the stored key goes on with a terminator, or both have one
   at the same place inside.
   */
  lemma ConfusedExact(candidate: seq<byte>, key: seq<byte>)
    ensures candidate != key && KeyEquals(candidate, key) <==>
      && candidate != key && |key| <= |candidate| && (|key| < |candidate| ==> candidate[|key|] == 0)
      && (if 0 in key then CString(candidate) == CString(key) else key <= candidate)
  {
    KeyEqualsIs(candidate, key);
    CStringParts(candidate);
    CStringParts(key);
    hide KeyEquals, CString;
    if 0 !in key && key <= candidate { CStringPrefix(candidate, |key|); }
  }

  /** On stored keys without a terminator inside, `keyEquals` is equality. */
  lemma KeyEqualsExact(candidate: Key, key: Key)
    ensures KeyEquals(candidate, key) <==> candidate == key
  {
    ConfusedExact(candidate, key);
    KeyEqualsIs(candidate, key);
    CStringParts(key);
    hide KeyEquals, CString;
  }

  /** Every key is confused with one that goes on behind a terminator, and keys that begin with one with all others of their length. */
  lemma TerminatorInsideConfuses(key: Key, more: seq<byte>, x: byte, y: byte)
    requires x != y
    ensures key + [0] + more != key && KeyEquals(key + [0] + more, key)
    ensures [0, x] != [0, y] && KeyEquals([0, x], [0, y])
  {
    var longer := key + [0] + more;
    assert |longer| > |key| && longer[..|key|] == key && longer[|key|] == 0;
    ConfusedExact(longer, key);
    ConfusedExact([0, x], [0, y]);
    assert [0, x][1] != [0, y][1];
    assert CString([0, x]) == [] && CString([0, y]) == [];
    hide KeyEquals;
  }

  // ------------------------------------------------------------------ growth

  predicate RowGrows(a: Row, b: Row) {
    && |a.keys| == |b.keys|
    && (forall c | 0 <= c < |a.keys| && a.keys[c].Some? :: b.keys[c] == a.keys[c])
    && (a.next.Some? ==> b.next == a.next)
  }

  predicate TableGrows(a: Table, b: Table) {
    && a.base == b.base && a.depth == b.depth && |a.rows| == |b.rows|
    && (forall r | 0 <= r < |a.rows| :: RowGrows(a.rows[r], b.rows[r]))
  }

  predicate Grows(a: seq<Table>, b: seq<Table>) {
    |a| <= |b| && forall i | 0 <= i < |a| :: TableGrows(a[i], b[i])
  }

  lemma {:induction false} FollowGrows(a: seq<Table>, b: seq<Table>, h: u32, depth: nat)
    requires Grows(a, b) && Follow(a, h, depth).Some?
    ensures Follow(b, h, depth) == Follow(a, h, depth)
  {
    if depth > 0 {
      FollowGrows(a, b, h, depth - 1);
      var i := Follow(a, h, depth - 1).value;
      assert TableGrows(a[i], b[i]);
      assert RowGrows(a[i].rows[RowAt(h, depth - 1)], b[i].rows[RowAt(h, depth - 1)]);
    }
  }

  lemma CellGrows(a: seq<Table>, b: seq<Table>, h: u32, n: nat)
    requires Grows(a, b) && CellAt(a, h, n).Some? && CellAt(a, h, n).value.Some?
    ensures CellAt(b, h, n) == CellAt(a, h, n)
  {
    FollowGrows(a, b, h, n / CELLS);
    var i := Follow(a, h, n / CELLS).value;
    assert TableGrows(a[i], b[i]);
    assert RowGrows(a[i].rows[RowAt(h, n / CELLS)], b[i].rows[RowAt(h, n / CELLS)]);
    hide Follow, RowAt;
  }

  lemma PassedGrows(a: seq<Table>, b: seq<Table>, key: Key, h: u32, n: nat)
    requires Grows(a, b) && Passed(a, key, h, n)
    ensures Passed(b, key, h, n)
  {
    hide CellAt, Grows;
    forall m: nat | m < n ensures CellAt(b, h, m) == CellAt(a, h, m) { CellGrows(a, b, h, m); }
  }

  lemma HoldsGrows(a: seq<Table>, b: seq<Table>, i: nat, row: nat, col: nat, key: Key)
    requires Grows(a, b) && Holds(a, i, row, col, key)
    ensures Holds(b, i, row, col, key) && a[i].base == b[i].base && a[i].depth == b[i].depth
  {
    assert TableGrows(a[i], b[i]);
    assert RowGrows(a[i].rows[row], b[i].rows[row]);
  }

  lemma LookupGrows(p: Lookup, a: seq<Table>, b: seq<Table>, hash: Key -> u32)
    requires Grows(a, b) && LookupOk(p, a, hash)
    ensures LookupOk(p, b, hash)
  {
    if !p.Idle? && !p.Returned? {
      FollowGrows(a, b, hash(p.key), p.depth);
      PassedGrows(a, b, p.key, hash(p.key), Position(p));
      assert TableGrows(a[p.table], b[p.table]);
    }
    if p.Comparing? {
      var key :| Holds(a, p.table, RowAt(hash(p.key), p.depth), p.col, key);
      HoldsGrows(a, b, p.table, RowAt(hash(p.key), p.depth), p.col, key);
    }
    hide Follow, Passed, RowAt, Grows;
  }

  lemma AnswerGrows(a: seq<Table>, b: seq<Table>, key: Key, index: nat)
    requires Grows(a, b) && AnswerOk(a, key, index)
    ensures AnswerOk(b, key, index)
  {
    var i: nat, row: nat, col: nat :| Holds(a, i, row, col, key) && index == Index(a[i].base, row, col);
    HoldsGrows(a, b, i, row, col, key);
    hide Grows;
  }

  lemma PlacedGrows(a: seq<Table>, b: seq<Table>, i: nat, row: nat, col: nat, key: Key, hash: Key -> u32)
    requires Grows(a, b) && i < |a| && PlacedOk(a, i, row, col, key, hash)
    ensures PlacedOk(b, i, row, col, key, hash)
  {
    assert TableGrows(a[i], b[i]);
    FollowGrows(a, b, hash(key), a[i].depth);
    PassedGrows(a, b, key, hash(key), CELLS * a[i].depth + col);
    hide Follow, Passed, RowAt, Grows;
  }

  lemma GrowsSelf(a: seq<Table>)
    ensures Grows(a, a)
  {
  }

  /** Putting the parts together after lookup `t` moved. */
  lemma Reassemble(s: Dict, s': Dict, t: nat, hash: Key -> u32)
    requires Inv(s, hash) && t < |s.lookups| == |s'.lookups| && s'.lookups == s.lookups[t := s'.lookups[t]]
    requires Grows(s.tables, s'.tables) && TreeOk(s'.tables) && BasesOk(s') && StoredOk(s'.tables, hash)
    requires LookupOk(s'.lookups[t], s'.tables, hash)
    requires s.answers <= s'.answers
    requires forall n | |s.answers| <= n < |s'.answers| :: AnswerOk(s'.tables, s'.answers[n].0, s'.answers[n].1)
    ensures Inv(s', hash)
  {
    hide TreeOk, BasesOk, StoredOk, LookupOk, AnswerOk, Grows;
    forall u | 0 <= u < |s'.lookups| ensures LookupOk(s'.lookups[u], s'.tables, hash) {
      if u != t { LookupGrows(s.lookups[u], s.tables, s'.tables, hash); }
    }
    forall n | 0 <= n < |s'.answers| ensures AnswerOk(s'.tables, s'.answers[n].0, s'.answers[n].1) {
      if n < |s.answers| { AnswerGrows(s.tables, s'.tables, s.answers[n].0, s.answers[n].1); }
    }
  }

  /** A step that touches no table and takes no index range. */
  lemma LocalKeeps(s: Dict, s': Dict, t: nat, hash: Key -> u32)
    requires Inv(s, hash) && t < |s.lookups| == |s'.lookups| && s'.lookups == s.lookups[t := s'.lookups[t]]
    requires s'.tables == s.tables && s'.baseIndex == s.baseIndex && !s'.lookups[t].Linking?
    requires LookupOk(s'.lookups[t], s'.tables, hash)
    requires s.answers <= s'.answers
    requires forall n | |s.answers| <= n < |s'.answers| :: AnswerOk(s'.tables, s'.answers[n].0, s'.answers[n].1)
    ensures Inv(s', hash)
  {
    GrowsSelf(s.tables);
    hide TreeOk, StoredOk, LookupOk, AnswerOk, Grows;
    assert BasesOk(s');
    Reassemble(s, s', t, hash);
  }

  // ------------------------------------------------------------------ steps

  /** The cell a lookup is at, as a cell of its path. */
  lemma CellHere(tables: seq<Table>, h: u32, depth: nat, i: nat, col: nat)
    requires Follow(tables, h, depth) == Some(i) && i < |tables| && Shaped(tables[i]) && col < CELLS
    ensures CellAt(tables, h, CELLS * depth + col) == Some(tables[i].rows[RowAt(h, depth)].keys[col])
  {
    hide Follow, RowAt;
    assert (CELLS * depth + col) / CELLS == depth && (CELLS * depth + col) % CELLS == col;
  }

  lemma AtRow(s: Dict, t: nat, hash: Key -> u32)
    requires Inv(s, hash) && t < |s.lookups| && !s.lookups[t].Idle? && !s.lookups[t].Returned?
    ensures var p := s.lookups[t]; p.table < |s.tables| && Shaped(s.tables[p.table]) && HasRow(s, p.table, RowAt(hash(p.key), p.depth))
  {
    assert LookupOk(s.lookups[t], s.tables, hash);
    hide Follow, Passed, RowAt, BasesOk, StoredOk;
  }

  lemma ReadKeeps(s: Dict, t: nat, hash: Key -> u32)
    requires Inv(s, hash) && t < |s.lookups| && s.lookups[t].Scanning? && s.lookups[t].col < CELLS
    requires HasRow(s, s.lookups[t].table, RowAt(hash(s.lookups[t].key), s.lookups[t].depth))
    ensures Inv(AfterRead(s, t, s.lookups[t], RowAt(hash(s.lookups[t].key), s.lookups[t].depth)), hash)
  {
    var p := s.lookups[t];
    var row := RowAt(hash(p.key), p.depth);
    var s' := AfterRead(s, t, p, row);
    assert LookupOk(p, s.tables, hash);
    hide Inv, Follow, Passed, RowAt;
    var cell := s.tables[p.table].rows[row].keys[p.col];
    if cell.Some? { assert Holds(s.tables, p.table, row, p.col, cell.value); }
    assert LookupOk(s'.lookups[t], s'.tables, hash);
    LocalKeeps(s, s', t, hash);
  }

  lemma PassedNext(tables: seq<Table>, key: Key, h: u32, n: nat)
    requires Passed(tables, key, h, n) && CellAt(tables, h, n).Some? && CellAt(tables, h, n).value.Some? && CellAt(tables, h, n).value.value != key
    ensures Passed(tables, key, h, n + 1)
  {
    hide CellAt;
  }

  /** A cell with another key is passed. */
  lemma OnwardOk(tables: seq<Table>, p: Lookup, other: Key, hash: Key -> u32)
    requires p.Comparing? && LookupOk(p, tables, hash) && Shaped(tables[p.table])
    requires tables[p.table].rows[RowAt(hash(p.key), p.depth)].keys[p.col] == Some(other) && other != p.key
    ensures LookupOk(Onward(p), tables, hash)
  {
    CellHere(tables, hash(p.key), p.depth, p.table, p.col);
    PassedNext(tables, p.key, hash(p.key), CELLS * p.depth + p.col);
    hide Passed, Follow, RowAt;
  }

  lemma CompareKeeps(s: Dict, t: nat, hash: Key -> u32)
    requires Inv(s, hash) && t < |s.lookups| && s.lookups[t].Comparing? && s.lookups[t].col < CELLS
    requires HasRow(s, s.lookups[t].table, RowAt(hash(s.lookups[t].key), s.lookups[t].depth))
    ensures Inv(AfterCompare(s, t, s.lookups[t], RowAt(hash(s.lookups[t].key), s.lookups[t].depth)), hash)
  {
    var p := s.lookups[t];
    var row := RowAt(hash(p.key), p.depth);
    var s' := AfterCompare(s, t, p, row);
    assert LookupOk(p, s.tables, hash);
    AtRow(s, t, hash);
    var cell := s.tables[p.table].rows[row].keys[p.col];
    assert cell.Some?;
    hide Inv, Follow, Passed, RowAt;
    KeyEqualsExact(cell.value, p.key);
    hide KeyEquals, LookupOk;
    if cell == Some(p.key) {
      assert Holds(s.tables, p.table, row, p.col, p.key);
      assert AnswerOk(s'.tables, p.key, Index(s.tables[p.table].base, row, p.col));
      ReturnedOk(p.key, Index(s.tables[p.table].base, row, p.col), s.tables, hash);
      hide AnswerOk;
      LocalKeeps(s, s', t, hash);
    } else {
      OnwardOk(s.tables, p, cell.value, hash);
      LocalKeeps(s, s', t, hash);
    }
  }

  lemma ReturnedOk(key: Key, index: nat, tables: seq<Table>, hash: Key -> u32)
    ensures LookupOk(Returned(key, index), tables, hash)
  {
  }

  lemma LinkMoves(s: Dict, a: Action, hash: Key -> u32)
    requires Inv(s, hash) && (a.ReadNext? || a.FollowNext?)
    ensures Inv(Step(s, a, hash), hash)
  {
    if a.t < |s.lookups| && (s.lookups[a.t].AtNext? || s.lookups[a.t].Following?) {
      var p, s' := s.lookups[a.t], Step(s, a, hash);
      AtRow(s, a.t, hash);
      assert LookupOk(p, s.tables, hash);
      var row := RowAt(hash(p.key), p.depth);
      if a.FollowNext? && p.Following? && s.tables[p.table].rows[row].next.Some? {
        assert LinkOk(s.tables, p.table, row);
        assert Follow(s.tables, hash(p.key), p.depth + 1) == s.tables[p.table].rows[row].next;
      }
      hide Inv, Passed, RowAt, Follow;
      if s' != s {
        assert LookupOk(s'.lookups[a.t], s'.tables, hash);
        hide LookupOk;
        LocalKeeps(s, s', a.t, hash);
      }
    }
  }

  lemma BeginKeeps(s: Dict, a: Action, hash: Key -> u32)
    requires Inv(s, hash) && a.Begin?
    ensures Inv(Step(s, a, hash), hash)
  {
    var s' := Step(s, a, hash);
    if a.t < |s.lookups| && (s.lookups[a.t].Idle? || s.lookups[a.t].Returned?) {
      assert LookupOk(s'.lookups[a.t], s'.tables, hash);
      hide Inv, LookupOk;
      LocalKeeps(s, s', a.t, hash);
    }
  }

  lemma TakeBases(s: Dict, s': Dict, t: nat)
    requires BasesOk(s) && t < |s.lookups| == |s'.lookups| && s'.lookups == s.lookups[t := s'.lookups[t]] && s'.tables == s.tables
    requires s'.baseIndex == s.baseIndex + TABLE_CAPACITY && s'.lookups[t].Linking? && s'.lookups[t].base == s'.baseIndex
    ensures BasesOk(s')
  {
  }

  lemma TakeKeeps(s: Dict, a: Action, hash: Key -> u32)
    requires Inv(s, hash) && a.TakeBase?
    ensures Inv(Step(s, a, hash), hash)
  {
    var s' := Step(s, a, hash);
    if a.t < |s.lookups| && s.lookups[a.t].Making? {
      AtRow(s, a.t, hash);
      assert LookupOk(s.lookups[a.t], s.tables, hash);
      assert LookupOk(s'.lookups[a.t], s'.tables, hash) by { hide Passed, Follow; }
      GrowsSelf(s.tables);
      hide LookupOk, TreeOk, StoredOk, AnswerOk, BasesOk, Grows, RowAt;
      TakeBases(s, s', a.t);
      Reassemble(s, s', a.t, hash);
    }
  }

  // ------------------------------------------------------------------ claiming a cell

  function Claimed(tables: seq<Table>, i: nat, row: nat, col: nat, key: Key): seq<Table>
    requires i < |tables| && row < |tables[i].rows| && col < |tables[i].rows[row].keys|
  {
    var r := tables[i].rows[row];
    tables[i := tables[i].(rows := tables[i].rows[row := r.(keys := r.keys[col := Some(key)])])]
  }

  lemma ClaimGrows(tables: seq<Table>, i: nat, row: nat, col: nat, key: Key)
    requires i < |tables| && row < |tables[i].rows| && col < |tables[i].rows[row].keys| && tables[i].rows[row].keys[col] == None
    ensures Grows(tables, Claimed(tables, i, row, col, key))
  {
    var b := Claimed(tables, i, row, col, key);
    forall j | 0 <= j < |tables| ensures TableGrows(tables[j], b[j]) {}
  }

  lemma ClaimTree(tables: seq<Table>, i: nat, row: nat, col: nat, key: Key)
    requires TreeOk(tables) && i < |tables| && row < |tables[i].rows| && col < |tables[i].rows[row].keys|
    ensures TreeOk(Claimed(tables, i, row, col, key))
  {
    var b := Claimed(tables, i, row, col, key);
    forall j | 0 <= j < |b| ensures Shaped(b[j]) { assert Shaped(tables[j]); }
    forall j, r | 0 <= j < |b| && 0 <= r < |b[j].rows| ensures LinkOk(b, j, r) { assert LinkOk(tables, j, r); }
  }

  lemma ClaimStored(tables: seq<Table>, i: nat, row: nat, col: nat, key: Key, hash: Key -> u32)
    requires i < |tables| && row < |tables[i].rows| && col < |tables[i].rows[row].keys| && tables[i].rows[row].keys[col] == None
    requires StoredOk(tables, hash) && PlacedOk(tables, i, row, col, key, hash)
    ensures StoredOk(Claimed(tables, i, row, col, key), hash)
  {
    var b := Claimed(tables, i, row, col, key);
    ClaimGrows(tables, i, row, col, key);
    hide PlacedOk, Grows;
    forall j: nat, r: nat, c: nat, k: Key | Holds(b, j, r, c, k) ensures PlacedOk(b, j, r, c, k, hash) {
      if j == i && r == row && c == col {
        PlacedGrows(tables, b, i, row, col, key, hash);
      } else {
        assert Holds(tables, j, r, c, k);
        PlacedGrows(tables, b, j, r, c, k, hash);
      }
    }
  }

  lemma BasesSame(s: Dict, s': Dict, t: nat)
    requires BasesOk(s) && t < |s.lookups| == |s'.lookups| && s'.lookups == s.lookups[t := s'.lookups[t]] && !s'.lookups[t].Linking?
    requires s'.baseIndex == s.baseIndex && |s'.tables| == |s.tables| && forall i | 0 <= i < |s.tables| :: s'.tables[i].base == s.tables[i].base
    ensures BasesOk(s')
  {
  }

  lemma ClaimKeeps(s: Dict, t: nat, hash: Key -> u32)
    requires Inv(s, hash) && t < |s.lookups| && s.lookups[t].Claiming? && s.lookups[t].col < CELLS
    requires HasRow(s, s.lookups[t].table, RowAt(hash(s.lookups[t].key), s.lookups[t].depth))
    ensures Inv(AfterClaim(s, t, s.lookups[t], RowAt(hash(s.lookups[t].key), s.lookups[t].depth)), hash)
  {
    var p := s.lookups[t];
    var row := RowAt(hash(p.key), p.depth);
    var s' := AfterClaim(s, t, p, row);
    assert LookupOk(p, s.tables, hash);
    var cell := s.tables[p.table].rows[row].keys[p.col];
    if cell.Some? {
      hide Inv, Follow, Passed, RowAt;
      assert Holds(s.tables, p.table, row, p.col, cell.value);
      assert LookupOk(s'.lookups[t], s'.tables, hash);
      LocalKeeps(s, s', t, hash);
    } else {
      assert PlacedOk(s.tables, p.table, row, p.col, p.key, hash) by { hide Follow, Passed, RowAt; }
      hide Follow, Passed, RowAt, TreeOk, StoredOk, PlacedOk, LookupOk, Grows;
      assert s'.tables == Claimed(s.tables, p.table, row, p.col, p.key);
      ClaimGrows(s.tables, p.table, row, p.col, p.key);
      ClaimTree(s.tables, p.table, row, p.col, p.key);
      ClaimStored(s.tables, p.table, row, p.col, p.key, hash);
      ClaimedAnswer(s, t, row, hash);
      hide BasesOk, AnswerOk;
      BasesSame(s, s', t);
      Reassemble(s, s', t, hash);
    }
  }

  lemma ClaimedAnswer(s: Dict, t: nat, row: nat, hash: Key -> u32)
    requires t < |s.lookups| && s.lookups[t].Claiming? && HasRow(s, s.lookups[t].table, row) && s.lookups[t].col < CELLS
    requires s.tables[s.lookups[t].table].rows[row].keys[s.lookups[t].col] == None
    ensures var p := s.lookups[t]; var s' := AfterClaim(s, t, p, row);
      && s'.lookups[t].Returned? && LookupOk(s'.lookups[t], s'.tables, hash)
      && s'.answers == s.answers + [(p.key, s'.lookups[t].index)]
      && AnswerOk(s'.tables, p.key, s'.lookups[t].index)
  {
    var p := s.lookups[t];
    var s' := AfterClaim(s, t, p, row);
    assert Holds(s'.tables, p.table, row, p.col, p.key);
  }

  // ------------------------------------------------------------------ linking a table

  function WithLink(tables: seq<Table>, i: nat, row: nat, base: nat): seq<Table>
    requires i < |tables| && row < |tables[i].rows|
  {
    tables[i := tables[i].(rows := tables[i].rows[row := tables[i].rows[row].(next := Some(|tables|))])] + [EmptyTable(base, tables[i].depth + 1)]
  }

  lemma LinkGrows(tables: seq<Table>, i: nat, row: nat, base: nat)
    requires i < |tables| && row < |tables[i].rows| && tables[i].rows[row].next == None
    ensures Grows(tables, WithLink(tables, i, row, base))
  {
    var b := WithLink(tables, i, row, base);
    forall j | 0 <= j < |tables| ensures TableGrows(tables[j], b[j]) {}
  }

  lemma LinkTree(tables: seq<Table>, i: nat, row: nat, base: nat)
    requires TreeOk(tables) && i < |tables| && row < |tables[i].rows|
    ensures TreeOk(WithLink(tables, i, row, base))
  {
    var b := WithLink(tables, i, row, base);
    forall j | 0 <= j < |b| ensures Shaped(b[j]) { if j < |tables| { assert Shaped(tables[j]); } }
    forall j, r | 0 <= j < |b| && 0 <= r < |b[j].rows| ensures LinkOk(b, j, r) {
      if j < |tables| { assert LinkOk(tables, j, r); }
    }
  }

  lemma LinkStored(tables: seq<Table>, i: nat, row: nat, base: nat, hash: Key -> u32)
    requires i < |tables| && row < |tables[i].rows| && tables[i].rows[row].next == None && StoredOk(tables, hash)
    ensures StoredOk(WithLink(tables, i, row, base), hash)
  {
    var b := WithLink(tables, i, row, base);
    LinkGrows(tables, i, row, base);
    hide PlacedOk, Grows;
    forall j: nat, r: nat, c: nat, k: Key | Holds(b, j, r, c, k) ensures PlacedOk(b, j, r, c, k, hash) {
      assert Holds(tables, j, r, c, k);
      PlacedGrows(tables, b, j, r, c, k, hash);
    }
  }

  lemma LinkBases(s: Dict, s': Dict, t: nat, base: nat)
    requires BasesOk(s) && t < |s.lookups| == |s'.lookups| && s'.lookups == s.lookups[t := s'.lookups[t]]
    requires s.lookups[t].Linking? && s.lookups[t].base == base && !s'.lookups[t].Linking? && s'.baseIndex == s.baseIndex
    requires |s'.tables| == |s.tables| + 1 && s'.tables[|s.tables|].base == base
    requires forall i | 0 <= i < |s.tables| :: s'.tables[i].base == s.tables[i].base
    ensures BasesOk(s')
  {
  }

  lemma LinkKeeps(s: Dict, t: nat, hash: Key -> u32)
    requires Inv(s, hash) && t < |s.lookups| && s.lookups[t].Linking?
    requires HasRow(s, s.lookups[t].table, RowAt(hash(s.lookups[t].key), s.lookups[t].depth))
    ensures Inv(AfterLink(s, t, s.lookups[t], RowAt(hash(s.lookups[t].key), s.lookups[t].depth)), hash)
  {
    var p := s.lookups[t];
    var row := RowAt(hash(p.key), p.depth);
    var s' := AfterLink(s, t, p, row);
    assert LookupOk(p, s.tables, hash);
    var following := Following(p.key, p.table, p.depth);
    assert LookupOk(following, s.tables, hash) by { hide Follow, Passed, RowAt; }
    hide Follow, Passed, RowAt, TreeOk, StoredOk, LookupOk, Grows, AnswerOk;
    if s.tables[p.table].rows[row].next.Some? {
      LocalKeeps(s, s', t, hash);
    } else {
      assert s'.tables == WithLink(s.tables, p.table, row, p.base);
      LinkGrows(s.tables, p.table, row, p.base);
      LookupGrows(following, s.tables, s'.tables, hash);
      LinkTree(s.tables, p.table, row, p.base);
      LinkStored(s.tables, p.table, row, p.base, hash);
      LinkBases(s, s', t, p.base);
      hide BasesOk, EmptyTable;
      Reassemble(s, s', t, hash);
    }
  }

  lemma StepKeeps(s: Dict, a: Action, hash: Key -> u32)
    requires Inv(s, hash)
    ensures Inv(Step(s, a, hash), hash)
  {
    if a.Begin? {
      BeginKeeps(s, a, hash);
    } else if a.TakeBase? {
      TakeKeeps(s, a, hash);
    } else if a.ReadNext? || a.FollowNext? {
      LinkMoves(s, a, hash);
    } else if a.t < |s.lookups| && !s.lookups[a.t].Idle? && !s.lookups[a.t].Returned? {
      AtRow(s, a.t, hash);
      hide Inv, RowAt, AfterRead, AfterClaim, AfterCompare, AfterLink;
      var p := s.lookups[a.t];
      if a.ReadCell? && p.Scanning? && p.col < CELLS { ReadKeeps(s, a.t, hash); }
      if a.ClaimCell? && p.Claiming? && p.col < CELLS { ClaimKeeps(s, a.t, hash); }
      if a.CompareCell? && p.Comparing? && p.col < CELLS { CompareKeeps(s, a.t, hash); }
      if a.LinkTable? && p.Linking? { LinkKeeps(s, a.t, hash); }
    }
  }

  lemma {:induction false} RunKeeps(s: Dict, actions: seq<Action>, hash: Key -> u32)
    requires Inv(s, hash)
    ensures Inv(Run(s, actions, hash), hash)
    decreases |actions|
  {
    hide Inv, Step;
    if actions != [] {
      StepKeeps(s, actions[0], hash);
      RunKeeps(Step(s, actions[0], hash), actions[1..], hash);
    }
  }

  lemma InvInitial(threads: nat, hash: Key -> u32)
    ensures Inv(Initial(threads), hash)
  {
    var s := Initial(threads);
    forall i: nat, row: nat, col: nat, key: Key ensures !Holds(s.tables, i, row, col, key) {}
    assert TreeOk(s.tables) && BasesOk(s);
    hide Holds, TreeOk, BasesOk;
  }
}

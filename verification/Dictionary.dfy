/**
 The append-only concurrent dictionary of src/dictionary.cpp as a state machine: a tree of tables of 128 rows of
 three cells, and any number of concurrent lookups, one shared-memory operation at a time.
 */
module Dictionary {
  import opened Bytes

  const ROWS: nat := 128
  const CELLS: nat := 3
  const TABLE_CAPACITY: nat := 384

  /** The bytes of a key without its terminator; no byte in it is the terminator. */
  type Key = s: seq<byte> | forall i | 0 <= i < |s| :: s[i] != 0

  /** `strncmp(a, b, length) == 0` for bytes that end in a terminator. */
  predicate SamePrefix(a: seq<byte>, b: seq<byte>, length: nat)
    requires |a| > 0 && |b| > 0 && a[|a| - 1] == 0 && b[|b| - 1] == 0
  {
    length == 0 || (a[0] == b[0] && (a[0] == 0 || SamePrefix(a[1..], b[1..], length - 1)))
  }

  /** `keyEquals`: the candidate was stored with a terminator behind it. */
  predicate KeyEquals(candidate: seq<byte>, key: seq<byte>) {
    var stored := candidate + [0];
    SamePrefix(stored, key + [0], |key|) && |key| < |stored| && stored[|key|] == 0
  }

  datatype Row = Row(keys: seq<Option<Key>>, next: Option<nat>)

  /** `depth` is history: the number of links from the root. */
  datatype Table = Table(base: nat, depth: nat, rows: seq<Row>)

  function EmptyRow(): Row { Row([None, None, None], None) }

  function EmptyTable(base: nat, depth: nat): Table { Table(base, depth, seq(ROWS, _ => EmptyRow())) }

  function Index(base: nat, row: nat, col: nat): nat { base + col * 128 + row }

  /** One level down: the hash rotated right by seven bits. */
  function Rotated(h: u32): u32 { h / 128 + (h % 128) * 0x200_0000 }

  function HashAt(h: u32, depth: nat): u32 { if depth == 0 then h else Rotated(HashAt(h, depth - 1)) }

  function RowAt(h: u32, depth: nat): (row: nat)
    ensures row < ROWS
  {
    HashAt(h, depth) % 128
  }

  /** Where a thread is in `lookup`; `depth` counts the loop's iterations. */
  datatype Lookup =
    | Idle
    | Scanning(key: Key, table: nat, depth: nat, col: nat)
    | Claiming(key: Key, table: nat, depth: nat, col: nat)
    | Comparing(key: Key, table: nat, depth: nat, col: nat)
    | AtNext(key: Key, table: nat, depth: nat)
    | Making(key: Key, table: nat, depth: nat)
    | Linking(key: Key, table: nat, depth: nat, base: nat)
    | Following(key: Key, table: nat, depth: nat)
    | Returned(key: Key, index: nat)

  /** `answers` is history: all results returned. */
  datatype Dict = Dict(tables: seq<Table>, baseIndex: nat, lookups: seq<Lookup>, answers: seq<(Key, nat)>)

  datatype Action =
    | Begin(t: nat, key: Key)
    | ReadCell(t: nat)
    | ClaimCell(t: nat)
    | CompareCell(t: nat)
    | ReadNext(t: nat)
    | TakeBase(t: nat)
    | LinkTable(t: nat)
    | FollowNext(t: nat)

  function Initial(threads: nat): Dict { Dict([EmptyTable(1, 0)], 1, seq(threads, _ => Idle), []) }

  /** The row a lookup is at. */
  predicate HasRow(s: Dict, table: nat, row: nat) {
    table < |s.tables| && row < |s.tables[table].rows| && |s.tables[table].rows[row].keys| == CELLS
  }

  function WithRow(s: Dict, table: nat, row: nat, r: Row): Dict
    requires HasRow(s, table, row)
  {
    s.(tables := s.tables[table := s.tables[table].(rows := s.tables[table].rows[row := r])])
  }

  function Moved(s: Dict, t: nat, p: Lookup): Dict
    requires t < |s.lookups|
  {
    s.(lookups := s.lookups[t := p])
  }

  function Answered(s: Dict, t: nat, p: Lookup, row: nat): Dict
    requires t < |s.lookups| && (p.Claiming? || p.Comparing?) && p.table < |s.tables|
  {
    var index := Index(s.tables[p.table].base, row, p.col);
    Moved(s, t, Returned(p.key, index)).(answers := s.answers + [(p.key, index)])
  }

  /** On to the next cell of the row, or to the link behind it. */
  function Onward(p: Lookup): Lookup
    requires p.Comparing?
  {
    if p.col + 1 < CELLS then Scanning(p.key, p.table, p.depth, p.col + 1) else AtNext(p.key, p.table, p.depth)
  }

  function AfterRead(s: Dict, t: nat, p: Lookup, row: nat): Dict
    requires t < |s.lookups| && p.Scanning? && HasRow(s, p.table, row) && p.col < CELLS
  {
    if s.tables[p.table].rows[row].keys[p.col] == None then Moved(s, t, Claiming(p.key, p.table, p.depth, p.col))
    else Moved(s, t, Comparing(p.key, p.table, p.depth, p.col))
  }

  function AfterClaim(s: Dict, t: nat, p: Lookup, row: nat): Dict
    requires t < |s.lookups| && p.Claiming? && HasRow(s, p.table, row) && p.col < CELLS
  {
    var r := s.tables[p.table].rows[row];
    if r.keys[p.col] != None then Moved(s, t, Comparing(p.key, p.table, p.depth, p.col))
    else Answered(WithRow(s, p.table, row, r.(keys := r.keys[p.col := Some(p.key)])), t, p, row)
  }

  function AfterCompare(s: Dict, t: nat, p: Lookup, row: nat): Dict
    requires t < |s.lookups| && p.Comparing? && HasRow(s, p.table, row) && p.col < CELLS
  {
    var candidate := s.tables[p.table].rows[row].keys[p.col];
    if candidate.Some? && KeyEquals(candidate.value, p.key) then Answered(s, t, p, row) else Moved(s, t, Onward(p))
  }

  /** The new table is linked, or dropped when another came first: then its index range is wasted. */
  function AfterLink(s: Dict, t: nat, p: Lookup, row: nat): Dict
    requires t < |s.lookups| && p.Linking? && HasRow(s, p.table, row)
  {
    var r := s.tables[p.table].rows[row];
    var s' := Moved(s, t, Following(p.key, p.table, p.depth));
    if r.next.Some? then s'
    else
      var s'' := WithRow(s', p.table, row, r.(next := Some(|s.tables|)));
      s''.(tables := s''.tables + [EmptyTable(p.base, s.tables[p.table].depth + 1)])
  }

  function Step(s: Dict, a: Action, hash: Key -> u32): Dict {
    if a.t >= |s.lookups| then s
    else
      var p := s.lookups[a.t];
      if a.Begin? then if p.Idle? || p.Returned? then Moved(s, a.t, Scanning(a.key, 0, 0, 0)) else s
      else if p.Idle? || p.Returned? then s
      else
        var row := RowAt(hash(p.key), p.depth);
        if !HasRow(s, p.table, row) then s
        else if a.ReadCell? && p.Scanning? && p.col < CELLS then AfterRead(s, a.t, p, row)
        else if a.ClaimCell? && p.Claiming? && p.col < CELLS then AfterClaim(s, a.t, p, row)
        else if a.CompareCell? && p.Comparing? && p.col < CELLS then AfterCompare(s, a.t, p, row)
        else if a.ReadNext? && p.AtNext? then
          Moved(s, a.t, if s.tables[p.table].rows[row].next == None then Making(p.key, p.table, p.depth) else Following(p.key, p.table, p.depth))
        else if a.TakeBase? && p.Making? then
          Moved(s, a.t, Linking(p.key, p.table, p.depth, s.baseIndex + TABLE_CAPACITY)).(baseIndex := s.baseIndex + TABLE_CAPACITY)
        else if a.LinkTable? && p.Linking? then AfterLink(s, a.t, p, row)
        else if a.FollowNext? && p.Following? && s.tables[p.table].rows[row].next.Some? then
          Moved(s, a.t, Scanning(p.key, s.tables[p.table].rows[row].next.value, p.depth + 1, 0))
        else s
  }

  function Run(s: Dict, actions: seq<Action>, hash: Key -> u32): Dict
    decreases |actions|
  {
    if actions == [] then s else Run(Step(s, actions[0], hash), actions[1..], hash)
  }
}

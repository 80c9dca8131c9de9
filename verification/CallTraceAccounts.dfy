/** Nothing put into the storage is lost or counted twice. */
module CallTraceAccounts {
  import opened Bytes
  import opened CallTraceStorage
  import opened CallTraceInvariant
  import opened CallTraceGuarantees

  // ------------------------------------------------------------------ sums over slots

  /** Sum of a column over the slots that hold key `h`. */
  function SlotSum(keys: seq<u64>, column: seq<nat>, h: u64): nat
    requires |keys| == |column|
  {
    if keys == [] then 0
    else
      var n := |keys| - 1;
      SlotSum(keys[..n], column[..n], h) + (if keys[n] == h then column[n] else 0)
  }

  lemma {:induction false} SlotSumAdd(keys: seq<u64>, column: seq<nat>, slot: nat, d: nat, h: u64)
    requires |keys| == |column| && slot < |keys|
    ensures SlotSum(keys, column[slot := column[slot] + d], h) == SlotSum(keys, column, h) + (if keys[slot] == h then d else 0)
  {
    var n := |keys| - 1;
    var column' := column[slot := column[slot] + d];
    if slot == n {
      assert column'[..n] == column[..n];
    } else {
      SlotSumAdd(keys[..n], column[..n], slot, d, h);
      assert column'[..n] == column[..n][slot := column[slot] + d];
    }
  }

  /** Claiming an untouched slot moves no sum. */
  lemma {:induction false} SlotSumClaim(keys: seq<u64>, column: seq<nat>, slot: nat, k: u64, h: u64)
    requires |keys| == |column| && slot < |keys| && column[slot] == 0
    ensures SlotSum(keys[slot := k], column, h) == SlotSum(keys, column, h)
  {
    var n := |keys| - 1;
    if slot == n {
      assert keys[slot := k][..n] == keys[..n];
    } else {
      SlotSumClaim(keys[..n], column[..n], slot, k, h);
      assert keys[slot := k][..n] == keys[..n][slot := k];
    }
  }

  lemma {:induction false} SlotSumBlank(keys: seq<u64>, column: seq<nat>, h: u64)
    requires |keys| == |column| && forall i | 0 <= i < |column| :: column[i] == 0
    ensures SlotSum(keys, column, h) == 0
  {
    if keys != [] { SlotSumBlank(keys[..|keys| - 1], column[..|keys| - 1], h); }
  }

  function Column(tb: Table, weights: bool): seq<nat> { if weights then tb.weights else tb.samples }

  predicate Square(tables: seq<Table>) {
    forall i | 0 <= i < |tables| :: |tables[i].keys| == |tables[i].samples| == |tables[i].weights|
  }

  /** What all tables together hold for hash `h`: sample counts, or weights. */
  function Total(tables: seq<Table>, weights: bool, h: u64): nat
    requires Square(tables)
  {
    if tables == [] then 0
    else
      var n := |tables| - 1;
      Total(tables[..n], weights, h) + SlotSum(tables[n].keys, Column(tables[n], weights), h)
  }

  lemma {:induction false} TotalUpdate(tables: seq<Table>, i: nat, tb: Table, weights: bool, h: u64)
    requires Square(tables) && i < |tables| && |tb.keys| == |tb.samples| == |tb.weights|
    ensures Total(tables[i := tb], weights, h) + SlotSum(tables[i].keys, Column(tables[i], weights), h)
         == Total(tables, weights, h) + SlotSum(tb.keys, Column(tb, weights), h)
  {
    var n := |tables| - 1;
    if i == n {
      assert tables[i := tb][..n] == tables[..n];
    } else {
      TotalUpdate(tables[..n], i, tb, weights, h);
      assert tables[i := tb][..n] == tables[..n][i := tb];
    }
    hide SlotSum, Column;
  }

  // ------------------------------------------------------------------ sums over requests

  /** What the credited requests with hash `h` amount to: their number, or their weight. */
  function Credit(credited: seq<Request>, weights: bool, h: u64): nat {
    if credited == [] then 0
    else
      var r := credited[|credited| - 1];
      Credit(credited[..|credited| - 1], weights, h) + (if r.hash != h then 0 else if weights then r.weight else 1)
  }

  lemma CreditSnoc(credited: seq<Request>, r: Request, weights: bool, h: u64)
    ensures Credit(credited + [r], weights, h) == Credit(credited, weights, h) + (if r.hash != h then 0 else if weights then r.weight else 1)
  {
    assert (credited + [r])[..|credited|] == credited;
  }

  /** Weight that is already credited but still to be added by a put. */
  function Due(p: Put, h: u64): nat { if p.Weighing? && p.req.hash == h then p.req.weight else 0 }

  function AllDue(puts: seq<Put>, h: u64): nat {
    if puts == [] then 0 else AllDue(puts[..|puts| - 1], h) + Due(puts[|puts| - 1], h)
  }

  lemma {:induction false} AllDueUpdate(puts: seq<Put>, t: nat, p: Put, h: u64)
    requires t < |puts|
    ensures AllDue(puts[t := p], h) + Due(puts[t], h) == AllDue(puts, h) + Due(p, h)
  {
    var n := |puts| - 1;
    if t == n {
      assert puts[t := p][..n] == puts[..n];
    } else {
      AllDueUpdate(puts[..n], t, p, h);
      assert puts[t := p][..n] == puts[..n][t := p];
    }
    hide Due;
  }

  /** Whether `p` still has request `x` to account for. */
  function Open(p: Put, x: Request): nat {
    if p.Idle? || p.Weighing? || p.Returned? || p.req != x then 0 else 1
  }

  function AllOpen(puts: seq<Put>, x: Request): nat {
    if puts == [] then 0 else AllOpen(puts[..|puts| - 1], x) + Open(puts[|puts| - 1], x)
  }

  lemma {:induction false} AllOpenUpdate(puts: seq<Put>, t: nat, p: Put, x: Request)
    requires t < |puts|
    ensures AllOpen(puts[t := p], x) + Open(puts[t], x) == AllOpen(puts, x) + Open(p, x)
  {
    var n := |puts| - 1;
    if t == n {
      assert puts[t := p][..n] == puts[..n];
    } else {
      AllOpenUpdate(puts[..n], t, p, x);
      assert puts[t := p][..n] == puts[..n][t := p];
    }
    hide Open;
  }

  // ------------------------------------------------------------------ the books

  /** How often request `x` was credited to a slot, overflowed, or was put with weight zero. */
  ghost function Booked(s: Store, x: Request): nat { multiset(s.credited)[x] + s.lost[x] + s.silent[x] }

  /** Every request begun is in exactly one place. */
  ghost predicate BooksOk(s: Store) {
    && (forall x: Request :: s.begun[x] == Booked(s, x) + AllOpen(s.puts, x))
    && |s.lost| == s.overflow
    && (forall r | r in s.silent :: r.weight == 0)
    && (forall r | r in s.credited :: r.weight != 0)
  }

  /** The columns hold what was credited, per hash. */
  ghost predicate ColumnsOk(s: Store) {
    Square(s.tables) && forall h: u64 | h != 0 ::
      && Total(s.tables, false, h) == Credit(s.credited, false, h)
      && Total(s.tables, true, h) + AllDue(s.puts, h) == Credit(s.credited, true, h)
  }

  /** One put moved; what it dropped from the open requests is now in one of the books. */
  lemma BooksMove(s: Store, s': Store, t: nat)
    requires BooksOk(s) && t < |s.puts| == |s'.puts| && s'.puts == s.puts[t := s'.puts[t]]
    requires forall x: Request :: s'.begun[x] + Booked(s, x) + Open(s.puts[t], x) == s.begun[x] + Booked(s', x) + Open(s'.puts[t], x)
    requires |s'.lost| == s'.overflow && (forall r | r in s'.silent :: r.weight == 0) && (forall r | r in s'.credited :: r.weight != 0)
    ensures BooksOk(s')
  {
    hide Open, AllOpen, Booked;
    forall x: Request ensures s'.begun[x] == Booked(s', x) + AllOpen(s'.puts, x) {
      AllOpenUpdate(s.puts, t, s'.puts[t], x);
      assert s.begun[x] == Booked(s, x) + AllOpen(s.puts, x);
    }
  }

  ghost predicate SameBooks(s: Store, s': Store) {
    s'.begun == s.begun && s'.credited == s.credited && s'.lost == s.lost && s'.silent == s.silent && s'.overflow == s.overflow
  }

  predicate Closed(p: Put) { p.Idle? || p.Weighing? || p.Returned? }

  lemma BooksQuiet(s: Store, s': Store, t: nat)
    requires BooksOk(s) && t < |s.puts| == |s'.puts| && s'.puts == s.puts[t := s'.puts[t]] && SameBooks(s, s')
    requires Closed(s.puts[t]) == Closed(s'.puts[t]) && (!Closed(s.puts[t]) ==> s'.puts[t].req == s.puts[t].req)
    ensures BooksOk(s')
  {
    BooksMove(s, s', t);
  }

  lemma BooksBegin(s: Store, s': Store, t: nat, req: Request)
    requires BooksOk(s) && t < |s.puts| == |s'.puts| && s'.puts == s.puts[t := s'.puts[t]]
    requires SameBooks(s, s'.(begun := s.begun)) && s'.begun == s.begun + multiset{req}
    requires Closed(s.puts[t]) && !Closed(s'.puts[t]) && s'.puts[t].req == req
    ensures BooksOk(s')
  {
    BooksMove(s, s', t);
  }

  lemma BooksFound(s: Store, s1: Store, t: nat, table: nat, slot: nat)
    requires BooksOk(s) && t < |s.puts| && !Closed(s.puts[t]) && s1 == s.(tables := s1.tables)
    requires table < |s1.tables| && s1.tables[table].capacity >= INITIAL_CAPACITY
    ensures BooksOk(Found(s1, t, s.puts[t].req, table, slot))
  {
    hide BooksOk, Booked, Open, Found;
    var s' := Found(s1, t, s.puts[t].req, table, slot);
    FoundParts(s, s1, t, table, slot);
    forall x: Request ensures s'.begun[x] + Booked(s, x) + Open(s.puts[t], x) == s.begun[x] + Booked(s', x) + Open(s'.puts[t], x) {
      FoundBooks(s, s1, t, table, slot, x);
    }
    BooksMove(s, s', t);
  }

  lemma FoundParts(s: Store, s1: Store, t: nat, table: nat, slot: nat)
    requires BooksOk(s) && t < |s.puts| && !Closed(s.puts[t]) && s1 == s.(tables := s1.tables)
    requires table < |s1.tables| && s1.tables[table].capacity >= INITIAL_CAPACITY
    ensures var s' := Found(s1, t, s.puts[t].req, table, slot);
            && |s'.puts| == |s.puts| && s'.puts == s.puts[t := s'.puts[t]] && |s'.lost| == s'.overflow
            && (forall r | r in s'.silent :: r.weight == 0) && (forall r | r in s'.credited :: r.weight != 0)
  {
    hide TraceId, AllOpen, Booked;
  }

  lemma FoundBooks(s: Store, s1: Store, t: nat, table: nat, slot: nat, x: Request)
    requires t < |s.puts| && !Closed(s.puts[t]) && s1 == s.(tables := s1.tables)
    requires table < |s1.tables| && s1.tables[table].capacity >= INITIAL_CAPACITY
    ensures var s' := Found(s1, t, s.puts[t].req, table, slot);
            s'.begun[x] + Booked(s, x) + Open(s.puts[t], x) == s.begun[x] + Booked(s', x) + Open(s'.puts[t], x)
  {
    hide TraceId;
  }

  lemma BooksOverflowed(s: Store, t: nat)
    requires BooksOk(s) && t < |s.puts| && !Closed(s.puts[t])
    ensures BooksOk(Overflowed(s, t, s.puts[t].req))
  {
    var s' := Overflowed(s, t, s.puts[t].req);
    forall x: Request ensures s'.begun[x] + Booked(s, x) + Open(s.puts[t], x) == s.begun[x] + Booked(s', x) + Open(s'.puts[t], x) {}
    BooksMove(s, s', t);
  }

  lemma BooksSample(s: Store, s': Store, t: nat)
    requires BooksOk(s) && t < |s.puts| == |s'.puts| && s'.puts == s.puts[t := s'.puts[t]]
    requires !Closed(s.puts[t]) && Closed(s'.puts[t]) && s.puts[t].req.weight != 0
    requires SameBooks(s, s'.(credited := s.credited)) && s'.credited == s.credited + [s.puts[t].req]
    ensures BooksOk(s')
  {
    forall x: Request ensures s'.begun[x] + Booked(s, x) + Open(s.puts[t], x) == s.begun[x] + Booked(s', x) + Open(s'.puts[t], x) {
      assert multiset(s'.credited) == multiset(s.credited) + multiset{s.puts[t].req};
    }
    BooksMove(s, s', t);
  }

  lemma BooksDecide(s: Store, t: nat, again: bool, overLimit: bool)
    requires Sound(s) && BooksOk(s) && t < |s.puts| && s.puts[t].Looked?
    ensures BooksOk(AfterLook(s, t, s.puts[t], again, overLimit))
  {
    hide BooksOk, Found, Overflowed;
    var p := s.puts[t];
    var key := if again then s.tables[p.table].keys[p.slot] else p.seen;
    if p.seen == p.req.hash {
      BooksFound(s, s, t, p.table, p.slot);
    } else if (if key == 0 then overLimit else p.step + 1 >= s.tables[p.table].capacity) {
      BooksOverflowed(s, t);
    } else {
      BooksQuiet(s, AfterLook(s, t, p, again, overLimit), t);
    }
  }

  lemma BooksInTables(s: Store, a: Action, hash: Frames -> u64)
    requires Sound(s) && BooksOk(s) && (a.Claim? || a.CountSlot? || a.AddWeight?)
    ensures BooksOk(Step(s, a, hash))
  {
    hide BooksOk, TraceId, Threshold;
    if a.t < |s.puts| {
      var p, s' := s.puts[a.t], Step(s, a, hash);
      if (a.Claim? && p.Claiming?) || (a.CountSlot? && p.Sizing?) || (a.AddWeight? && p.Weighing?) { BooksQuiet(s, s', a.t); }
    }
  }

  lemma BooksInChain(s: Store, a: Action, hash: Frames -> u64)
    requires Sound(s) && BooksOk(s) && (a.Look? || a.Allocate? || a.Publish?)
    ensures BooksOk(Step(s, a, hash))
  {
    hide BooksOk, TraceId, Threshold, NewTable;
    if a.t < |s.puts| {
      var p, s' := s.puts[a.t], Step(s, a, hash);
      if (a.Look? && p.Probing?) || (a.Allocate? && p.Growing?) || (a.Publish? && p.Publishing? && p.next < |s.tables|) {
        BooksQuiet(s, s', a.t);
      }
    }
  }

  lemma BooksAtEnds(s: Store, a: Action, hash: Frames -> u64)
    requires StructureOk(s, hash) && Sound(s) && BooksOk(s) && (a.Begin? || a.AddSample?)
    ensures BooksOk(Step(s, a, hash))
  {
    if a.t < |s.puts| {
      var p, s' := s.puts[a.t], Step(s, a, hash);
      assert PutOk(p, s.tables, s.current, hash);
      hide BooksOk, StructureOk;
      if a.AddSample? && p.Sampling? { BooksSample(s, s', a.t); }
      if a.Begin? && (p.Idle? || p.Returned?) && hash(a.frames) != 0 {
        BooksBegin(s, s', a.t, Request(a.frames, hash(a.frames), a.weight));
      }
    }
  }

  lemma BooksStep(s: Store, a: Action, hash: Frames -> u64)
    requires StructureOk(s, hash) && Sound(s) && BooksOk(s)
    ensures BooksOk(Step(s, a, hash))
  {
    hide BooksOk, StructureOk, AfterLook, AfterStore, AfterClaim, AfterCount, AfterAllocate, AfterSample, AfterWeight;
    if a.Begin? || a.AddSample? {
      BooksAtEnds(s, a, hash);
    } else if a.Look? || a.Allocate? || a.Publish? {
      BooksInChain(s, a, hash);
    } else if a.Claim? || a.CountSlot? || a.AddWeight? {
      BooksInTables(s, a, hash);
    } else if a.t < |s.puts| {
      if a.Decide? && s.puts[a.t].Looked? { BooksDecide(s, a.t, a.again, a.overLimit); }
      if a.StoreTrace? && s.puts[a.t].Storing? { BooksStore(s, a.t, a.reuse, a.granted); }
    }
  }

  lemma BooksStore(s: Store, t: nat, reuse: Option<nat>, granted: bool)
    requires Sound(s) && BooksOk(s) && t < |s.puts| && s.puts[t].Storing?
    ensures BooksOk(AfterStore(s, t, s.puts[t], reuse, granted))
  {
    hide BooksOk, Inherited, Found;
    var p := s.puts[t];
    var tb := s.tables[p.table];
    var earlier := Inherited(s, tb, p.req.hash, reuse);
    var trace := if earlier.Some? then earlier else if granted then Some(p.req.frames) else None;
    BooksFound(s, WithTable(s, p.table, tb.(traces := tb.traces[p.slot := trace])), t, p.table, p.slot);
  }

  // ------------------------------------------------------------------ the columns

  lemma ColumnsMove(s: Store, s': Store, t: nat)
    requires ColumnsOk(s) && Square(s'.tables) && t < |s.puts| == |s'.puts| && s'.puts == s.puts[t := s'.puts[t]]
    requires forall h: u64 | h != 0 ::
      Total(s'.tables, false, h) + Credit(s.credited, false, h) == Total(s.tables, false, h) + Credit(s'.credited, false, h)
    requires forall h: u64 | h != 0 ::
      Total(s'.tables, true, h) + Due(s'.puts[t], h) + Credit(s.credited, true, h) == Total(s.tables, true, h) + Due(s.puts[t], h) + Credit(s'.credited, true, h)
    ensures ColumnsOk(s')
  {
    hide Total, Credit, Due, AllDue;
    forall h: u64 | h != 0
      ensures Total(s'.tables, false, h) == Credit(s'.credited, false, h)
      ensures Total(s'.tables, true, h) + AllDue(s'.puts, h) == Credit(s'.credited, true, h)
    {
      AllDueUpdate(s.puts, t, s'.puts[t], h);
    }
  }

  /** A step that credits nothing and keeps every table's sums. */
  lemma ColumnsQuiet(s: Store, s': Store, t: nat)
    requires ColumnsOk(s) && Square(s'.tables) && t < |s.puts| == |s'.puts| && s'.puts == s.puts[t := s'.puts[t]]
    requires forall w: bool, h: u64 | h != 0 :: Total(s'.tables, w, h) == Total(s.tables, w, h)
    requires s'.credited == s.credited && !s.puts[t].Weighing? && !s'.puts[t].Weighing?
    ensures ColumnsOk(s')
  {
    hide Total, Credit, AllDue;
    ColumnsMove(s, s', t);
  }

  /** A table whose keys and columns stay as they are. */
  lemma SameTotals(tables: seq<Table>, i: nat, tb: Table)
    requires Square(tables) && i < |tables| && tb.keys == tables[i].keys && tb.samples == tables[i].samples && tb.weights == tables[i].weights
    ensures Square(tables[i := tb]) && forall w: bool, h: u64 | h != 0 :: Total(tables[i := tb], w, h) == Total(tables, w, h)
  {
    forall w: bool, h: u64 | h != 0 ensures Total(tables[i := tb], w, h) == Total(tables, w, h) { TotalUpdate(tables, i, tb, w, h); }
  }

  lemma ClaimTotals(tables: seq<Table>, i: nat, slot: nat, k: u64)
    requires Square(tables) && i < |tables| && slot < |tables[i].keys| && tables[i].samples[slot] == 0 && tables[i].weights[slot] == 0
    ensures var tb := tables[i].(keys := tables[i].keys[slot := k]);
      Square(tables[i := tb]) && forall w: bool, h: u64 | h != 0 :: Total(tables[i := tb], w, h) == Total(tables, w, h)
  {
    var tb := tables[i].(keys := tables[i].keys[slot := k]);
    forall w: bool, h: u64 | h != 0 ensures Total(tables[i := tb], w, h) == Total(tables, w, h) {
      TotalUpdate(tables, i, tb, w, h);
      SlotSumClaim(tables[i].keys, Column(tables[i], w), slot, k, h);
    }
  }

  lemma BlankTotals(tables: seq<Table>, prev: Option<nat>, capacity: nat)
    requires Square(tables)
    ensures var tables' := tables + [NewTable(prev, capacity)];
      Square(tables') && forall w: bool, h: u64 | h != 0 :: Total(tables', w, h) == Total(tables, w, h)
  {
    var tb := NewTable(prev, capacity);
    var tables' := tables + [tb];
    assert tables'[..|tables|] == tables;
    forall w: bool, h: u64 | h != 0 ensures Total(tables', w, h) == Total(tables, w, h) {
      SlotSumBlank(tb.keys, Column(tb, w), h);
    }
  }

  lemma ColumnsSample(s: Store, s': Store, t: nat)
    requires ColumnsOk(s) && t < |s.puts| && s.puts[t].Sampling? && s.puts[t].table < |s.tables|
    requires s.puts[t].slot < |s.tables[s.puts[t].table].keys| && s.tables[s.puts[t].table].keys[s.puts[t].slot] == s.puts[t].req.hash
    requires s' == AfterSample(s, t, s.puts[t])
    ensures ColumnsOk(s')
  {
    var p := s.puts[t];
    var tb, tb' := s.tables[p.table], s'.tables[p.table];
    assert s'.tables == s.tables[p.table := tb'];
    assert Due(p, p.req.hash) == 0;
    forall h: u64 | h != 0
      ensures Total(s'.tables, false, h) + Credit(s.credited, false, h) == Total(s.tables, false, h) + Credit(s'.credited, false, h)
      ensures Total(s'.tables, true, h) + Due(s'.puts[t], h) + Credit(s.credited, true, h) == Total(s.tables, true, h) + Due(p, h) + Credit(s'.credited, true, h)
    {
      TotalUpdate(s.tables, p.table, tb', false, h);
      TotalUpdate(s.tables, p.table, tb', true, h);
      SlotSumAdd(tb.keys, tb.samples, p.slot, 1, h);
      CreditSnoc(s.credited, p.req, false, h);
      CreditSnoc(s.credited, p.req, true, h);
      hide Total, SlotSum, Credit, ColumnsOk;
    }
    hide Total, SlotSum, Credit, Due, AllDue;
    ColumnsMove(s, s', t);
  }

  lemma ColumnsWeight(s: Store, s': Store, t: nat)
    requires ColumnsOk(s) && t < |s.puts| && s.puts[t].Weighing? && s.puts[t].table < |s.tables|
    requires s.puts[t].slot < |s.tables[s.puts[t].table].keys| && s.tables[s.puts[t].table].keys[s.puts[t].slot] == s.puts[t].req.hash
    requires s.tables[s.puts[t].table].capacity >= INITIAL_CAPACITY && s' == AfterWeight(s, t, s.puts[t])
    ensures ColumnsOk(s')
  {
    var p := s.puts[t];
    var tb, tb' := s.tables[p.table], s'.tables[p.table];
    assert s'.tables == s.tables[p.table := tb'];
    forall h: u64 | h != 0
      ensures Total(s'.tables, false, h) == Total(s.tables, false, h)
      ensures Total(s'.tables, true, h) + Due(s'.puts[t], h) == Total(s.tables, true, h) + Due(p, h)
    {
      TotalUpdate(s.tables, p.table, tb', false, h);
      TotalUpdate(s.tables, p.table, tb', true, h);
      SlotSumAdd(tb.keys, tb.weights, p.slot, p.req.weight, h);
      hide Total, SlotSum, Credit, ColumnsOk;
    }
    hide Total, SlotSum, Credit, Due, AllDue;
    ColumnsMove(s, s', t);
  }

  lemma ColumnsClaim(s: Store, a: Action, hash: Frames -> u64)
    requires StructureOk(s, hash) && Sound(s) && ColumnsOk(s) && a.Claim?
    ensures ColumnsOk(Step(s, a, hash))
  {
    if a.t < |s.puts| && s.puts[a.t].Claiming? {
      var p, s' := s.puts[a.t], Step(s, a, hash);
      assert PutOk(p, s.tables, s.current, hash) && TableOk(s.tables[p.table], p.table, hash);
      if s.tables[p.table].keys[p.slot] == 0 {
        assert SlotOk(s.tables[p.table], p.slot, hash);
        ClaimTotals(s.tables, p.table, p.slot, p.req.hash);
      }
      hide StructureOk, Total, Credit, AllDue, TableOk, PutOk;
      ColumnsQuiet(s, s', a.t);
    }
  }

  lemma ColumnsStore(s: Store, a: Action, hash: Frames -> u64)
    requires Sound(s) && ColumnsOk(s) && a.StoreTrace?
    ensures ColumnsOk(Step(s, a, hash))
  {
    if a.t < |s.puts| && s.puts[a.t].Storing? {
      hide Total, Credit, AllDue, TraceId, Inherited;
      var p, s' := s.puts[a.t], Step(s, a, hash);
      SameTotals(s.tables, p.table, s'.tables[p.table]);
      ColumnsQuiet(s, s', a.t);
    }
  }

  lemma ColumnsChain(s: Store, a: Action, hash: Frames -> u64)
    requires Sound(s) && ColumnsOk(s) && (a.CountSlot? || a.Allocate? || a.Publish?)
    ensures ColumnsOk(Step(s, a, hash))
  {
    hide Total, Credit, AllDue, Threshold, NewTable;
    if a.t < |s.puts| {
      var p, s' := s.puts[a.t], Step(s, a, hash);
      if a.CountSlot? && p.Sizing? {
        SameTotals(s.tables, p.table, s'.tables[p.table]);
        ColumnsQuiet(s, s', a.t);
      } else if a.Allocate? && p.Growing? {
        BlankTotals(s.tables, Some(p.table), 2 * s.tables[p.table].capacity);
        ColumnsQuiet(s, s', a.t);
      } else if a.Publish? && p.Publishing? && p.next < |s.tables| {
        ColumnsQuiet(s, s', a.t);
      }
    }
  }

  lemma ColumnsSearch(s: Store, a: Action, hash: Frames -> u64)
    requires Sound(s) && ColumnsOk(s) && (a.Begin? || a.Look? || a.Decide?)
    ensures ColumnsOk(Step(s, a, hash))
  {
    hide Total, Credit, AllDue, TraceId;
    if a.t < |s.puts| {
      var p, s' := s.puts[a.t], Step(s, a, hash);
      if (a.Begin? && (p.Idle? || p.Returned?) && hash(a.frames) != 0) || (a.Look? && p.Probing?) || (a.Decide? && p.Looked?) {
        ColumnsQuiet(s, s', a.t);
      }
    }
  }

  lemma ColumnsCount(s: Store, a: Action, hash: Frames -> u64)
    requires StructureOk(s, hash) && Sound(s) && ColumnsOk(s) && (a.AddSample? || a.AddWeight?)
    ensures ColumnsOk(Step(s, a, hash))
  {
    if a.t < |s.puts| {
      var p, s' := s.puts[a.t], Step(s, a, hash);
      assert PutOk(p, s.tables, s.current, hash);
      hide StructureOk, ColumnsOk, AfterSample, AfterWeight;
      if a.AddSample? && p.Sampling? { ColumnsSample(s, s', a.t); }
      if a.AddWeight? && p.Weighing? { ColumnsWeight(s, s', a.t); }
    }
  }

  lemma ColumnsStep(s: Store, a: Action, hash: Frames -> u64)
    requires StructureOk(s, hash) && Sound(s) && ColumnsOk(s)
    ensures ColumnsOk(Step(s, a, hash))
  {
    hide *;
    match a {
      case Begin(_, _, _) => ColumnsSearch(s, a, hash);
      case Look(_) => ColumnsSearch(s, a, hash);
      case Decide(_, _, _) => ColumnsSearch(s, a, hash);
      case Claim(_) => ColumnsClaim(s, a, hash);
      case CountSlot(_) => ColumnsChain(s, a, hash);
      case Allocate(_, _) => ColumnsChain(s, a, hash);
      case Publish(_) => ColumnsChain(s, a, hash);
      case StoreTrace(_, _, _) => ColumnsStore(s, a, hash);
      case AddSample(_) => ColumnsCount(s, a, hash);
      case AddWeight(_) => ColumnsCount(s, a, hash);
    }
  }

  // ------------------------------------------------------------------ over whole runs

  lemma {:induction false} AccountsRun(s: Store, actions: seq<Action>, hash: Frames -> u64)
    requires StructureOk(s, hash) && BooksOk(s) && ColumnsOk(s)
    ensures BooksOk(Run(s, actions, hash)) && ColumnsOk(Run(s, actions, hash))
    decreases |actions|
  {
    hide Step, StructureOk, BooksOk, ColumnsOk;
    if actions != [] {
      StructureSound(s, hash);
      StructureKept(s, actions[0], hash);
      BooksStep(s, actions[0], hash);
      ColumnsStep(s, actions[0], hash);
      AccountsRun(Step(s, actions[0], hash), actions[1..], hash);
    }
  }

  lemma {:induction false} NothingOpen(puts: seq<Put>, x: Request, h: u64)
    requires forall p | p in puts :: p.Idle? || p.Returned?
    ensures AllOpen(puts, x) == 0 && AllDue(puts, h) == 0
  {
    if puts != [] { NothingOpen(puts[..|puts| - 1], x, h); }
  }

  lemma AccountsInitial(threads: nat)
    ensures BooksOk(Initial(threads)) && ColumnsOk(Initial(threads))
  {
    var s := Initial(threads);
    assert s.tables == [] + [NewTable(None, INITIAL_CAPACITY)];
    BlankTotals([], None, INITIAL_CAPACITY);
    assert forall p | p in s.puts :: p.Idle?;
    forall x: Request ensures AllOpen(s.puts, x) == 0 { NothingOpen(s.puts, x, 0); }
    forall h: u64 ensures AllDue(s.puts, h) == 0 { NothingOpen(s.puts, Request([], 0, 0), h); }
    hide AllOpen, AllDue, NewTable;
  }

  /**
   Once every put has returned: each put of weight zero was counted nowhere, each other put was credited to a
   slot or overflowed, exactly once; the overflow counter is the number of those that overflowed; and the slots
   that hold a hash together hold exactly the samples and the weight of the credited puts with that hash.
   */
  lemma EveryPutCountedOnce(threads: nat, actions: seq<Action>, hash: Frames -> u64)
    requires forall p | p in RunFromStart(threads, actions, hash).puts :: p.Idle? || p.Returned?
    ensures var s := RunFromStart(threads, actions, hash);
      && PutsFromStart(threads, actions, hash) == multiset(s.credited) + s.lost + s.silent
      && s.overflow == |s.lost|
      && (forall r | r in s.silent :: r.weight == 0) && (forall r | r in s.credited :: r.weight != 0)
      && Square(s.tables)
      && (forall h: u64 | h != 0 :: Total(s.tables, false, h) == Credit(s.credited, false, h) && Total(s.tables, true, h) == Credit(s.credited, true, h))
  {
    StructureInitial(threads, hash);
    AccountsInitial(threads);
    AccountsRun(Initial(threads), actions, hash);
    PutsAreAsAsked(threads, actions, hash, 0);
    var s := Run(Initial(threads), actions, hash);
    hide Run, Initial, StructureOk, Total, Credit, PutsIn;
    forall x: Request ensures AllOpen(s.puts, x) == 0 { NothingOpen(s.puts, x, 0); }
    forall h: u64 ensures AllDue(s.puts, h) == 0 { NothingOpen(s.puts, Request([], 0, 0), h); }
    forall x: Request ensures s.begun[x] == (multiset(s.credited) + s.lost + s.silent)[x] {}
  }
}

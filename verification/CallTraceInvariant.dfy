/** What every interleaving of puts keeps. */
module CallTraceInvariant {
  import opened Bytes
  import opened TriangularProbe
  import opened CallTraceStorage

  // ------------------------------------------------------------------ one table

  /** A stored key has no empty slot before it on its own probe sequence. */
  ghost predicate Ordered(keys: seq<u64>) {
    |keys| > 0 ==>
      forall h: nat, m: nat, n: nat :: h != 0 && m < n < |keys| && keys[ProbeAt(h, |keys|, n)] == h ==> keys[ProbeAt(h, |keys|, m)] != 0
  }

  /** An unclaimed slot is untouched; a stored trace has the hash of its slot. */
  ghost predicate SlotOk(tb: Table, slot: nat, hash: Frames -> u64)
    requires slot < |tb.keys| == |tb.traces| == |tb.samples| == |tb.weights|
  {
    && (tb.keys[slot] == 0 ==> tb.samples[slot] == 0 && tb.weights[slot] == 0 && tb.traces[slot] == None)
    && (tb.traces[slot].Some? ==> hash(tb.traces[slot].value) == tb.keys[slot])
  }

  ghost predicate TableOk(tb: Table, i: nat, hash: Frames -> u64) {
    && INITIAL_CAPACITY <= tb.capacity == Pow2(16 + i) <= MAX_CAPACITY
    && |tb.keys| == |tb.traces| == |tb.samples| == |tb.weights| == tb.capacity
    && tb.prev == (if i == 0 then None else Some(i - 1))
    && Ordered(tb.keys)
    && (forall slot | 0 <= slot < tb.capacity :: SlotOk(tb, slot, hash))
  }

  /** Every slot passed on the way is taken, and by another hash unless the put skipped its own. */
  ghost predicate Passed(keys: seq<u64>, h: u64, step: nat, skipped: bool)
    requires |keys| > 0
  {
    && (forall m: nat | m < step :: keys[ProbeAt(h, |keys|, m)] != 0)
    && (skipped <==> exists m: nat :: m < step && keys[ProbeAt(h, |keys|, m)] == h)
  }

  ghost predicate On(tables: seq<Table>, table: nat, slot: nat) {
    table < |tables| && slot < |tables[table].keys| == tables[table].capacity
  }

  /** `id` is the id of a slot that holds `h`. */
  ghost predicate Denotes(tables: seq<Table>, id: nat, h: u64) {
    exists table: nat, slot: nat ::
      On(tables, table, slot) && id == TraceId(tables[table].capacity, slot) && tables[table].keys[slot] == h
  }

  ghost predicate PutOk(p: Put, tables: seq<Table>, current: nat, hash: Frames -> u64) {
    && (!p.Idle? ==> p.req.hash != 0 && p.req.hash == hash(p.req.frames))
    && (p.Returned? ==> p.id == OVERFLOW_TRACE_ID || Denotes(tables, p.id, p.req.hash))
    && (!p.Idle? && !p.Returned? ==>
          && p.table <= current && On(tables, p.table, p.slot)
          && (if p.Probing? || p.Looked? || p.Claiming? then
                && p.step < tables[p.table].capacity
                && p.slot == ProbeAt(p.req.hash, tables[p.table].capacity, p.step)
                && Passed(tables[p.table].keys, p.req.hash, p.step, p.skipped)
              else tables[p.table].keys[p.slot] == p.req.hash))
    && (p.Looked? ==> p.seen == 0 || p.seen == tables[p.table].keys[p.slot])
    && (p.Sampling? || p.Weighing? ==> p.req.weight != 0)
  }

  // ------------------------------------------------------------------ the chain

  ghost predicate ChainOk(s: Store) {
    && s.current < |s.tables| <= s.current + 2
    && (forall i | 0 <= i < |s.tables| - 1 :: s.tables[i].size >= Threshold(s.tables[i].capacity))
  }

  predicate Extending(p: Put) { p.Growing? || p.Publishing? }

  /** At most one put extends the chain at a time, at its end. */
  ghost predicate GrowOk(s: Store) {
    && (forall t, u | 0 <= t < u < |s.puts| :: !(Extending(s.puts[t]) && Extending(s.puts[u])))
    && (forall t | 0 <= t < |s.puts| && s.puts[t].Growing? ::
          && s.puts[t].table == s.current == |s.tables| - 1
          && s.tables[s.current].size >= Threshold(s.tables[s.current].capacity))
    && (forall t | 0 <= t < |s.puts| && s.puts[t].Publishing? ::
          s.puts[t].table == s.current == |s.tables| - 2 && s.puts[t].next == |s.tables| - 1)
  }

  /** Tables are only extended, sizes only grow and claimed keys stay. */
  ghost predicate Grows(a: seq<Table>, b: seq<Table>) {
    && |a| <= |b|
    && (forall i | 0 <= i < |a| ::
          && b[i].capacity == a[i].capacity && |b[i].keys| == |a[i].keys|
          && (forall slot | 0 <= slot < |a[i].keys| && a[i].keys[slot] != 0 :: b[i].keys[slot] == a[i].keys[slot]))
  }

  lemma PassedGrows(a: seq<u64>, b: seq<u64>, h: u64, step: nat, skipped: bool)
    requires |a| == |b| > 0 && Passed(a, h, step, skipped)
    requires forall slot | 0 <= slot < |a| && a[slot] != 0 :: b[slot] == a[slot]
    ensures Passed(b, h, step, skipped)
  {
    forall m: nat | m < step ensures b[ProbeAt(h, |b|, m)] == a[ProbeAt(h, |a|, m)] != 0 {}
    if skipped {
      var m: nat :| m < step && a[ProbeAt(h, |a|, m)] == h;
      assert b[ProbeAt(h, |b|, m)] == h;
    }
    hide ProbeAt;
  }

  /** What a put knows survives whatever the others do. */
  lemma PutStable(p: Put, a: seq<Table>, b: seq<Table>, current: nat, current': nat, hash: Frames -> u64)
    requires PutOk(p, a, current, hash) && Grows(a, b) && current <= current'
    ensures PutOk(p, b, current', hash)
  {
    hide ProbeAt, Passed, TraceId;
    if p.Returned? && p.id != OVERFLOW_TRACE_ID {
      var table: nat, slot: nat :|
        On(a, table, slot) && p.id == TraceId(a[table].capacity, slot) && a[table].keys[slot] == p.req.hash;
      assert On(b, table, slot) && b[table].keys[slot] == p.req.hash;
    }
    if p.Probing? || p.Looked? || p.Claiming? {
      PassedGrows(a[p.table].keys, b[p.table].keys, p.req.hash, p.step, p.skipped);
    }
  }

  ghost predicate StructureOk(s: Store, hash: Frames -> u64) {
    && ChainOk(s)
    && GrowOk(s)
    && (forall i | 0 <= i < |s.tables| :: TableOk(s.tables[i], i, hash))
    && (forall t | 0 <= t < |s.puts| :: PutOk(s.puts[t], s.tables, s.current, hash))
  }

  lemma StructureSound(s: Store, hash: Frames -> u64)
    requires StructureOk(s, hash)
    ensures Sound(s)
  {
    forall t | 0 <= t < |s.puts| && !s.puts[t].Idle? && !s.puts[t].Returned?
      ensures s.puts[t].table < |s.tables| && s.puts[t].slot < s.tables[s.puts[t].table].capacity
    {
      assert PutOk(s.puts[t], s.tables, s.current, hash);
    }
    hide Ordered, SlotOk, PutOk;
  }

  lemma BlankOk(prev: Option<nat>, capacity: nat, i: nat, hash: Frames -> u64)
    requires INITIAL_CAPACITY <= capacity == Pow2(16 + i) <= MAX_CAPACITY && prev == (if i == 0 then None else Some(i - 1))
    ensures TableOk(NewTable(prev, capacity), i, hash)
  {
    var tb := NewTable(prev, capacity);
    forall slot | 0 <= slot < capacity ensures SlotOk(tb, slot, hash) {}
    forall h: nat, n: nat | h != 0 && n < capacity ensures tb.keys[ProbeAt(h, capacity, n)] != h {}
    hide Pow2, SlotOk;
  }

  lemma StructureInitial(threads: nat, hash: Frames -> u64)
    ensures StructureOk(Initial(threads), hash)
  {
    hide TableOk, NewTable, Pow2;
    var s := Initial(threads);
    FirstCapacity();
    BlankOk(None, INITIAL_CAPACITY, 0, hash);
    assert forall t | 0 <= t < |s.puts| :: s.puts[t] == Idle;
  }

  lemma FirstCapacity()
    ensures Pow2(16) == 65536
  {
    assert Pow2(4) == 16;
    assert Pow2(8) == 256;
    assert Pow2(12) == 4096;
  }

  // ------------------------------------------------------------------ steps keep the structure

  /** Putting the parts together after thread `t` moved. */
  lemma Reassemble(s: Store, s': Store, t: nat, hash: Frames -> u64)
    requires StructureOk(s, hash) && t < |s.puts| == |s'.puts| && s'.puts == s.puts[t := s'.puts[t]]
    requires Grows(s.tables, s'.tables) && s.current <= s'.current
    requires ChainOk(s') && GrowOk(s')
    requires forall i | 0 <= i < |s'.tables| :: TableOk(s'.tables[i], i, hash)
    requires PutOk(s'.puts[t], s'.tables, s'.current, hash)
    ensures StructureOk(s', hash)
  {
    hide PutOk, Grows, ChainOk, GrowOk, TableOk;
    forall u | 0 <= u < |s'.puts| ensures PutOk(s'.puts[u], s'.tables, s'.current, hash) {
      if u != t {
        assert s'.puts[u] == s.puts[u];
        PutStable(s.puts[u], s.tables, s'.tables, s.current, s'.current, hash);
      }
    }
  }

  /** A step that leaves the tables alone and does not extend the chain. */
  lemma PutMoves(s: Store, s': Store, t: nat, hash: Frames -> u64)
    requires StructureOk(s, hash) && t < |s.puts| == |s'.puts| && s'.puts == s.puts[t := s'.puts[t]]
    requires s'.tables == s.tables && s'.current == s.current
    requires PutOk(s'.puts[t], s.tables, s.current, hash) && !Extending(s'.puts[t])
    ensures StructureOk(s', hash)
  {
    hide PutOk, TableOk;
    Reassemble(s, s', t, hash);
  }

  /** A step that updates one table in place and does not extend the chain. */
  lemma TableMoves(s: Store, s': Store, t: nat, i: nat, hash: Frames -> u64)
    requires StructureOk(s, hash) && t < |s.puts| == |s'.puts| && s'.puts == s.puts[t := s'.puts[t]]
    requires i < |s.tables| == |s'.tables| && s'.tables == s.tables[i := s'.tables[i]] && s'.current == s.current
    requires TableOk(s'.tables[i], i, hash) && s'.tables[i].size >= s.tables[i].size
    requires Grows(s.tables, s'.tables)
    requires PutOk(s'.puts[t], s'.tables, s'.current, hash) && !Extending(s'.puts[t])
    ensures StructureOk(s', hash)
  {
    assert s.tables[i].capacity == s'.tables[i].capacity;
    hide PutOk, TableOk, Grows, Threshold;
    Reassemble(s, s', t, hash);
  }

  lemma FirstProbe(keys: seq<u64>, h: u64)
    requires |keys| > 0
    ensures h % |keys| == ProbeAt(h, |keys|, 0) && Passed(keys, h, 0, false)
  {
    ProbeNext(h, |keys|, 0);
  }

  lemma BeginKeeps(s: Store, a: Action, hash: Frames -> u64)
    requires StructureOk(s, hash) && Sound(s) && a.Begin?
    ensures StructureOk(Step(s, a, hash), hash)
  {
    var s' := Step(s, a, hash);
    if a.t < |s.puts| && (s.puts[a.t].Idle? || s.puts[a.t].Returned?) && hash(a.frames) != 0 {
      assert TableOk(s.tables[s.current], s.current, hash);
      FirstProbe(s.tables[s.current].keys, hash(a.frames));
      hide StructureOk, TableOk, Sound, ProbeAt, Passed;
      PutMoves(s, s', a.t, hash);
    }
  }

  lemma LookKeeps(s: Store, a: Action, hash: Frames -> u64)
    requires StructureOk(s, hash) && Sound(s) && a.Look?
    ensures StructureOk(Step(s, a, hash), hash)
  {
    var s' := Step(s, a, hash);
    if a.t < |s.puts| && s.puts[a.t].Probing? {
      assert PutOk(s.puts[a.t], s.tables, s.current, hash);
      hide StructureOk, TableOk, Sound, ProbeAt, Passed;
      PutMoves(s, s', a.t, hash);
    }
  }

  /** One more slot is behind the put: it was taken. */
  lemma PassedNext(keys: seq<u64>, h: u64, step: nat, skipped: bool)
    requires |keys| > 0 && Passed(keys, h, step, skipped) && keys[ProbeAt(h, |keys|, step)] != 0
    ensures (ProbeAt(h, |keys|, step) + (step + 1)) % |keys| == ProbeAt(h, |keys|, step + 1)
    ensures Passed(keys, h, step + 1, skipped || keys[ProbeAt(h, |keys|, step)] == h)
  {
    ProbeNext(h, |keys|, step);
    hide ProbeAt;
    if skipped {
      var m: nat :| m < step && keys[ProbeAt(h, |keys|, m)] == h;
      assert m < step + 1 && keys[ProbeAt(h, |keys|, m)] == h;
    } else if keys[ProbeAt(h, |keys|, step)] == h {
      assert step < step + 1 && keys[ProbeAt(h, |keys|, step)] == h;
    }
  }

  lemma FoundPutOk(s: Store, t: nat, req: Request, table: nat, slot: nat, hash: Frames -> u64)
    requires t < |s.puts| && On(s.tables, table, slot) && s.tables[table].capacity >= INITIAL_CAPACITY && table <= s.current
    requires req.hash == s.tables[table].keys[slot] == hash(req.frames) && req.hash != 0
    ensures var p := Found(s, t, req, table, slot).puts[t]; PutOk(p, s.tables, s.current, hash) && !Extending(p)
  {
    assert Denotes(s.tables, TraceId(s.tables[table].capacity, slot), req.hash);
    hide Denotes, TraceId;
  }

  lemma DecidedPutOk(s: Store, t: nat, again: bool, overLimit: bool, hash: Frames -> u64)
    requires Sound(s) && t < |s.puts| && s.puts[t].Looked? && PutOk(s.puts[t], s.tables, s.current, hash)
    ensures var s' := AfterLook(s, t, s.puts[t], again, overLimit);
      PutOk(s'.puts[t], s.tables, s.current, hash) && !Extending(s'.puts[t])
  {
    hide *;
    if s.puts[t].seen == s.puts[t].req.hash { DecidedFound(s, t, again, overLimit, hash); } else { DecidedOn(s, t, again, overLimit, hash); }
  }

  lemma DecidedFound(s: Store, t: nat, again: bool, overLimit: bool, hash: Frames -> u64)
    requires Sound(s) && t < |s.puts| && s.puts[t].Looked? && PutOk(s.puts[t], s.tables, s.current, hash)
    requires s.puts[t].seen == s.puts[t].req.hash
    ensures var s' := AfterLook(s, t, s.puts[t], again, overLimit);
      PutOk(s'.puts[t], s.tables, s.current, hash) && !Extending(s'.puts[t])
  {
    hide Found, Extending, Passed, ProbeAt, Denotes;
    FoundPutOk(s, t, s.puts[t].req, s.puts[t].table, s.puts[t].slot, hash);
  }

  lemma DecidedOn(s: Store, t: nat, again: bool, overLimit: bool, hash: Frames -> u64)
    requires Sound(s) && t < |s.puts| && s.puts[t].Looked? && PutOk(s.puts[t], s.tables, s.current, hash)
    requires s.puts[t].seen != s.puts[t].req.hash
    ensures var s' := AfterLook(s, t, s.puts[t], again, overLimit);
      PutOk(s'.puts[t], s.tables, s.current, hash) && !Extending(s'.puts[t])
  {
    hide ProbeAt, Passed, Denotes, TraceId, Found;
    var p := s.puts[t];
    var key := if again then s.tables[p.table].keys[p.slot] else p.seen;
    if key != 0 { PassedNext(s.tables[p.table].keys, p.req.hash, p.step, p.skipped); }
  }

  lemma DecideKeeps(s: Store, a: Action, hash: Frames -> u64)
    requires StructureOk(s, hash) && Sound(s) && a.Decide?
    ensures StructureOk(Step(s, a, hash), hash)
  {
    hide StructureOk, TableOk, PutOk, AfterLook, Extending;
    var s' := Step(s, a, hash);
    if a.t < |s.puts| && s.puts[a.t].Looked? {
      PutAt(s, a.t, hash);
      DecidedPutOk(s, a.t, a.again, a.overLimit, hash);
      LookFrame(s, a.t, s.puts[a.t], a.again, a.overLimit);
      PutMoves(s, s', a.t, hash);
    }
  }

  lemma PutAt(s: Store, t: nat, hash: Frames -> u64)
    requires StructureOk(s, hash) && t < |s.puts|
    ensures PutOk(s.puts[t], s.tables, s.current, hash)
  {
    hide PutOk, TableOk;
  }

  lemma LookFrame(s: Store, t: nat, p: Put, again: bool, overLimit: bool)
    requires t < |s.puts| && p.Looked? && p.table < |s.tables|
    requires s.tables[p.table].capacity >= INITIAL_CAPACITY && p.slot < |s.tables[p.table].keys|
    ensures var s' := AfterLook(s, t, p, again, overLimit);
            |s'.puts| == |s.puts| && s'.puts == s.puts[t := s'.puts[t]] && s'.tables == s.tables && s'.current == s.current
  {
    hide TraceId;
  }

  lemma ProbeSame(h: nat, k: nat, n: nat, m: nat)
    requires Pow2(k) > 0 && n < Pow2(k) && m < Pow2(k) && ProbeAt(h, Pow2(k), n) == ProbeAt(h, Pow2(k), m)
    ensures n == m
  {
    if n < m { ProbeInjective(h, k, n, m); } else if m < n { ProbeInjective(h, k, m, n); }
  }

  /** Claiming an empty slot after passing only taken ones keeps every probe sequence gapless. */
  lemma ClaimOrdered(keys: seq<u64>, k: nat, h: u64, step: nat)
    requires |keys| == Pow2(k) > 0 && Ordered(keys) && h != 0 && step < |keys|
    requires keys[ProbeAt(h, |keys|, step)] == 0
    requires forall m: nat | m < step :: keys[ProbeAt(h, |keys|, m)] != 0
    ensures Ordered(keys[ProbeAt(h, |keys|, step) := h])
  {
    var cap, slot := |keys|, ProbeAt(h, |keys|, step);
    var keys' := keys[slot := h];
    forall g: nat, m: nat, n: nat | g != 0 && m < n < cap && keys'[ProbeAt(g, cap, n)] == g
      ensures keys'[ProbeAt(g, cap, m)] != 0
    {
      if ProbeAt(g, cap, n) == slot {
        ProbeSame(h, k, n, step);
      } else {
        assert keys[ProbeAt(g, cap, n)] == g;
        assert keys[ProbeAt(g, cap, m)] != 0;
      }
    }
  }

  lemma ClaimKeeps(s: Store, a: Action, hash: Frames -> u64)
    requires StructureOk(s, hash) && Sound(s) && a.Claim?
    ensures StructureOk(Step(s, a, hash), hash)
  {
    var s' := Step(s, a, hash);
    if a.t < |s.puts| && s.puts[a.t].Claiming? {
      var p := s.puts[a.t];
      assert PutOk(p, s.tables, s.current, hash);
      var tb := s.tables[p.table];
      assert TableOk(tb, p.table, hash);
      if tb.keys[p.slot] != 0 {
        hide StructureOk, TableOk, Sound, ProbeAt, Passed;
        PutMoves(s, s', a.t, hash);
      } else {
        ClaimOrdered(tb.keys, 16 + p.table, p.req.hash, p.step);
        var tb' := s'.tables[p.table];
        forall slot | 0 <= slot < tb'.capacity ensures SlotOk(tb', slot, hash) { assert SlotOk(tb, slot, hash); }
        assert TableOk(tb', p.table, hash);
        hide StructureOk, TableOk, Sound, ProbeAt, Passed;
        TableMoves(s, s', a.t, p.table, hash);
      }
    }
  }

  /** Only the put that fills the last table to the threshold may extend the chain. */
  lemma ThresholdIsLast(s: Store, t: nat, hash: Frames -> u64)
    requires StructureOk(s, hash) && t < |s.puts| && s.puts[t].Sizing?
    requires var i := s.puts[t].table; i < |s.tables| && s.tables[i].size < Threshold(s.tables[i].capacity)
    ensures s.puts[t].table == s.current == |s.tables| - 1
    ensures forall u | 0 <= u < |s.puts| :: !Extending(s.puts[u])
  {
    assert PutOk(s.puts[t], s.tables, s.current, hash);
    hide PutOk, TableOk, Threshold;
  }

  lemma CountKeeps(s: Store, a: Action, hash: Frames -> u64)
    requires StructureOk(s, hash) && Sound(s) && a.CountSlot?
    ensures StructureOk(Step(s, a, hash), hash)
  {
    var s' := Step(s, a, hash);
    if a.t < |s.puts| && s.puts[a.t].Sizing? {
      var p := s.puts[a.t];
      assert PutOk(p, s.tables, s.current, hash);
      var tb, tb' := s.tables[p.table], s'.tables[p.table];
      assert TableOk(tb, p.table, hash);
      forall slot | 0 <= slot < tb'.capacity ensures SlotOk(tb', slot, hash) { assert SlotOk(tb, slot, hash); }
      assert TableOk(tb', p.table, hash);
      if tb.size + 1 == Threshold(tb.capacity) {
        ThresholdIsLast(s, a.t, hash);
        hide TableOk, Sound, ProbeAt, Passed, PutOk, Threshold;
        assert PutOk(s'.puts[a.t], s'.tables, s'.current, hash) by { CountedPutOk(s, s', a.t, hash); }
        Reassemble(s, s', a.t, hash);
      } else {
        hide StructureOk, TableOk, Sound, ProbeAt, Passed, Threshold;
        TableMoves(s, s', a.t, p.table, hash);
      }
    }
  }

  lemma CountedPutOk(s: Store, s': Store, t: nat, hash: Frames -> u64)
    requires t < |s.puts| && s.puts[t].Sizing? && PutOk(s.puts[t], s.tables, s.current, hash) && s.puts[t].table < |s.tables|
    requires s' == AfterCount(s, t, s.puts[t])
    ensures PutOk(s'.puts[t], s'.tables, s'.current, hash)
  {
    hide ProbeAt, Passed, Threshold;
  }

  lemma AllocateKeeps(s: Store, a: Action, hash: Frames -> u64)
    requires StructureOk(s, hash) && Sound(s) && a.Allocate?
    ensures StructureOk(Step(s, a, hash), hash)
  {
    var s' := Step(s, a, hash);
    if a.t < |s.puts| && s.puts[a.t].Growing? {
      var p := s.puts[a.t];
      assert PutOk(p, s.tables, s.current, hash);
      var cap := s.tables[p.table].capacity;
      assert TableOk(s.tables[p.table], p.table, hash);
      if a.granted && 2 * cap <= MAX_CAPACITY {
        assert Pow2(16 + (p.table + 1)) == 2 * cap;
        BlankOk(Some(p.table), 2 * cap, p.table + 1, hash);
        hide TableOk, Sound, ProbeAt, Passed, Threshold, NewTable, Pow2;
        Reassemble(s, s', a.t, hash);
      } else {
        hide StructureOk, TableOk, Sound, ProbeAt, Passed;
        PutMoves(s, s', a.t, hash);
      }
    }
  }

  lemma PublishKeeps(s: Store, a: Action, hash: Frames -> u64)
    requires StructureOk(s, hash) && Sound(s) && a.Publish?
    ensures StructureOk(Step(s, a, hash), hash)
  {
    var s' := Step(s, a, hash);
    if a.t < |s.puts| && s.puts[a.t].Publishing? {
      assert PutOk(s.puts[a.t], s.tables, s.current, hash);
      hide TableOk, Sound, ProbeAt, Passed, Threshold;
      Reassemble(s, s', a.t, hash);
    }
  }

  lemma InheritedHash(s: Store, i: nat, h: u64, reuse: Option<nat>, hash: Frames -> u64)
    requires StructureOk(s, hash) && i < |s.tables|
    ensures var trace := Inherited(s, s.tables[i], h, reuse); trace.Some? ==> hash(trace.value) == h
  {
    assert TableOk(s.tables[i], i, hash);
    if i > 0 {
      var before := s.tables[i - 1];
      assert TableOk(before, i - 1, hash);
      if reuse.Some? && reuse.value < before.capacity { assert SlotOk(before, reuse.value, hash); }
    }
    hide Pow2, ProbeAt, Ordered, ChainOk, GrowOk, PutOk;
  }

  /** Storing a trace of the right hash in a claimed slot. */
  lemma TracedTable(tb: Table, i: nat, slot: nat, trace: Option<Frames>, hash: Frames -> u64)
    requires TableOk(tb, i, hash) && slot < tb.capacity && tb.keys[slot] != 0
    requires trace.Some? ==> hash(trace.value) == tb.keys[slot]
    ensures TableOk(tb.(traces := tb.traces[slot := trace]), i, hash)
  {
    hide Ordered, Pow2;
    var tb' := tb.(traces := tb.traces[slot := trace]);
    forall j | 0 <= j < tb'.capacity ensures SlotOk(tb', j, hash) { assert SlotOk(tb, j, hash); }
  }

  lemma StoreKeeps(s: Store, a: Action, hash: Frames -> u64)
    requires StructureOk(s, hash) && Sound(s) && a.StoreTrace?
    ensures StructureOk(Step(s, a, hash), hash)
  {
    hide StructureOk, PutOk, TableOk, Inherited, TraceId, Grows, Extending;
    var s' := Step(s, a, hash);
    if a.t < |s.puts| && s.puts[a.t].Storing? {
      var p := s.puts[a.t];
      StoringParts(s, a.t, hash);
      InheritedHash(s, p.table, p.req.hash, a.reuse, hash);
      TracedTable(s.tables[p.table], p.table, p.slot, s'.tables[p.table].traces[p.slot], hash);
      StoredPut(s, a, hash);
      TableMoves(s, s', a.t, p.table, hash);
    }
  }

  /** What the invariant says of a put that is about to store its trace. */
  lemma StoringParts(s: Store, t: nat, hash: Frames -> u64)
    requires StructureOk(s, hash) && t < |s.puts| && s.puts[t].Storing?
    ensures var p := s.puts[t];
            && p.table < |s.tables| && TableOk(s.tables[p.table], p.table, hash) && p.slot < s.tables[p.table].capacity
            && p.slot < |s.tables[p.table].keys| && s.tables[p.table].keys[p.slot] == p.req.hash != 0
            && p.req.hash == hash(p.req.frames) && p.table <= s.current
  {
    assert PutOk(s.puts[t], s.tables, s.current, hash);
    hide TableOk, Passed, ProbeAt, Denotes;
  }

  lemma StoredPut(s: Store, a: Action, hash: Frames -> u64)
    requires StructureOk(s, hash) && Sound(s) && a.StoreTrace? && a.t < |s.puts| && s.puts[a.t].Storing?
    ensures var s' := Step(s, a, hash);
            PutOk(s'.puts[a.t], s'.tables, s'.current, hash) && !Extending(s'.puts[a.t]) && Grows(s.tables, s'.tables)
  {
    hide StructureOk, TableOk, Inherited;
    var s', p := Step(s, a, hash), s.puts[a.t];
    StoringParts(s, a.t, hash);
    assert On(s'.tables, p.table, p.slot) && s'.tables[p.table].keys[p.slot] == p.req.hash;
    assert Denotes(s'.tables, TraceId(s.tables[p.table].capacity, p.slot), p.req.hash);
  }

  lemma SampleKeeps(s: Store, a: Action, hash: Frames -> u64)
    requires StructureOk(s, hash) && Sound(s) && a.AddSample?
    ensures StructureOk(Step(s, a, hash), hash)
  {
    var s' := Step(s, a, hash);
    if a.t < |s.puts| && s.puts[a.t].Sampling? {
      var p := s.puts[a.t];
      assert PutOk(p, s.tables, s.current, hash);
      var tb, tb' := s.tables[p.table], s'.tables[p.table];
      assert TableOk(tb, p.table, hash);
      forall slot | 0 <= slot < tb'.capacity ensures SlotOk(tb', slot, hash) { assert SlotOk(tb, slot, hash); }
      assert TableOk(tb', p.table, hash);
      hide StructureOk, TableOk, Sound, ProbeAt, Passed;
      TableMoves(s, s', a.t, p.table, hash);
    }
  }

  lemma WeightKeeps(s: Store, a: Action, hash: Frames -> u64)
    requires StructureOk(s, hash) && Sound(s) && a.AddWeight?
    ensures StructureOk(Step(s, a, hash), hash)
  {
    var s' := Step(s, a, hash);
    if a.t < |s.puts| && s.puts[a.t].Weighing? {
      var p := s.puts[a.t];
      assert PutOk(p, s.tables, s.current, hash);
      var tb, tb' := s.tables[p.table], s'.tables[p.table];
      assert TableOk(tb, p.table, hash);
      forall slot | 0 <= slot < tb'.capacity ensures SlotOk(tb', slot, hash) { assert SlotOk(tb, slot, hash); }
      assert TableOk(tb', p.table, hash);
      hide StructureOk, TableOk, ProbeAt, Passed;
      assert On(s'.tables, p.table, p.slot) && s'.tables[p.table].keys[p.slot] == p.req.hash;
      assert Denotes(s'.tables, TraceId(tb.capacity, p.slot), p.req.hash);
      hide Sound, Denotes, TraceId;
      TableMoves(s, s', a.t, p.table, hash);
    }
  }

  lemma StructureKept(s: Store, a: Action, hash: Frames -> u64)
    requires StructureOk(s, hash) && Sound(s)
    ensures StructureOk(Step(s, a, hash), hash) && Sound(Step(s, a, hash))
  {
    hide *;
    match a {
    case Begin(_, _, _) => BeginKeeps(s, a, hash);
    case Look(_) => LookKeeps(s, a, hash);
    case Decide(_, _, _) => DecideKeeps(s, a, hash);
    case Claim(_) => ClaimKeeps(s, a, hash);
    case CountSlot(_) => CountKeeps(s, a, hash);
    case Allocate(_, _) => AllocateKeeps(s, a, hash);
    case Publish(_) => PublishKeeps(s, a, hash);
    case StoreTrace(_, _, _) => StoreKeeps(s, a, hash);
    case AddSample(_) => SampleKeeps(s, a, hash);
    case AddWeight(_) => WeightKeeps(s, a, hash);
    }
    StructureSound(Step(s, a, hash), hash);
  }
}

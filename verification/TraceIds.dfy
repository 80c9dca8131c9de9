/** Trace ids: how `put` encodes a slot and `add` decodes it. */
module TraceIds {
  import opened Bytes
  import opened TriangularProbe
  import opened CallTraceStorage
  import opened CallTraceInvariant

  /** `capacity()`: the number of slots of all tables up to the current one. */
  function TotalCapacity(capacity: nat): int { capacity * 2 - INITIAL_CAPACITY }

  lemma Pow2Sixteen()
    ensures Pow2(16) == INITIAL_CAPACITY
  {
    assert Pow2(4) == 16;
    assert Pow2(8) == 256;
    assert Pow2(12) == 4096;
  }

  lemma {:induction false} Pow2Grows(i: nat, j: nat)
    requires i < j
    ensures 2 * Pow2(i) <= Pow2(j)
    decreases j
  {
    if i + 1 < j { Pow2Grows(i, j - 1); }
  }

  /** The ids of one table follow directly after those of the tables before it. */
  lemma IdRange(i: nat, slot: nat)
    requires slot < Pow2(16 + i)
    ensures TotalCapacity(Pow2(16 + i)) - Pow2(16 + i) < TraceId(Pow2(16 + i), slot) <= TotalCapacity(Pow2(16 + i))
    ensures TraceId(Pow2(16 + i), slot) >= 1
  {
    Pow2Sixteen();
    if i > 0 { Pow2Grows(16, 16 + i); }
  }

  /** Different slots have different ids, across all tables. */
  lemma IdsDistinct(i: nat, a: nat, j: nat, b: nat)
    requires a < Pow2(16 + i) && b < Pow2(16 + j)
    requires TraceId(Pow2(16 + i), a) == TraceId(Pow2(16 + j), b)
    ensures i == j && a == b
  {
    if i < j { Pow2Grows(16 + i, 16 + j); } else if j < i { Pow2Grows(16 + j, 16 + i); }
  }

  /** The overflow id is the id of a slot exactly in the table of 2^31 slots. */
  lemma OverflowIdTaken(i: nat, capacity: nat)
    requires capacity == Pow2(16 + i)
    ensures (exists slot: nat :: slot < capacity && TraceId(capacity, slot) == OVERFLOW_TRACE_ID) <==> i == 15
  {
    Pow2Sixteen();
    assert Pow2(20) == 0x10_0000;
    assert Pow2(24) == 0x100_0000;
    assert Pow2(28) == 0x1000_0000;
    assert Pow2(31) == 0x8000_0000;
    if i < 15 { Pow2Grows(16 + i, 31); }
    if i > 15 { Pow2Grows(31, 16 + i); }
    if i == 15 { assert TraceId(capacity, 65534) == OVERFLOW_TRACE_ID; }
  }

  /** What `add` must do to a table. */
  function Credited(tb: Table, slot: nat, samples: nat, weight: nat): Table
    requires slot < |tb.samples| && slot < |tb.weights|
  {
    tb.(samples := tb.samples[slot := tb.samples[slot] + samples], weights := tb.weights[slot := tb.weights[slot] + weight])
  }

  /** `id` is the id of a slot of the current table or of one before it. */
  predicate Names(s: Store, i: nat, slot: nat, id: nat) {
    i <= s.current < |s.tables| && slot < s.tables[i].capacity && id == TraceId(s.tables[i].capacity, slot)
  }

  lemma Capacities(s: Store, i: nat, hash: Frames -> u64)
    requires StructureOk(s, hash) && i <= s.current
    ensures s.current < |s.tables| && INITIAL_CAPACITY <= s.tables[i].capacity <= MAX_CAPACITY
    ensures |s.tables[i].samples| == |s.tables[i].weights| == s.tables[i].capacity == Pow2(16 + i)
    ensures i < s.current ==> s.tables[i + 1].capacity == 2 * s.tables[i].capacity
    ensures i == 0 ==> s.tables[i].capacity == INITIAL_CAPACITY
  {
    assert TableOk(s.tables[i], i, hash);
    if i < s.current { assert TableOk(s.tables[i + 1], i + 1, hash); }
    Pow2Sixteen();
    hide Ordered, SlotOk, GrowOk, PutOk;
  }

  lemma NamesNothing(s: Store, id: nat, hash: Frames -> u64)
    requires StructureOk(s, hash) && (id == 0 || id > TotalCapacity(s.tables[s.current].capacity))
    ensures forall i: nat, slot: nat :: !Names(s, i, slot, id)
  {
    Capacities(s, s.current, hash);
    forall i: nat, slot: nat ensures !Names(s, i, slot, id) {
      if i <= s.current && slot < s.tables[i].capacity {
        Capacities(s, i, hash);
        IdRange(i, slot);
        if i < s.current { Pow2Grows(16 + i, 16 + s.current); }
      }
    }
  }

  lemma NamesOne(s: Store, j: nat, key: nat, id: nat, hash: Frames -> u64)
    requires StructureOk(s, hash) && j <= s.current && key == id + (INITIAL_CAPACITY - 1)
    requires s.tables[j].capacity <= key < 2 * s.tables[j].capacity
    ensures forall i: nat, slot: nat :: Names(s, i, slot, id) <==> i == j && slot == key - s.tables[j].capacity
  {
    Capacities(s, j, hash);
    forall i: nat, slot: nat ensures Names(s, i, slot, id) <==> i == j && slot == key - s.tables[j].capacity {
      if Names(s, i, slot, id) {
        Capacities(s, i, hash);
        IdsDistinct(i, slot, j, key - s.tables[j].capacity);
      }
    }
  }

  /**
   `add`: an id that `put` returned for a slot credits exactly that slot; 0, the overflow id and every other
   number that is no slot's id change nothing.
   */
  method Add(s: Store, id: u32, samples: nat, weight: nat, ghost hash: Frames -> u64) returns (r: Store)
    requires StructureOk(s, hash)
    ensures forall i: nat, slot: nat | Names(s, i, slot, id) ::
      |s.tables[i].samples| == |s.tables[i].weights| == s.tables[i].capacity
      && r == s.(tables := s.tables[i := Credited(s.tables[i], slot, samples, weight)])
    ensures (forall i: nat, slot: nat :: !Names(s, i, slot, id)) ==> r == s
    ensures id == 0 || id > TotalCapacity(s.tables[s.current].capacity) ==> r == s
  {
    Capacities(s, s.current, hash);
    var total := U32(U32(s.tables[s.current].capacity * 2) - INITIAL_CAPACITY);
    assert total == TotalCapacity(s.tables[s.current].capacity);
    hide StructureOk, Names, Pow2;
    if id > total {
      NamesNothing(s, id, hash);
      return s;
    }
    var key := U32(id + (INITIAL_CAPACITY - 1));
    assert key == id + (INITIAL_CAPACITY - 1);
    hide U32;
    var i: int := s.current;
    while i >= 0
      invariant -1 <= i <= s.current
      invariant if i == s.current then key < 2 * s.tables[i].capacity else key < s.tables[i + 1].capacity
    {
      Capacities(s, i, hash);
      if key >= s.tables[i].capacity {
        NamesOne(s, i, key, id, hash);
        assert Names(s, i, key - s.tables[i].capacity, id);
        return s.(tables := s.tables[i := Credited(s.tables[i], key - s.tables[i].capacity, samples, weight)]);
      }
      i := i - 1;
    }
    r := s;
    Capacities(s, 0, hash);
    NamesNothing(s, id, hash);
  }
}

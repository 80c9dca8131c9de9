/** Puts come to an end, and traces are stored: what the storage does when nothing goes wrong. */
module CallTraceProgress {
  import opened Bytes
  import opened TriangularProbe
  import opened CallTraceStorage
  import opened CallTraceInvariant
  import opened CallTraceGuarantees

  // ------------------------------------------------------------------ traces are stored

  /** A put that has claimed its slot and not stored the trace yet. */
  predicate Filling(p: Put) { p.Sizing? || p.Growing? || p.Publishing? || p.Storing? }

  /** A claimed slot holds a trace, or the put that claimed it is about to store one. */
  ghost predicate Backed(s: Store, i: nat, slot: nat)
    requires i < |s.tables| && slot < |s.tables[i].keys| == |s.tables[i].traces|
  {
    s.tables[i].keys[slot] != 0 ==>
      s.tables[i].traces[slot].Some? || exists t :: 0 <= t < |s.puts| && Filling(s.puts[t]) && s.puts[t].table == i && s.puts[t].slot == slot
  }

  ghost predicate BackedAt(s: Store, i: nat, slot: nat) {
    i < |s.tables| && slot < |s.tables[i].keys| ==> slot < |s.tables[i].traces| == |s.tables[i].keys| && Backed(s, i, slot)
  }

  ghost predicate AllBacked(s: Store) { forall i: nat, slot: nat :: BackedAt(s, i, slot) }

  predicate MemoryGranted(a: Action) { a.StoreTrace? ==> a.granted }

  /** What a step does to one slot of one table. */
  ghost predicate SlotKept(s: Store, s': Store, t: nat, i: nat, slot: nat) {
    && t < |s.puts| == |s'.puts| && (forall u | 0 <= u < |s.puts| && u != t :: s'.puts[u] == s.puts[u])
    && i < |s.tables| && i < |s'.tables| && slot < |s.tables[i].keys| == |s.tables[i].traces| && slot < |s'.tables[i].keys| == |s'.tables[i].traces|
    && s'.tables[i].keys[slot] == s.tables[i].keys[slot] && (s.tables[i].traces[slot].Some? ==> s'.tables[i].traces[slot].Some?)
  }

  /** A slot stays backed unless its own put stops filling it. */
  lemma BackedKept(s: Store, s': Store, t: nat, i: nat, slot: nat)
    requires SlotKept(s, s', t, i, slot) && Backed(s, i, slot)
    requires Filling(s.puts[t]) && s.puts[t].table == i && s.puts[t].slot == slot ==>
               s'.tables[i].traces[slot].Some? || (Filling(s'.puts[t]) && s'.puts[t].table == i && s'.puts[t].slot == slot)
    ensures Backed(s', i, slot)
  {
    if s'.tables[i].keys[slot] != 0 && s'.tables[i].traces[slot].None? {
      var u :| 0 <= u < |s.puts| && Filling(s.puts[u]) && s.puts[u].table == i && s.puts[u].slot == slot;
      assert Filling(s'.puts[u]) && s'.puts[u].table == i && s'.puts[u].slot == slot;
    }
  }

  /** The slot is as before, and a put that fills a slot goes on filling it. */
  ghost predicate FillsOn(s: Store, s': Store, t: nat, i: nat, slot: nat) {
    && SlotKept(s, s', t, i, slot)
    && (Filling(s.puts[t]) ==> Filling(s'.puts[t]) && s'.puts[t].table == s.puts[t].table && s'.puts[t].slot == s.puts[t].slot)
  }

  lemma SameTablesFill(s: Store, s': Store, t: nat, i: nat, slot: nat)
    requires Sound(s) && s'.tables == s.tables && t < |s.puts| == |s'.puts| && i < |s.tables| && slot < |s.tables[i].keys|
    requires forall u | 0 <= u < |s.puts| && u != t :: s'.puts[u] == s.puts[u]
    requires Filling(s.puts[t]) ==> Filling(s'.puts[t]) && s'.puts[t].table == s.puts[t].table && s'.puts[t].slot == s.puts[t].slot
    ensures FillsOn(s, s', t, i, slot)
  {
  }

  lemma LookSlot(s: Store, t: nat, again: bool, overLimit: bool, i: nat, slot: nat)
    requires Sound(s) && t < |s.puts| && s.puts[t].Looked? && i < |s.tables| && slot < |s.tables[i].keys|
    ensures FillsOn(s, AfterLook(s, t, s.puts[t], again, overLimit), t, i, slot)
  {
    hide TraceId;
  }

  lemma SizeSlot(s: Store, t: nat, granted: bool, i: nat, slot: nat)
    requires Sound(s) && t < |s.puts| && i < |s.tables| && slot < |s.tables[i].keys|
    ensures s.puts[t].Sizing? ==> FillsOn(s, AfterCount(s, t, s.puts[t]), t, i, slot)
    ensures s.puts[t].Growing? ==> FillsOn(s, AfterAllocate(s, t, s.puts[t], granted), t, i, slot)
  {
    hide Threshold, NewTable;
  }

  lemma CountSlotKept(s: Store, t: nat, i: nat, slot: nat)
    requires Sound(s) && t < |s.puts| && i < |s.tables| && slot < |s.tables[i].keys|
    ensures s.puts[t].Sampling? ==> FillsOn(s, AfterSample(s, t, s.puts[t]), t, i, slot)
    ensures s.puts[t].Weighing? ==> FillsOn(s, AfterWeight(s, t, s.puts[t]), t, i, slot)
  {
    hide TraceId;
  }

  /** What a step other than a claim or a store does to a slot of a table that was there before. */
  lemma StepSlot(s: Store, a: Action, hash: Frames -> u64, i: nat, slot: nat)
    requires Sound(s) && a.t < |s.puts| && !(a.Claim? && s.puts[a.t].Claiming?) && !a.StoreTrace?
    requires i < |s.tables| && slot < |s.tables[i].keys|
    ensures FillsOn(s, Step(s, a, hash), a.t, i, slot)
  {
    hide AfterLook, AfterClaim, AfterCount, AfterAllocate, AfterStore, AfterSample, AfterWeight, FillsOn;
    var p := s.puts[a.t];
    SameTablesFill(s, s, a.t, i, slot);
    match a
    case Begin(t, frames, weight) => SameTablesFill(s, Step(s, a, hash), t, i, slot);
    case Look(t) => SameTablesFill(s, Step(s, a, hash), t, i, slot);
    case Decide(t, again, overLimit) => if p.Looked? { LookSlot(s, t, again, overLimit, i, slot); }
    case Claim(t) =>
    case CountSlot(t) => SizeSlot(s, t, true, i, slot);
    case Allocate(t, granted) => SizeSlot(s, t, granted, i, slot);
    case Publish(t) => SameTablesFill(s, Step(s, a, hash), t, i, slot);
    case AddSample(t) => CountSlotKept(s, t, i, slot);
    case AddWeight(t) => CountSlotKept(s, t, i, slot);
  }

  lemma ClaimBacked(s: Store, t: nat, i: nat, slot: nat)
    requires Sound(s) && AllBacked(s) && t < |s.puts| && s.puts[t].Claiming? && i < |s.tables| && slot < |s.tables[i].keys|
    ensures var s' := AfterClaim(s, t, s.puts[t]);
            i < |s'.tables| && slot < |s'.tables[i].keys| == |s'.tables[i].traces| && Backed(s', i, slot)
  {
    var s', p := AfterClaim(s, t, s.puts[t]), s.puts[t];
    assert BackedAt(s, i, slot);
    if i == p.table && slot == p.slot && s.tables[i].keys[slot] == 0 {
      assert Filling(s'.puts[t]) && s'.puts[t].table == i && s'.puts[t].slot == slot;
    } else {
      BackedKept(s, s', t, i, slot);
    }
  }

  lemma StoreBacked(s: Store, t: nat, reuse: Option<nat>, i: nat, slot: nat)
    requires Sound(s) && AllBacked(s) && t < |s.puts| && s.puts[t].Storing? && i < |s.tables| && slot < |s.tables[i].keys|
    ensures var s' := AfterStore(s, t, s.puts[t], reuse, true);
            i < |s'.tables| && slot < |s'.tables[i].keys| == |s'.tables[i].traces| && Backed(s', i, slot)
  {
    hide TraceId, Inherited;
    var s' := AfterStore(s, t, s.puts[t], reuse, true);
    assert BackedAt(s, i, slot);
    BackedKept(s, s', t, i, slot);
  }

  lemma BackedStep(s: Store, a: Action, hash: Frames -> u64)
    requires Sound(s) && AllBacked(s) && MemoryGranted(a)
    ensures AllBacked(Step(s, a, hash))
  {
    hide Step, AllBacked, Sound, MemoryGranted;
    if a.t >= |s.puts| { StrangerStep(s, a, hash); } else { OwnStep(s, a, hash); }
  }

  lemma OwnStep(s: Store, a: Action, hash: Frames -> u64)
    requires Sound(s) && AllBacked(s) && MemoryGranted(a) && a.t < |s.puts|
    ensures AllBacked(Step(s, a, hash))
  {
    hide Step, Backed, Sound, MemoryGranted, Enlarged, Blank;
    var s' := Step(s, a, hash);
    TablesAfter(s, a, hash);
    forall i: nat, slot: nat ensures BackedAt(s', i, slot) {
      if i < |s'.tables| && slot < |s'.tables[i].keys| {
        EnlargedAt(s.tables, s'.tables, i);
        if i >= |s.tables| { BlankBacked(s', i, slot); } else { SlotBacked(s, a, hash, i, slot); }
      }
    }
  }

  lemma EnlargedAt(a: seq<Table>, b: seq<Table>, i: nat)
    requires Enlarged(a, b) && i < |b|
    ensures if i < |a| then |b[i].keys| == |a[i].keys| else Blank(b[i])
  {
    hide Blank;
  }

  lemma StrangerStep(s: Store, a: Action, hash: Frames -> u64)
    requires Sound(s) && a.t >= |s.puts|
    ensures Step(s, a, hash) == s
  {
  }

  /** Tables keep their size, and a new one is empty. */
  ghost predicate Enlarged(a: seq<Table>, b: seq<Table>) {
    && |a| <= |b| && (forall i | 0 <= i < |a| :: |b[i].keys| == |a[i].keys|)
    && (forall i | |a| <= i < |b| :: Blank(b[i]))
  }

  predicate Blank(tb: Table) { |tb.traces| == |tb.keys| && forall slot | 0 <= slot < |tb.keys| :: tb.keys[slot] == 0 }

  lemma TablesAfter(s: Store, a: Action, hash: Frames -> u64)
    requires Sound(s)
    ensures Enlarged(s.tables, Step(s, a, hash).tables)
  {
    hide AfterLook, AfterClaim, AfterCount, AfterAllocate, AfterStore, AfterSample, AfterWeight, Enlarged;
    EnlargedSame(s.tables, s.tables);
    if a.t < |s.puts| {
      var t, p := a.t, s.puts[a.t];
      match a
      case Begin(_, frames, weight) =>
      case Look(_) =>
      case Decide(_, again, overLimit) => if p.Looked? { LookTables(s, t, again, overLimit); }
      case Claim(_) => if p.Claiming? { ClaimTables(s, t); }
      case CountSlot(_) => if p.Sizing? { CountTables(s, t); }
      case Allocate(_, granted) => if p.Growing? { AllocateTables(s, t, granted); }
      case Publish(_) =>
      case StoreTrace(_, reuse, granted) => if p.Storing? { StoreTables(s, t, reuse, granted); }
      case AddSample(_) => if p.Sampling? { SampleTables(s, t); }
      case AddWeight(_) => if p.Weighing? { WeightTables(s, t); }
    }
  }

  lemma EnlargedSame(a: seq<Table>, b: seq<Table>)
    requires |a| == |b| && forall i | 0 <= i < |a| :: |b[i].keys| == |a[i].keys|
    ensures Enlarged(a, b)
  {
    hide Blank;
  }

  lemma LookTables(s: Store, t: nat, again: bool, overLimit: bool)
    requires Sound(s) && t < |s.puts| && s.puts[t].Looked?
    ensures Enlarged(s.tables, AfterLook(s, t, s.puts[t], again, overLimit).tables)
  {
    hide TraceId, Blank;
    EnlargedSame(s.tables, AfterLook(s, t, s.puts[t], again, overLimit).tables);
  }

  lemma ClaimTables(s: Store, t: nat)
    requires Sound(s) && t < |s.puts| && s.puts[t].Claiming?
    ensures Enlarged(s.tables, AfterClaim(s, t, s.puts[t]).tables)
  {
    hide Blank;
    EnlargedSame(s.tables, AfterClaim(s, t, s.puts[t]).tables);
  }

  lemma CountTables(s: Store, t: nat)
    requires Sound(s) && t < |s.puts| && s.puts[t].Sizing?
    ensures Enlarged(s.tables, AfterCount(s, t, s.puts[t]).tables)
  {
    hide Blank, Threshold;
    EnlargedSame(s.tables, AfterCount(s, t, s.puts[t]).tables);
  }

  lemma AllocateTables(s: Store, t: nat, granted: bool)
    requires Sound(s) && t < |s.puts| && s.puts[t].Growing?
    ensures Enlarged(s.tables, AfterAllocate(s, t, s.puts[t], granted).tables)
  {
    hide Blank, NewTable;
    NewIsBlank();
  }

  lemma StoreTables(s: Store, t: nat, reuse: Option<nat>, granted: bool)
    requires Sound(s) && t < |s.puts| && s.puts[t].Storing?
    ensures Enlarged(s.tables, AfterStore(s, t, s.puts[t], reuse, granted).tables)
  {
    hide Blank, TraceId, Inherited;
    EnlargedSame(s.tables, AfterStore(s, t, s.puts[t], reuse, granted).tables);
  }

  lemma SampleTables(s: Store, t: nat)
    requires Sound(s) && t < |s.puts| && s.puts[t].Sampling?
    ensures Enlarged(s.tables, AfterSample(s, t, s.puts[t]).tables)
  {
    hide Blank;
    EnlargedSame(s.tables, AfterSample(s, t, s.puts[t]).tables);
  }

  lemma WeightTables(s: Store, t: nat)
    requires Sound(s) && t < |s.puts| && s.puts[t].Weighing?
    ensures Enlarged(s.tables, AfterWeight(s, t, s.puts[t]).tables)
  {
    hide Blank, TraceId;
    EnlargedSame(s.tables, AfterWeight(s, t, s.puts[t]).tables);
  }

  lemma NewIsBlank()
    ensures forall prev: Option<nat>, capacity: nat :: Blank(NewTable(prev, capacity))
  {
  }

  lemma BlankBacked(s: Store, i: nat, slot: nat)
    requires i < |s.tables| && slot < |s.tables[i].keys| && Blank(s.tables[i])
    ensures slot < |s.tables[i].traces| == |s.tables[i].keys| && Backed(s, i, slot)
  {
  }

  lemma SlotBacked(s: Store, a: Action, hash: Frames -> u64, i: nat, slot: nat)
    requires Sound(s) && AllBacked(s) && MemoryGranted(a) && a.t < |s.puts| && i < |s.tables| && slot < |s.tables[i].keys|
    ensures var s' := Step(s, a, hash);
            i < |s'.tables| && slot < |s'.tables[i].keys| == |s'.tables[i].traces| && Backed(s', i, slot)
  {
    hide Backed, Filling, AfterClaim, AfterStore, AfterLook, AfterCount, AfterAllocate, AfterSample, AfterWeight;
    assert BackedAt(s, i, slot);
    if a.Claim? && s.puts[a.t].Claiming? {
      ClaimBacked(s, a.t, i, slot);
    } else if a.StoreTrace? {
      if s.puts[a.t].Storing? { StoreBacked(s, a.t, a.reuse, i, slot); }
    } else {
      StepSlot(s, a, hash, i, slot);
      BackedKept(s, Step(s, a, hash), a.t, i, slot);
    }
  }

  lemma {:induction false} BackedRun(s: Store, actions: seq<Action>, hash: Frames -> u64)
    requires StructureOk(s, hash) && AllBacked(s) && forall a | a in actions :: MemoryGranted(a)
    ensures AllBacked(Run(s, actions, hash))
    decreases |actions|
  {
    hide StructureOk, Step, AllBacked, MemoryGranted;
    if actions != [] {
      StructureSound(s, hash);
      StructureKept(s, actions[0], hash);
      BackedStep(s, actions[0], hash);
      BackedRun(Step(s, actions[0], hash), actions[1..], hash);
    }
  }

  /** While memory is granted: once all puts have returned, every claimed slot holds a trace, whose hash is the key of the slot. */
  lemma TracesAreStored(threads: nat, actions: seq<Action>, hash: Frames -> u64, i: nat, slot: nat)
    requires forall a | a in actions :: MemoryGranted(a)
    requires forall p | p in RunFromStart(threads, actions, hash).puts :: AtRest(p)
    requires var s := RunFromStart(threads, actions, hash); i < |s.tables| && slot < |s.tables[i].keys| && s.tables[i].keys[slot] != 0
    ensures var s := RunFromStart(threads, actions, hash);
            slot < |s.tables[i].traces| && s.tables[i].traces[slot].Some? && hash(s.tables[i].traces[slot].value) == s.tables[i].keys[slot]
  {
    StructureInitial(threads, hash);
    var s0 := Initial(threads);
    assert AllBacked(s0);
    hide AllBacked, Run, Initial;
    BackedRun(s0, actions, hash);
    var s := Run(s0, actions, hash);
    BackedAtRest(s, hash, i, slot);
  }

  lemma BackedAtRest(s: Store, hash: Frames -> u64, i: nat, slot: nat)
    requires StructureOk(s, hash) && AllBacked(s) && (forall p | p in s.puts :: AtRest(p))
    requires i < |s.tables| && slot < |s.tables[i].keys| && s.tables[i].keys[slot] != 0
    ensures slot < |s.tables[i].traces| && s.tables[i].traces[slot].Some? && hash(s.tables[i].traces[slot].value) == s.tables[i].keys[slot]
  {
    assert BackedAt(s, i, slot);
    assert TableOk(s.tables[i], i, hash);
    assert SlotOk(s.tables[i], slot, hash);
    hide StructureOk, Ordered, Pow2;
    forall t | 0 <= t < |s.puts| ensures !Filling(s.puts[t]) { assert s.puts[t] in s.puts; }
  }

  // ------------------------------------------------------------------ a put that runs alone

  /** The operation that comes next for a put, memory being granted and not over its limit. */
  function NextOperation(p: Put, t: nat): Action
    requires !AtRest(p)
  {
    match p
    case Probing(_, _, _, _, _) => Look(t)
    case Looked(_, _, _, _, _, _) => Decide(t, false, false)
    case Claiming(_, _, _, _, _) => Claim(t)
    case Sizing(_, _, _) => CountSlot(t)
    case Growing(_, _, _) => Allocate(t, true)
    case Publishing(_, _, _, _) => Publish(t)
    case Storing(_, _, _) => StoreTrace(t, None, true)
    case Sampling(_, _, _) => AddSample(t)
    case Weighing(_, _, _) => AddWeight(t)
  }

  /** The actions are those of a put that `t` completes alone, and lead from `s` to `r`. */
  ghost predicate Alone(s: Store, t: nat, actions: seq<Action>, hash: Frames -> u64, r: Store)
    requires StructureOk(s, hash)
    decreases |actions|
  {
    t < |s.puts|
    && if actions == [] then AtRest(s.puts[t]) && r == s
       else
         StructureSound(s, hash);
         StructureKept(s, actions[0], hash);
         !AtRest(s.puts[t]) && actions[0] == NextOperation(s.puts[t], t) && Alone(Step(s, actions[0], hash), t, actions[1..], hash, r)
  }

  lemma AloneStep(s: Store, t: nat, rest: seq<Action>, hash: Frames -> u64, r: Store)
    requires StructureOk(s, hash) && Sound(s) && t < |s.puts| && !AtRest(s.puts[t])
    requires var s' := Step(s, NextOperation(s.puts[t], t), hash); StructureOk(s', hash) && Alone(s', t, rest, hash, r)
    ensures Alone(s, t, [NextOperation(s.puts[t], t)] + rest, hash, r)
  {
    hide StructureOk, Sound, Step, NextOperation;
    var a := NextOperation(s.puts[t], t);
    assert ([a] + rest)[1..] == rest;
  }

  /** No slot of table `i` is empty or holds `h`. */
  ghost predicate Full(s: Store, i: nat, h: u64) {
    i < |s.tables| && forall slot | 0 <= slot < |s.tables[i].keys| :: s.tables[i].keys[slot] != 0 && s.tables[i].keys[slot] != h
  }

  /** How a put ends: lost, when its table is full; otherwise credited to a slot, or silent if it has no weight. */
  ghost predicate Ends(s: Store, t: nat, req: Request, table: nat, r: Store) {
    && t < |r.puts| && r.puts[t].Returned? && r.puts[t].req == req
    && if Full(s, table, req.hash) then
         r.puts[t].id == OVERFLOW_TRACE_ID && r.lost == s.lost + multiset{req} && r.credited == s.credited && r.silent == s.silent
       else
         r.lost == s.lost
         && (if req.weight != 0 then r.credited == s.credited + [req] && r.silent == s.silent
             else r.credited == s.credited && r.silent == s.silent + multiset{req})
  }

  /** The put has found its slot. */
  ghost predicate Credits(s: Store, t: nat, req: Request, r: Store) {
    && t < |r.puts| && r.puts[t].Returned? && r.puts[t].req == req && r.lost == s.lost
    && (if req.weight != 0 then r.credited == s.credited + [req] && r.silent == s.silent
        else r.credited == s.credited && r.silent == s.silent + multiset{req})
  }

  lemma CountEnds(s: Store, t: nat, hash: Frames -> u64) returns (actions: seq<Action>, r: Store)
    requires StructureOk(s, hash) && t < |s.puts| && s.puts[t].Sampling?
    ensures Alone(s, t, actions, hash, r) && Credits(s, t, s.puts[t].req, r)
  {
    hide StructureOk, TraceId, Alone;
    PutAt(s, t, hash);
    StructureSound(s, hash);
    StructureKept(s, AddSample(t), hash);
    var s1 := Step(s, AddSample(t), hash);
    StructureKept(s1, AddWeight(t), hash);
    r := Step(s1, AddWeight(t), hash);
    AloneDone(r, t, hash);
    AloneStep(s1, t, [], hash, r);
    AloneStep(s, t, [AddWeight(t)] + [], hash, r);
    actions := [AddSample(t)] + ([AddWeight(t)] + []);
  }

  lemma AloneDone(r: Store, t: nat, hash: Frames -> u64)
    requires StructureOk(r, hash) && t < |r.puts| && AtRest(r.puts[t])
    ensures Alone(r, t, [], hash, r)
  {
    hide StructureOk;
  }

  /** From a claimed slot on. */
  lemma {:induction false} FillEnds(s: Store, t: nat, hash: Frames -> u64) returns (actions: seq<Action>, r: Store)
    requires StructureOk(s, hash) && t < |s.puts| && Filling(s.puts[t])
    ensures Alone(s, t, actions, hash, r) && Credits(s, t, s.puts[t].req, r)
    decreases FillPhase(s.puts[t])
  {
    hide StructureOk, Sound, Alone, Step;
    StructureSound(s, hash);
    PublishAt(s, t, hash);
    FillStep(s, t, hash);
    var a := NextOperation(s.puts[t], t);
    StructureKept(s, a, hash);
    var s1 := Step(s, a, hash);
    if Filling(s1.puts[t]) {
      actions, r := FillEnds(s1, t, hash);
    } else if s1.puts[t].Sampling? {
      actions, r := CountEnds(s1, t, hash);
    } else {
      AloneDone(s1, t, hash);
      actions, r := [], s1;
    }
    AloneStep(s, t, actions, hash, r);
    actions := [a] + actions;
  }

  /** What one operation of a put that fills its slot comes to. */
  lemma FillStep(s: Store, t: nat, hash: Frames -> u64)
    requires Sound(s) && t < |s.puts| && Filling(s.puts[t]) && (s.puts[t].Publishing? ==> s.puts[t].next < |s.tables|)
    ensures var p := s.puts[t]; var s' := Step(s, NextOperation(p, t), hash);
            && |s'.puts| == |s.puts| && s'.lost == s.lost && s'.credited == s.credited && s'.puts[t].req == p.req
            && (if p.Storing? then
                  (if p.req.weight != 0 then s'.puts[t].Sampling? && s'.silent == s.silent
                   else s'.puts[t].Returned? && s'.silent == s.silent + multiset{p.req})
                else Filling(s'.puts[t]) && FillPhase(s'.puts[t]) < FillPhase(p) && s'.silent == s.silent)
  {
    hide AfterCount, AfterAllocate, AfterStore;
    if s.puts[t].Sizing? { CountFills(s, t); }
    if s.puts[t].Growing? { AllocateFills(s, t); }
    if s.puts[t].Storing? { StoreFills(s, t); }
  }

  lemma CountFills(s: Store, t: nat)
    requires t < |s.puts| && s.puts[t].Sizing? && s.puts[t].table < |s.tables|
    ensures var p := s.puts[t]; var s' := AfterCount(s, t, p);
            && |s'.puts| == |s.puts| && s'.lost == s.lost && s'.credited == s.credited && s'.silent == s.silent
            && s'.puts[t].req == p.req && Filling(s'.puts[t]) && FillPhase(s'.puts[t]) < FillPhase(p)
  {
    hide Threshold;
  }

  lemma AllocateFills(s: Store, t: nat)
    requires t < |s.puts| && s.puts[t].Growing? && s.puts[t].table < |s.tables|
    ensures var p := s.puts[t]; var s' := AfterAllocate(s, t, p, true);
            && |s'.puts| == |s.puts| && s'.lost == s.lost && s'.credited == s.credited && s'.silent == s.silent
            && s'.puts[t].req == p.req && Filling(s'.puts[t]) && FillPhase(s'.puts[t]) < FillPhase(p)
  {
    hide NewTable;
  }

  lemma StoreFills(s: Store, t: nat)
    requires Sound(s) && t < |s.puts| && s.puts[t].Storing?
    ensures var p := s.puts[t]; var s' := AfterStore(s, t, p, None, true);
            && |s'.puts| == |s.puts| && s'.lost == s.lost && s'.credited == s.credited && s'.puts[t].req == p.req
            && (if p.req.weight != 0 then s'.puts[t].Sampling? && s'.silent == s.silent
                else s'.puts[t].Returned? && s'.silent == s.silent + multiset{p.req})
  {
    hide TraceId, Inherited;
  }

  function FillPhase(p: Put): nat { if p.Sizing? then 3 else if p.Growing? then 2 else if p.Publishing? then 1 else 0 }

  lemma PublishAt(s: Store, t: nat, hash: Frames -> u64)
    requires StructureOk(s, hash) && t < |s.puts|
    ensures s.puts[t].Publishing? ==> s.puts[t].next < |s.tables|
  {
    hide TableOk, PutOk;
  }

  /** Nothing but the put itself has moved. */
  predicate PutMoved(s: Store, s': Store, t: nat) {
    |s'.puts| == |s.puts| && s'.tables == s.tables && s'.lost == s.lost && s'.credited == s.credited && s'.silent == s.silent
  }

  lemma EndsLater(s: Store, s': Store, t: nat, req: Request, table: nat, r: Store)
    requires PutMoved(s, s', t) && Ends(s', t, req, table, r)
    ensures Ends(s, t, req, table, r)
  {
  }

  /** How far a put is from its next decision: a slot that is taken is looked at once more, an empty one is claimed. */
  function SearchPhase(s: Store, p: Put): nat
    requires Searching(p) && p.table < |s.tables| && p.slot < |s.tables[p.table].keys|
  {
    if s.tables[p.table].keys[p.slot] == 0 then (if p.Probing? then 2 else if p.Looked? then 1 else 0)
    else if p.Looked? then (if p.seen == 0 then 3 else 0)
    else if p.Claiming? then 2
    else 1
  }

  /** What the invariant says of a put that searches. */
  lemma SearchingParts(s: Store, t: nat, hash: Frames -> u64)
    requires StructureOk(s, hash) && t < |s.puts| && Searching(s.puts[t])
    ensures var p := s.puts[t];
            && p.table < |s.tables| && p.slot < |s.tables[p.table].keys| == s.tables[p.table].capacity && p.step < s.tables[p.table].capacity
            && s.tables[p.table].capacity >= INITIAL_CAPACITY && p.req.hash != 0
            && (p.Looked? ==> p.seen == 0 || p.seen == s.tables[p.table].keys[p.slot])
  {
    PutAt(s, t, hash);
    StructureSound(s, hash);
    hide StructureOk, Passed, ProbeAt, Denotes;
  }

  /** What one operation of a searching put comes to. */
  lemma SearchStep(s: Store, t: nat, hash: Frames -> u64)
    requires Sound(s) && t < |s.puts| && Searching(s.puts[t]) && !s.puts[t].skipped
    requires var p := s.puts[t];
             && p.table < |s.tables| && p.slot < |s.tables[p.table].keys| == s.tables[p.table].capacity && p.step < s.tables[p.table].capacity
             && p.req.hash != 0 && (p.Looked? ==> p.seen == 0 || p.seen == s.tables[p.table].keys[p.slot])
    ensures var p := s.puts[t]; var s' := Step(s, NextOperation(p, t), hash); var key := s.tables[p.table].keys[p.slot];
            && |s'.puts| == |s.puts|
            && (if p.Looked? && p.seen != 0 && p.seen != p.req.hash && p.step + 1 >= s.tables[p.table].capacity then
                  s'.puts[t] == Returned(p.req, OVERFLOW_TRACE_ID) && s'.lost == s.lost + multiset{p.req} && s'.credited == s.credited && s'.silent == s.silent
                else if p.Looked? && p.seen == p.req.hash then
                  && key == p.req.hash && s'.tables == s.tables && s'.lost == s.lost && s'.credited == s.credited
                  && (if p.req.weight != 0 then s'.puts[t] == Sampling(p.req, p.table, p.slot) && s'.silent == s.silent
                      else s'.puts[t].Returned? && s'.puts[t].req == p.req && s'.silent == s.silent + multiset{p.req})
                else if p.Claiming? && key == 0 then
                  Filling(s'.puts[t]) && s'.puts[t].req == p.req && s'.lost == s.lost && s'.credited == s.credited && s'.silent == s.silent
                else
                  && PutMoved(s, s', t) && Searching(s'.puts[t]) && !s'.puts[t].skipped && s'.puts[t].req == p.req && s'.puts[t].table == p.table
                  && s'.puts[t].slot < s.tables[p.table].capacity
                  && (s'.puts[t].step > p.step
                      || (s'.puts[t].step == p.step && s'.puts[t].slot == p.slot && SearchPhase(s', s'.puts[t]) < SearchPhase(s, p))))
  {
    hide TraceId;
  }

  lemma {:induction false} SearchEnds(s: Store, t: nat, hash: Frames -> u64) returns (actions: seq<Action>, r: Store)
    requires StructureOk(s, hash) && Sound(s) && t < |s.puts| && Searching(s.puts[t]) && !s.puts[t].skipped
    requires s.puts[t].table < |s.tables| && s.puts[t].slot < |s.tables[s.puts[t].table].keys| == s.tables[s.puts[t].table].capacity
    ensures Alone(s, t, actions, hash, r) && Ends(s, t, s.puts[t].req, s.puts[t].table, r)
    decreases s.tables[s.puts[t].table].capacity - s.puts[t].step, SearchPhase(s, s.puts[t])
  {
    hide StructureOk, Sound, Alone, Step, Ends, SearchPhase;
    var p := s.puts[t];
    var a := NextOperation(p, t);
    SearchingParts(s, t, hash);
    SearchStep(s, t, hash);
    StructureKept(s, a, hash);
    var s1 := Step(s, a, hash);
    if p.Looked? && p.seen != 0 && p.seen != p.req.hash && p.step + 1 >= s.tables[p.table].capacity {
      GaveUp(s, t, hash);
      AloneDone(s1, t, hash);
      actions, r := [], s1;
      LostEnds(s, t, p.req, p.table, r);
    } else if Searching(s1.puts[t]) {
      actions, r := SearchEnds(s1, t, hash);
      EndsLater(s, s1, t, p.req, p.table, r);
    } else {
      if Filling(s1.puts[t]) {
        actions, r := FillEnds(s1, t, hash);
      } else if s1.puts[t].Sampling? {
        actions, r := CountEnds(s1, t, hash);
      } else {
        AloneDone(s1, t, hash);
        actions, r := [], s1;
      }
      FoundEnds(s, t, p.req, p.table, p.slot, r);
    }
    AloneStep(s, t, actions, hash, r);
    actions := [a] + actions;
  }

  lemma GaveUp(s: Store, t: nat, hash: Frames -> u64)
    requires StructureOk(s, hash) && t < |s.puts| && s.puts[t].Looked? && !s.puts[t].skipped
    requires var p := s.puts[t];
             && p.table < |s.tables| && p.slot < |s.tables[p.table].keys| == s.tables[p.table].capacity
             && p.seen == s.tables[p.table].keys[p.slot] != 0 && p.seen != p.req.hash && p.step + 1 >= s.tables[p.table].capacity
    ensures Full(s, s.puts[t].table, s.puts[t].req.hash)
  {
    hide StructureOk;
    CycleExitExact(s, t, false, hash);
  }

  lemma LostEnds(s: Store, t: nat, req: Request, table: nat, r: Store)
    requires Full(s, table, req.hash) && t < |r.puts| && r.puts[t] == Returned(req, OVERFLOW_TRACE_ID)
    requires r.lost == s.lost + multiset{req} && r.credited == s.credited && r.silent == s.silent
    ensures Ends(s, t, req, table, r)
  {
  }

  lemma FoundEnds(s: Store, t: nat, req: Request, table: nat, slot: nat, r: Store)
    requires table < |s.tables| && slot < |s.tables[table].keys| && (s.tables[table].keys[slot] == 0 || s.tables[table].keys[slot] == req.hash)
    requires Credits(s, t, req, r)
    ensures Ends(s, t, req, table, r)
  {
  }

  /**
   A put begun in any state of any run and left to run alone, memory being granted, comes to an end. It is lost only if
   the current table has neither an empty slot nor the hash; otherwise it is credited to a slot, or silent without weight.
   */
  lemma PutReturns(threads: nat, before: seq<Action>, t: nat, frames: Frames, weight: u64, hash: Frames -> u64)
    returns (s: Store, actions: seq<Action>, r: Store)
    requires t < |RunFromStart(threads, before, hash).puts| && AtRest(RunFromStart(threads, before, hash).puts[t]) && hash(frames) != 0
    ensures StructureOk(s, hash) && Sound(RunFromStart(threads, before, hash))
    ensures s == Step(RunFromStart(threads, before, hash), Begin(t, frames, weight), hash) && Alone(s, t, actions, hash, r)
    ensures Ends(s, t, Request(frames, hash(frames), weight), RunFromStart(threads, before, hash).current, r)
  {
    hide StructureOk, Alone, Ends, Run;
    StructureInitial(threads, hash);
    var s0 := Run(Initial(threads), before, hash);
    StructureSound(s0, hash);
    StructureKept(s0, Begin(t, frames, weight), hash);
    s := Step(s0, Begin(t, frames, weight), hash);
    SearchingParts(s, t, hash);
    actions, r := SearchEnds(s, t, hash);
  }

  // ------------------------------------------------------------------ tables grow in time

  /** A last table that has come to three quarters is being extended, unless it is the largest. */
  ghost predicate Timely(s: Store) {
    s.tables != [] ==>
      var last := |s.tables| - 1; var tb := s.tables[last];
      tb.size >= Threshold(tb.capacity) && 2 * tb.capacity <= MAX_CAPACITY ==> exists t :: 0 <= t < |s.puts| && s.puts[t].Growing? && s.puts[t].table == last
  }

  predicate TablesGranted(a: Action) { a.Allocate? ==> a.granted }

  /** The last table and the put that extends it stay as they are. */
  ghost predicate LastKept(s: Store, s': Store, t: nat) {
    && |s'.tables| == |s.tables| && |s'.puts| == |s.puts| && (forall u | 0 <= u < |s.puts| && u != t :: s'.puts[u] == s.puts[u])
    && (s.tables != [] ==> s'.tables[|s.tables| - 1].size == s.tables[|s.tables| - 1].size && s'.tables[|s.tables| - 1].capacity == s.tables[|s.tables| - 1].capacity)
    && (t < |s.puts| && s.puts[t].Growing? ==> s'.puts[t] == s.puts[t])
  }

  lemma TimelyKept(s: Store, s': Store, t: nat)
    requires Timely(s) && LastKept(s, s', t)
    ensures Timely(s')
  {
    hide Threshold;
    if s.tables != [] {
      var last := |s.tables| - 1;
      if s.tables[last].size >= Threshold(s.tables[last].capacity) && 2 * s.tables[last].capacity <= MAX_CAPACITY {
        var u :| 0 <= u < |s.puts| && s.puts[u].Growing? && s.puts[u].table == last;
        assert s'.puts[u] == s.puts[u];
      }
    }
  }

  lemma CountTimely(s: Store, t: nat)
    requires Sound(s) && Timely(s) && t < |s.puts| && s.puts[t].Sizing?
    ensures Timely(AfterCount(s, t, s.puts[t]))
  {
    hide Threshold;
    var p, s' := s.puts[t], AfterCount(s, t, s.puts[t]);
    var last := |s.tables| - 1;
    var tb := s.tables[last];
    if p.table == last && tb.size + 1 == Threshold(tb.capacity) {
      assert s'.puts[t].Growing? && s'.puts[t].table == last;
    } else if tb.size >= Threshold(tb.capacity) && 2 * tb.capacity <= MAX_CAPACITY {
      var u :| 0 <= u < |s.puts| && s.puts[u].Growing? && s.puts[u].table == last;
      assert s'.puts[u] == s.puts[u];
    }
  }

  lemma AllocateTimely(s: Store, t: nat)
    requires Sound(s) && Timely(s) && t < |s.puts| && s.puts[t].Growing? && s.puts[t].table == |s.tables| - 1
    ensures Timely(AfterAllocate(s, t, s.puts[t], true))
  {
    var s' := AfterAllocate(s, t, s.puts[t], true);
    assert |s'.tables| > |s.tables| ==> s'.tables[|s'.tables| - 1].size == 0 && Threshold(s'.tables[|s'.tables| - 1].capacity) > 0;
    hide Threshold, NewTable;
  }

  lemma LookLast(s: Store, t: nat, again: bool, overLimit: bool)
    requires Sound(s) && t < |s.puts| && s.puts[t].Looked?
    ensures LastKept(s, AfterLook(s, t, s.puts[t], again, overLimit), t)
  {
    hide TraceId;
  }

  lemma ClaimLast(s: Store, t: nat)
    requires Sound(s) && t < |s.puts| && s.puts[t].Claiming?
    ensures LastKept(s, AfterClaim(s, t, s.puts[t]), t)
  {
  }

  lemma StoreLast(s: Store, t: nat, reuse: Option<nat>, granted: bool)
    requires Sound(s) && t < |s.puts| && s.puts[t].Storing?
    ensures LastKept(s, AfterStore(s, t, s.puts[t], reuse, granted), t)
  {
    hide TraceId, Inherited;
  }

  lemma CountsLast(s: Store, t: nat)
    requires Sound(s) && t < |s.puts|
    ensures s.puts[t].Sampling? ==> LastKept(s, AfterSample(s, t, s.puts[t]), t)
    ensures s.puts[t].Weighing? ==> LastKept(s, AfterWeight(s, t, s.puts[t]), t)
  {
    hide TraceId;
  }

  lemma TimelyStep(s: Store, a: Action, hash: Frames -> u64)
    requires Sound(s) && Timely(s) && TablesGranted(a) && a.t < |s.puts|
    requires s.puts[a.t].Growing? ==> s.puts[a.t].table == |s.tables| - 1
    ensures Timely(Step(s, a, hash))
  {
    hide AfterLook, AfterClaim, AfterCount, AfterAllocate, AfterStore, AfterSample, AfterWeight, Timely;
    var t, p, s' := a.t, s.puts[a.t], Step(s, a, hash);
    match a
    case Begin(_, frames, weight) => TimelyKept(s, s', t);
    case Look(_) => TimelyKept(s, s', t);
    case Decide(_, again, overLimit) => if p.Looked? { LookLast(s, t, again, overLimit); TimelyKept(s, s', t); }
    case Claim(_) => if p.Claiming? { ClaimLast(s, t); TimelyKept(s, s', t); }
    case CountSlot(_) => if p.Sizing? { CountTimely(s, t); }
    case Allocate(_, granted) => if p.Growing? { AllocateTimely(s, t); }
    case Publish(_) => TimelyKept(s, s', t);
    case StoreTrace(_, reuse, granted) => if p.Storing? { StoreLast(s, t, reuse, granted); TimelyKept(s, s', t); }
    case AddSample(_) => if p.Sampling? { CountsLast(s, t); TimelyKept(s, s', t); }
    case AddWeight(_) => if p.Weighing? { CountsLast(s, t); TimelyKept(s, s', t); }
  }

  lemma GrowingLast(s: Store, t: nat, hash: Frames -> u64)
    requires StructureOk(s, hash) && t < |s.puts|
    ensures s.puts[t].Growing? ==> s.puts[t].table == |s.tables| - 1
  {
    hide TableOk, PutOk, Threshold;
  }

  lemma {:induction false} TimelyRun(s: Store, actions: seq<Action>, hash: Frames -> u64)
    requires StructureOk(s, hash) && Timely(s) && forall a | a in actions :: TablesGranted(a)
    ensures Timely(Run(s, actions, hash))
    decreases |actions|
  {
    hide StructureOk, Step, Timely, TablesGranted;
    if actions != [] {
      StructureSound(s, hash);
      StructureKept(s, actions[0], hash);
      if actions[0].t < |s.puts| {
        GrowingLast(s, actions[0].t, hash);
        TimelyStep(s, actions[0], hash);
      } else {
        StrangerStep(s, actions[0], hash);
      }
      TimelyRun(Step(s, actions[0], hash), actions[1..], hash);
    }
  }

  /** While tables are granted: once all puts have returned, the current table is the last and less than three quarters of it were claimed. */
  lemma TablesGrowInTime(threads: nat, actions: seq<Action>, hash: Frames -> u64)
    requires forall a | a in actions :: TablesGranted(a)
    requires forall p | p in RunFromStart(threads, actions, hash).puts :: AtRest(p)
    ensures var s := RunFromStart(threads, actions, hash);
            && s.tables != []
            && var tb := s.tables[|s.tables| - 1];
               tb.size < Threshold(tb.capacity) || 2 * tb.capacity > MAX_CAPACITY
  {
    StructureInitial(threads, hash);
    var s0 := Initial(threads);
    assert Timely(s0);
    hide Timely, Run, Initial;
    TimelyRun(s0, actions, hash);
    TimelyAtRest(Run(s0, actions, hash), hash);
  }

  lemma TimelyAtRest(s: Store, hash: Frames -> u64)
    requires StructureOk(s, hash) && Timely(s) && forall p | p in s.puts :: AtRest(p)
    ensures s.tables != []
    ensures var tb := s.tables[|s.tables| - 1]; tb.size < Threshold(tb.capacity) || 2 * tb.capacity > MAX_CAPACITY
  {
    forall t | 0 <= t < |s.puts| ensures !s.puts[t].Growing? { assert s.puts[t] in s.puts; }
    hide TableOk, PutOk, Threshold;
  }

  // ------------------------------------------------------------------ sizes count claims

  /** Slots that hold a key. */
  function Taken(keys: seq<u64>): nat {
    if keys == [] then 0 else Taken(keys[..|keys| - 1]) + (if keys[|keys| - 1] != 0 then 1 else 0)
  }

  lemma {:induction false} TakenClaim(keys: seq<u64>, slot: nat, h: u64)
    requires slot < |keys| && keys[slot] == 0 && h != 0
    ensures Taken(keys[slot := h]) == Taken(keys) + 1
  {
    var n := |keys| - 1;
    if slot < n {
      TakenClaim(keys[..n], slot, h);
      assert keys[slot := h][..n] == keys[..n][slot := h];
    } else {
      assert keys[slot := h][..n] == keys[..n];
    }
  }

  lemma {:induction false} TakenBlank(keys: seq<u64>)
    requires forall i | 0 <= i < |keys| :: keys[i] == 0
    ensures Taken(keys) == 0
  {
    if keys != [] { TakenBlank(keys[..|keys| - 1]); }
  }

  /** The put has claimed a slot of table `i` and not counted it yet. */
  function Uncounted(p: Put, i: nat): nat { if p.Sizing? && p.table == i then 1 else 0 }

  function AllUncounted(puts: seq<Put>, i: nat): nat {
    if puts == [] then 0 else AllUncounted(puts[..|puts| - 1], i) + Uncounted(puts[|puts| - 1], i)
  }

  lemma {:induction false} UncountedUpdate(puts: seq<Put>, t: nat, p: Put, i: nat)
    requires t < |puts|
    ensures AllUncounted(puts[t := p], i) + Uncounted(puts[t], i) == AllUncounted(puts, i) + Uncounted(p, i)
  {
    hide Uncounted;
    var n := |puts| - 1;
    if t < n {
      UncountedUpdate(puts[..n], t, p, i);
      assert puts[t := p][..n] == puts[..n][t := p];
    } else {
      assert puts[t := p][..n] == puts[..n];
    }
  }

  lemma {:induction false} UncountedNone(puts: seq<Put>, i: nat)
    requires forall p | p in puts :: Uncounted(p, i) == 0
    ensures AllUncounted(puts, i) == 0
  {
    if puts != [] { UncountedNone(puts[..|puts| - 1], i); }
  }

  predicate SizeOk(s: Store, i: nat) { i < |s.tables| ==> s.tables[i].size + AllUncounted(s.puts, i) == Taken(s.tables[i].keys) }

  ghost predicate SizesOk(s: Store) { forall i: nat :: SizeOk(s, i) }

  /** One put moved, and what it counts or claims balances. */
  ghost predicate Balanced(s: Store, s': Store, t: nat, i: nat) {
    && t < |s.puts| && i < |s.tables| <= |s'.tables| && |s'.puts| == |s.puts| && s'.puts == s.puts[t := s'.puts[t]]
    && s'.tables[i].size + Uncounted(s'.puts[t], i) + Taken(s.tables[i].keys)
         == s.tables[i].size + Uncounted(s.puts[t], i) + Taken(s'.tables[i].keys)
  }

  lemma SizeMoves(s: Store, s': Store, t: nat, i: nat)
    requires SizeOk(s, i) && Balanced(s, s', t, i)
    ensures SizeOk(s', i)
  {
    hide Taken, Uncounted, AllUncounted;
    UncountedUpdate(s.puts, t, s'.puts[t], i);
  }

  lemma LookSizes(s: Store, t: nat, again: bool, overLimit: bool, i: nat)
    requires Sound(s) && t < |s.puts| && s.puts[t].Looked? && i < |s.tables|
    ensures Balanced(s, AfterLook(s, t, s.puts[t], again, overLimit), t, i)
  {
    hide TraceId, Taken;
  }

  lemma ClaimSizes(s: Store, t: nat, i: nat)
    requires Sound(s) && t < |s.puts| && s.puts[t].Claiming? && s.puts[t].req.hash != 0 && i < |s.tables|
    ensures Balanced(s, AfterClaim(s, t, s.puts[t]), t, i)
  {
    hide Taken;
    var p := s.puts[t];
    if s.tables[p.table].keys[p.slot] == 0 { TakenClaim(s.tables[p.table].keys, p.slot, p.req.hash); }
  }

  lemma CountSizes(s: Store, t: nat, i: nat)
    requires Sound(s) && t < |s.puts| && s.puts[t].Sizing? && i < |s.tables|
    ensures Balanced(s, AfterCount(s, t, s.puts[t]), t, i)
  {
    hide Threshold, Taken;
  }

  lemma AllocateSizes(s: Store, t: nat, granted: bool, i: nat)
    requires Sound(s) && t < |s.puts| && s.puts[t].Growing? && i < |s.tables|
    ensures Balanced(s, AfterAllocate(s, t, s.puts[t], granted), t, i)
  {
    hide NewTable, Taken;
  }

  lemma StoreSizes(s: Store, t: nat, reuse: Option<nat>, granted: bool, i: nat)
    requires Sound(s) && t < |s.puts| && s.puts[t].Storing? && i < |s.tables|
    ensures Balanced(s, AfterStore(s, t, s.puts[t], reuse, granted), t, i)
  {
    hide TraceId, Inherited, Taken;
  }

  lemma CountedSizes(s: Store, t: nat, i: nat)
    requires Sound(s) && t < |s.puts| && i < |s.tables|
    ensures s.puts[t].Sampling? ==> Balanced(s, AfterSample(s, t, s.puts[t]), t, i)
    ensures s.puts[t].Weighing? ==> Balanced(s, AfterWeight(s, t, s.puts[t]), t, i)
  {
    hide TraceId, Taken;
  }

  lemma SameSizes(s: Store, s': Store, t: nat, i: nat)
    requires t < |s.puts| && i < |s.tables| && s'.tables == s.tables && |s'.puts| == |s.puts| && s'.puts == s.puts[t := s'.puts[t]]
    requires !s.puts[t].Sizing? && !s'.puts[t].Sizing?
    ensures Balanced(s, s', t, i)
  {
    hide Taken;
  }

  lemma StepSizes(s: Store, a: Action, hash: Frames -> u64, i: nat)
    requires Sound(s) && a.t < |s.puts| && i < |s.tables| && SizeOk(s, i) && (s.puts[a.t].Claiming? ==> s.puts[a.t].req.hash != 0)
    ensures SizeOk(Step(s, a, hash), i)
  {
    hide AfterLook, AfterClaim, AfterCount, AfterAllocate, AfterStore, AfterSample, AfterWeight, Balanced, SizeOk;
    var t, p, s' := a.t, s.puts[a.t], Step(s, a, hash);
    match a
    case Begin(_, frames, weight) => if s' != s { SameSizes(s, s', t, i); SizeMoves(s, s', t, i); }
    case Look(_) => if p.Probing? { SameSizes(s, s', t, i); SizeMoves(s, s', t, i); }
    case Decide(_, again, overLimit) => if p.Looked? { LookSizes(s, t, again, overLimit, i); SizeMoves(s, s', t, i); }
    case Claim(_) => if p.Claiming? { ClaimSizes(s, t, i); SizeMoves(s, s', t, i); }
    case CountSlot(_) => if p.Sizing? { CountSizes(s, t, i); SizeMoves(s, s', t, i); }
    case Allocate(_, granted) => if p.Growing? { AllocateSizes(s, t, granted, i); SizeMoves(s, s', t, i); }
    case Publish(_) => if s' != s { SameSizes(s, s', t, i); SizeMoves(s, s', t, i); }
    case StoreTrace(_, reuse, granted) => if p.Storing? { StoreSizes(s, t, reuse, granted, i); SizeMoves(s, s', t, i); }
    case AddSample(_) => if p.Sampling? { CountedSizes(s, t, i); SizeMoves(s, s', t, i); }
    case AddWeight(_) => if p.Weighing? { CountedSizes(s, t, i); SizeMoves(s, s', t, i); }
  }

  /** A table that was just made has nothing claimed and no put at it. */
  lemma NewSize(s: Store, a: Action, hash: Frames -> u64, i: nat)
    requires Sound(s) && a.t < |s.puts| && |s.tables| <= i < |Step(s, a, hash).tables|
    ensures SizeOk(Step(s, a, hash), i)
  {
    var s' := Step(s, a, hash);
    MadeTable(s, a, hash);
    hide Step, Taken, AllUncounted;
    TakenBlank(s'.tables[i].keys);
    forall p | p in s'.puts ensures Uncounted(p, i) == 0 {
      var u :| 0 <= u < |s'.puts| && s'.puts[u] == p;
    }
    UncountedNone(s'.puts, i);
  }

  lemma MadeTable(s: Store, a: Action, hash: Frames -> u64)
    requires Sound(s) && a.t < |s.puts| && |s.tables| < |Step(s, a, hash).tables|
    ensures var s' := Step(s, a, hash);
            && |s'.tables| == |s.tables| + 1 && s'.tables[|s.tables|].size == 0
            && (forall slot | 0 <= slot < |s'.tables[|s.tables|].keys| :: s'.tables[|s.tables|].keys[slot] == 0)
            && |s'.puts| == |s.puts| && s'.puts[a.t].Publishing? && (forall u | 0 <= u < |s.puts| && u != a.t :: s'.puts[u] == s.puts[u])
            && (forall u | 0 <= u < |s.puts| && s.puts[u].Sizing? :: s.puts[u].table < |s.tables|)
  {
    hide TraceId, Threshold, Inherited;
  }

  lemma SizesStep(s: Store, a: Action, hash: Frames -> u64)
    requires StructureOk(s, hash) && Sound(s) && SizesOk(s)
    ensures SizesOk(Step(s, a, hash))
  {
    hide Step, SizeOk, StructureOk, Sound;
    if a.t >= |s.puts| {
      StrangerStep(s, a, hash);
    } else {
      PutAt(s, a.t, hash);
      forall i: nat ensures SizeOk(Step(s, a, hash), i) {
        assert SizeOk(s, i);
        if i < |s.tables| { StepSizes(s, a, hash, i); } else if i < |Step(s, a, hash).tables| { NewSize(s, a, hash, i); } else { NoTable(Step(s, a, hash), i); }
      }
    }
  }

  lemma NoTable(s: Store, i: nat)
    requires i >= |s.tables|
    ensures SizeOk(s, i)
  {
  }

  lemma {:induction false} SizesRun(s: Store, actions: seq<Action>, hash: Frames -> u64)
    requires StructureOk(s, hash) && SizesOk(s)
    ensures SizesOk(Run(s, actions, hash))
    decreases |actions|
  {
    hide StructureOk, Step, SizesOk;
    if actions != [] {
      StructureSound(s, hash);
      StructureKept(s, actions[0], hash);
      SizesStep(s, actions[0], hash);
      SizesRun(Step(s, actions[0], hash), actions[1..], hash);
    }
  }

  /** Once all puts have returned, the size of a table is the number of its slots that hold a key. */
  lemma SizesAreExact(threads: nat, actions: seq<Action>, hash: Frames -> u64, i: nat)
    requires forall p | p in RunFromStart(threads, actions, hash).puts :: AtRest(p)
    requires i < |RunFromStart(threads, actions, hash).tables|
    ensures var s := RunFromStart(threads, actions, hash); s.tables[i].size == Taken(s.tables[i].keys)
  {
    StructureInitial(threads, hash);
    var s0 := Initial(threads);
    SizesInitial(threads);
    hide SizesOk, Run, Initial, Taken, StructureOk;
    SizesRun(s0, actions, hash);
    SizesAtRest(Run(s0, actions, hash), i);
  }

  lemma SizesInitial(threads: nat)
    ensures SizesOk(Initial(threads))
  {
    hide Taken, AllUncounted;
    var s := Initial(threads);
    TakenBlank(s.tables[0].keys);
    UncountedNone(s.puts, 0);
  }

  lemma SizesAtRest(s: Store, i: nat)
    requires SizesOk(s) && i < |s.tables| && forall p | p in s.puts :: AtRest(p)
    ensures s.tables[i].size == Taken(s.tables[i].keys)
  {
    hide Taken, AllUncounted;
    assert SizeOk(s, i);
    UncountedNone(s.puts, i);
  }
}

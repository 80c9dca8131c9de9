/** What the storage promises over every interleaving of puts. */
module CallTraceGuarantees {
  import opened Bytes
  import opened TriangularProbe
  import opened CallTraceStorage
  import opened CallTraceInvariant

  ghost function Run(s: Store, actions: seq<Action>, hash: Frames -> u64): (r: Store)
    requires StructureOk(s, hash)
    ensures StructureOk(r, hash)
    decreases |actions|
  {
    if actions == [] then s
    else
      StructureSound(s, hash);
      StructureKept(s, actions[0], hash);
      Run(Step(s, actions[0], hash), actions[1..], hash)
  }

  ghost function RunFromStart(threads: nat, actions: seq<Action>, hash: Frames -> u64): Store {
    StructureInitial(threads, hash);
    Run(Initial(threads), actions, hash)
  }

  // ------------------------------------------------------------------ what callers asked for

  predicate AtRest(p: Put) { p.Idle? || p.Returned? }

  /** The action begins a put. */
  predicate Begins(s: Store, a: Action, hash: Frames -> u64) {
    a.Begin? && a.t < |s.puts| && AtRest(s.puts[a.t]) && hash(a.frames) != 0
  }

  function AskedBy(a: Action, hash: Frames -> u64): Request
    requires a.Begin?
  {
    Request(a.frames, hash(a.frames), a.weight)
  }

  /** The puts that a run begins: what was asked for, and how often. */
  ghost function PutsIn(s: Store, actions: seq<Action>, hash: Frames -> u64): multiset<Request>
    requires StructureOk(s, hash)
    decreases |actions|
  {
    if actions == [] then multiset{}
    else
      StructureSound(s, hash);
      StructureKept(s, actions[0], hash);
      (if Begins(s, actions[0], hash) then multiset{AskedBy(actions[0], hash)} else multiset{})
      + PutsIn(Step(s, actions[0], hash), actions[1..], hash)
  }

  /** The last put that thread `t` began. */
  ghost function LastAsked(s: Store, actions: seq<Action>, hash: Frames -> u64, t: nat, before: Option<Request>): Option<Request>
    requires StructureOk(s, hash)
    decreases |actions|
  {
    if actions == [] then before
    else
      StructureSound(s, hash);
      StructureKept(s, actions[0], hash);
      LastAsked(Step(s, actions[0], hash), actions[1..], hash, t,
                if Begins(s, actions[0], hash) && actions[0].t == t then Some(AskedBy(actions[0], hash)) else before)
  }

  ghost function PutsFromStart(threads: nat, actions: seq<Action>, hash: Frames -> u64): multiset<Request> {
    StructureInitial(threads, hash);
    PutsIn(Initial(threads), actions, hash)
  }

  ghost function AskedFromStart(threads: nat, actions: seq<Action>, hash: Frames -> u64, t: nat): Option<Request> {
    StructureInitial(threads, hash);
    LastAsked(Initial(threads), actions, hash, t, None)
  }

  /** A put that goes on is for what it was for before. */
  predicate SameRequest(s: Store, s': Store, t: nat) {
    t < |s.puts| == |s'.puts| && s'.begun == s.begun && s.puts[t].Idle? == s'.puts[t].Idle?
    && (!s.puts[t].Idle? ==> s'.puts[t].req == s.puts[t].req) && forall u | 0 <= u < |s.puts| && u != t :: s'.puts[u] == s.puts[u]
  }

  lemma LookRequest(s: Store, t: nat, p: Put, again: bool, overLimit: bool)
    requires t < |s.puts| && p == s.puts[t] && p.Looked? && p.table < |s.tables|
    requires s.tables[p.table].capacity >= INITIAL_CAPACITY && p.slot < |s.tables[p.table].keys|
    ensures SameRequest(s, AfterLook(s, t, p, again, overLimit), t)
  {
    hide TraceId;
  }

  lemma StoreRequest(s: Store, t: nat, p: Put, reuse: Option<nat>, granted: bool)
    requires t < |s.puts| && p == s.puts[t] && p.Storing? && p.table < |s.tables|
    requires s.tables[p.table].capacity >= INITIAL_CAPACITY && p.slot < |s.tables[p.table].traces|
    ensures SameRequest(s, AfterStore(s, t, p, reuse, granted), t)
  {
    hide TraceId, Inherited;
  }

  lemma SizeRequest(s: Store, t: nat, p: Put, granted: bool)
    requires t < |s.puts| && p == s.puts[t] && (p.Sizing? || p.Growing?) && p.table < |s.tables|
    ensures p.Sizing? ==> SameRequest(s, AfterCount(s, t, p), t)
    ensures p.Growing? ==> SameRequest(s, AfterAllocate(s, t, p, granted), t)
  {
    hide Threshold, NewTable;
  }

  lemma SlotRequest(s: Store, t: nat, p: Put)
    requires t < |s.puts| && p == s.puts[t] && p.Claiming? && p.table < |s.tables| && p.slot < |s.tables[p.table].keys|
    ensures SameRequest(s, AfterClaim(s, t, p), t)
  {
  }

  lemma CountRequest(s: Store, t: nat, p: Put)
    requires t < |s.puts| && p == s.puts[t] && (p.Sampling? || p.Weighing?) && p.table < |s.tables|
    requires p.slot < |s.tables[p.table].samples| == |s.tables[p.table].weights| && s.tables[p.table].capacity >= INITIAL_CAPACITY
    ensures p.Sampling? ==> SameRequest(s, AfterSample(s, t, p), t)
    ensures p.Weighing? ==> SameRequest(s, AfterWeight(s, t, p), t)
  {
    hide TraceId;
  }

  lemma PlainRequest(s: Store, a: Action, hash: Frames -> u64)
    requires Sound(s) && a.t < |s.puts| && !Begins(s, a, hash) && (a.Begin? || a.Look? || a.Publish?)
    ensures SameRequest(s, Step(s, a, hash), a.t)
  {
    hide TraceId;
  }

  lemma NoRequest(s: Store, t: nat)
    requires t < |s.puts|
    ensures SameRequest(s, s, t)
  {
  }

  lemma StepRequest(s: Store, a: Action, hash: Frames -> u64)
    requires Sound(s) && a.t < |s.puts| && !Begins(s, a, hash)
    ensures SameRequest(s, Step(s, a, hash), a.t)
  {
    hide AfterLook, AfterClaim, AfterCount, AfterAllocate, AfterStore, AfterSample, AfterWeight, SameRequest, Begins;
    var p := s.puts[a.t];
    NoRequest(s, a.t);
    if a.Begin? || a.Look? || a.Publish? {
      PlainRequest(s, a, hash);
    } else {
      match a
      case Decide(t, again, overLimit) => if p.Looked? { LookRequest(s, t, p, again, overLimit); }
      case Claim(t) => if p.Claiming? { SlotRequest(s, t, p); }
      case CountSlot(t) => if p.Sizing? { SizeRequest(s, t, p, true); }
      case Allocate(t, granted) => if p.Growing? { SizeRequest(s, t, p, granted); }
      case StoreTrace(t, reuse, granted) => if p.Storing? { StoreRequest(s, t, p, reuse, granted); }
      case AddSample(t) => if p.Sampling? { CountRequest(s, t, p); }
      case AddWeight(t) => if p.Weighing? { CountRequest(s, t, p); }
    }
  }

  lemma BeginRequest(s: Store, a: Action, hash: Frames -> u64)
    requires Sound(s) && Begins(s, a, hash)
    ensures var s' := Step(s, a, hash);
            && |s'.puts| == |s.puts| && s'.begun == s.begun + multiset{AskedBy(a, hash)}
            && !s'.puts[a.t].Idle? && s'.puts[a.t].req == AskedBy(a, hash)
            && forall u | 0 <= u < |s.puts| && u != a.t :: s'.puts[u] == s.puts[u]
  {
  }

  /** Thread `t` works for what was asked. */
  predicate ForAsked(s: Store, t: nat, asked: Option<Request>) { t < |s.puts| && (!s.puts[t].Idle? ==> asked == Some(s.puts[t].req)) }

  lemma AskedStep(s: Store, a: Action, hash: Frames -> u64, t: nat, asked: Option<Request>)
    requires Sound(s) && (t < |s.puts| ==> ForAsked(s, t, asked))
    ensures t < |s.puts| ==> ForAsked(Step(s, a, hash), t, if Begins(s, a, hash) && a.t == t then Some(AskedBy(a, hash)) else asked)
    ensures |Step(s, a, hash).puts| == |s.puts|
    ensures Step(s, a, hash).begun == s.begun + (if Begins(s, a, hash) then multiset{AskedBy(a, hash)} else multiset{})
  {
    if Begins(s, a, hash) { BeginRequest(s, a, hash); } else if a.t < |s.puts| { StepRequest(s, a, hash); }
    hide AfterLook, AfterClaim, AfterCount, AfterAllocate, AfterStore, AfterSample, AfterWeight, Begins, AskedBy;
  }

  lemma {:induction false} AskedRun(s: Store, actions: seq<Action>, hash: Frames -> u64, t: nat, asked: Option<Request>)
    requires StructureOk(s, hash) && (t < |s.puts| ==> ForAsked(s, t, asked))
    ensures t < |s.puts| ==> ForAsked(Run(s, actions, hash), t, LastAsked(s, actions, hash, t, asked))
    ensures Run(s, actions, hash).begun == s.begun + PutsIn(s, actions, hash)
    decreases |actions|
  {
    hide StructureOk, Step, AskedBy, ForAsked;
    if actions != [] {
      StructureSound(s, hash);
      StructureKept(s, actions[0], hash);
      AskedStep(s, actions[0], hash, t, asked);
      AskedRun(Step(s, actions[0], hash), actions[1..], hash, t,
               if Begins(s, actions[0], hash) && actions[0].t == t then Some(AskedBy(actions[0], hash)) else asked);
    }
  }

  /** Over every run: the storage has begun the puts that were asked for, and each thread works for its own. */
  lemma PutsAreAsAsked(threads: nat, actions: seq<Action>, hash: Frames -> u64, t: nat)
    ensures var s := RunFromStart(threads, actions, hash);
            && s.begun == PutsFromStart(threads, actions, hash)
            && (t < threads ==> t < |s.puts| && (!s.puts[t].Idle? ==> AskedFromStart(threads, actions, hash, t) == Some(s.puts[t].req)))
  {
    StructureInitial(threads, hash);
    hide StructureOk, Run, PutsIn, LastAsked;
    AskedRun(Initial(threads), actions, hash, t, None);
  }

  // ------------------------------------------------------------------ one slot per hash

  predicate Searching(p: Put) { p.Probing? || p.Looked? || p.Claiming? }

  ghost predicate Distinct(keys: seq<u64>) {
    |keys| > 0 ==>
      forall h: nat, m: nat, n: nat :: h != 0 && m < n < |keys| && keys[ProbeAt(h, |keys|, n)] == h ==> keys[ProbeAt(h, |keys|, m)] != h
  }

  /** Nobody skipped its own key, and no table holds a key twice on its probe sequence. */
  ghost predicate Unskipped(s: Store) {
    && (forall t | 0 <= t < |s.puts| :: Searching(s.puts[t]) ==> !s.puts[t].skipped)
    && (forall i | 0 <= i < |s.tables| :: Distinct(s.tables[i].keys))
  }

  lemma ClaimDistinct(keys: seq<u64>, k: nat, h: u64, step: nat)
    requires |keys| == Pow2(k) > 0 && Ordered(keys) && Distinct(keys) && h != 0 && step < |keys|
    requires keys[ProbeAt(h, |keys|, step)] == 0 && Passed(keys, h, step, false)
    ensures Distinct(keys[ProbeAt(h, |keys|, step) := h])
  {
    var cap, slot := |keys|, ProbeAt(h, |keys|, step);
    var keys' := keys[slot := h];
    forall g: nat, m: nat, n: nat | g != 0 && m < n < cap && keys'[ProbeAt(g, cap, n)] == g
      ensures keys'[ProbeAt(g, cap, m)] != g
    {
      if ProbeAt(g, cap, n) == slot {
        ProbeSame(h, k, n, step);
        assert keys[ProbeAt(h, cap, m)] != h;
        ProbeInjective(h, k, m, n);
      } else {
        assert keys[ProbeAt(g, cap, n)] == g;
        assert keys[ProbeAt(g, cap, m)] != 0;
      }
    }
  }

  /** Only a claim changes keys, and only an allocation adds a table. */
  ghost predicate KeysKept(s: Store, s': Store) {
    && |s'.tables| == |s.tables|
    && (forall i | 0 <= i < |s.tables| :: s'.tables[i].keys == s.tables[i].keys && s'.tables[i].capacity == s.tables[i].capacity)
  }

  ghost predicate OthersKept(s: Store, s': Store, t: nat) {
    |s'.puts| == |s.puts| && forall u | 0 <= u < |s.puts| && u != t :: s'.puts[u] == s.puts[u]
  }

  ghost predicate PutOnly(s: Store, s': Store, t: nat) { OthersKept(s, s', t) && KeysKept(s, s') }

  lemma LookFrame(s: Store, t: nat, p: Put, again: bool, overLimit: bool)
    requires t < |s.puts| && p.Looked? && p.table < |s.tables|
    requires s.tables[p.table].capacity >= INITIAL_CAPACITY && p.slot < |s.tables[p.table].keys|
    ensures PutOnly(s, AfterLook(s, t, p, again, overLimit), t)
  {
    hide TraceId;
  }

  lemma StoreFrame(s: Store, t: nat, p: Put, reuse: Option<nat>, granted: bool)
    requires t < |s.puts| && p.Storing? && p.table < |s.tables|
    requires s.tables[p.table].capacity >= INITIAL_CAPACITY && p.slot < |s.tables[p.table].traces|
    ensures PutOnly(s, AfterStore(s, t, p, reuse, granted), t)
  {
    hide TraceId, Inherited;
  }

  lemma SizeFrame(s: Store, t: nat, p: Put, granted: bool)
    requires t < |s.puts| && (p.Sizing? || p.Growing?) && p.table < |s.tables|
    ensures p.Sizing? ==> PutOnly(s, AfterCount(s, t, p), t)
    ensures p.Growing? ==> OthersKept(s, AfterAllocate(s, t, p, granted), t)
  {
    hide Threshold, NewTable;
  }

  lemma SlotFrame(s: Store, t: nat, p: Put)
    requires t < |s.puts| && p.Claiming? && On(s.tables, p.table, p.slot)
    ensures OthersKept(s, AfterClaim(s, t, p), t)
  {
  }

  lemma CountFrame(s: Store, t: nat, p: Put)
    requires Sound(s) && t < |s.puts| && p == s.puts[t]
    ensures p.Sampling? ==> PutOnly(s, AfterSample(s, t, p), t)
    ensures p.Weighing? ==> PutOnly(s, AfterWeight(s, t, p), t)
  {
    hide TraceId;
  }

  lemma StepFrame(s: Store, a: Action, hash: Frames -> u64)
    requires Sound(s)
    ensures OthersKept(s, Step(s, a, hash), a.t)
    ensures !a.Claim? && !a.Allocate? ==> KeysKept(s, Step(s, a, hash))
  {
    if a.t < |s.puts| {
      var p := s.puts[a.t];
      if a.Decide? && p.Looked? { LookFrame(s, a.t, p, a.again, a.overLimit); }
      if a.StoreTrace? && p.Storing? { StoreFrame(s, a.t, p, a.reuse, a.granted); }
      if a.Claim? && p.Claiming? { SlotFrame(s, a.t, p); }
      if a.CountSlot? && p.Sizing? { SizeFrame(s, a.t, p, false); }
      if a.Allocate? && p.Growing? { SizeFrame(s, a.t, p, a.granted); }
      if a.AddSample? || a.AddWeight? { CountFrame(s, a.t, p); }
      hide AfterLook, AfterClaim, AfterCount, AfterAllocate, AfterStore, AfterSample, AfterWeight;
    }
  }

  lemma UnskippedPut(s: Store, a: Action, hash: Frames -> u64)
    requires Sound(s) && Unskipped(s) && (a.Decide? ==> !a.again) && a.t < |s.puts|
    ensures Searching(Step(s, a, hash).puts[a.t]) ==> !Step(s, a, hash).puts[a.t].skipped
  {
    hide AfterLook, AfterClaim, AfterCount, AfterAllocate, AfterStore, AfterSample, AfterWeight, Distinct;
    var p := s.puts[a.t];
    match a
    case Begin(t, frames, weight) =>
    case Look(t) =>
    case Decide(t, again, overLimit) => if p.Looked? { LookUnskipped(s, t, p, overLimit); }
    case Claim(t) => if p.Claiming? { ClaimUnskipped(s, t, p); }
    case CountSlot(t) => if p.Sizing? { CountEndsSearch(s, t, p); }
    case Allocate(t, granted) => if p.Growing? { AllocateEndsSearch(s, t, p, granted); }
    case Publish(t) =>
    case StoreTrace(t, reuse, granted) => if p.Storing? { StoreEndsSearch(s, t, p, reuse, granted); }
    case AddSample(t) => if p.Sampling? { SampleEndsSearch(s, t, p); }
    case AddWeight(t) => if p.Weighing? { WeightEndsSearch(s, t, p); }
  }

  /** A key that was loaded once and is not the put's own is never skipped. */
  lemma LookUnskipped(s: Store, t: nat, p: Put, overLimit: bool)
    requires t < |s.puts| && p.Looked? && p.table < |s.tables| && !p.skipped
    requires s.tables[p.table].capacity >= INITIAL_CAPACITY && p.slot < |s.tables[p.table].keys|
    ensures var q := AfterLook(s, t, p, false, overLimit).puts[t]; Searching(q) ==> !q.skipped
  {
    hide TraceId;
  }

  lemma ClaimUnskipped(s: Store, t: nat, p: Put)
    requires t < |s.puts| && p.Claiming? && p.table < |s.tables| && p.slot < |s.tables[p.table].keys| && !p.skipped
    ensures var q := AfterClaim(s, t, p).puts[t]; Searching(q) ==> !q.skipped
  {
  }

  lemma CountEndsSearch(s: Store, t: nat, p: Put)
    requires t < |s.puts| && p.Sizing? && p.table < |s.tables|
    ensures !Searching(AfterCount(s, t, p).puts[t])
  {
    hide Threshold;
  }

  lemma AllocateEndsSearch(s: Store, t: nat, p: Put, granted: bool)
    requires t < |s.puts| && p.Growing? && p.table < |s.tables|
    ensures !Searching(AfterAllocate(s, t, p, granted).puts[t])
  {
    hide NewTable;
  }

  lemma StoreEndsSearch(s: Store, t: nat, p: Put, reuse: Option<nat>, granted: bool)
    requires t < |s.puts| && p.Storing? && p.table < |s.tables|
    requires s.tables[p.table].capacity >= INITIAL_CAPACITY && p.slot < |s.tables[p.table].traces|
    ensures !Searching(AfterStore(s, t, p, reuse, granted).puts[t])
  {
    hide Inherited, TraceId;
  }

  lemma SampleEndsSearch(s: Store, t: nat, p: Put)
    requires t < |s.puts| && p.Sampling? && p.table < |s.tables| && p.slot < |s.tables[p.table].samples|
    ensures !Searching(AfterSample(s, t, p).puts[t])
  {
  }

  lemma WeightEndsSearch(s: Store, t: nat, p: Put)
    requires t < |s.puts| && p.Weighing? && p.table < |s.tables| && p.slot < |s.tables[p.table].weights|
    requires s.tables[p.table].capacity >= INITIAL_CAPACITY
    ensures !Searching(AfterWeight(s, t, p).puts[t])
  {
    hide TraceId;
  }

  lemma BlankDistinct(prev: Option<nat>, capacity: nat)
    ensures Distinct(NewTable(prev, capacity).keys)
  {
    hide ProbeAt;
  }

  lemma UnskippedTables(s: Store, a: Action, hash: Frames -> u64, i: nat)
    requires StructureOk(s, hash) && Sound(s) && Unskipped(s) && i < |Step(s, a, hash).tables|
    ensures Distinct(Step(s, a, hash).tables[i].keys)
  {
    var s' := Step(s, a, hash);
    if a.t < |s.puts| && a.Claim? && s.puts[a.t].Claiming? {
      var p := s.puts[a.t];
      assert PutOk(p, s.tables, s.current, hash);
      if i == p.table && s.tables[i].keys[p.slot] == 0 {
        assert TableOk(s.tables[i], i, hash);
        ClaimDistinct(s.tables[i].keys, 16 + i, p.req.hash, p.step);
      }
      hide StructureOk, Distinct, ProbeAt, Passed;
    } else if a.t < |s.puts| && a.Allocate? && s.puts[a.t].Growing? {
      BlankDistinct(Some(s.puts[a.t].table), 2 * s.tables[s.puts[a.t].table].capacity);
      hide StructureOk, Distinct, NewTable;
    } else {
      StepFrame(s, a, hash);
      hide StructureOk, Distinct, AfterLook, AfterCount, AfterStore, AfterSample, AfterWeight;
    }
  }

  lemma UnskippedStep(s: Store, a: Action, hash: Frames -> u64)
    requires StructureOk(s, hash) && Sound(s) && Unskipped(s) && (a.Decide? ==> !a.again)
    ensures Unskipped(Step(s, a, hash))
  {
    var s' := Step(s, a, hash);
    StepFrame(s, a, hash);
    if a.t < |s.puts| { UnskippedPut(s, a, hash); }
    forall i | 0 <= i < |s'.tables| ensures Distinct(s'.tables[i].keys) { UnskippedTables(s, a, hash, i); }
    hide Step, StructureOk, Distinct;
  }

  predicate LoadsOnce(actions: seq<Action>) { forall a | a in actions :: a.Decide? ==> !a.again }

  lemma {:induction false} UnskippedRun(s: Store, actions: seq<Action>, hash: Frames -> u64)
    requires StructureOk(s, hash) && Unskipped(s) && LoadsOnce(actions)
    ensures Unskipped(Run(s, actions, hash))
    decreases |actions|
  {
    if actions != [] {
      StructureSound(s, hash);
      StructureKept(s, actions[0], hash);
      UnskippedStep(s, actions[0], hash);
      hide Step, StructureOk, Unskipped;
      UnskippedRun(Step(s, actions[0], hash), actions[1..], hash);
    }
  }

  /** When the probe loop loads each key once, no interleaving puts a hash into two slots of one table. */
  lemma OneSlotPerHash(threads: nat, actions: seq<Action>, hash: Frames -> u64, i: nat, a: nat, b: nat)
    requires LoadsOnce(actions)
    requires var s := RunFromStart(threads, actions, hash); i < |s.tables| && a < b < |s.tables[i].keys|
    ensures var keys := RunFromStart(threads, actions, hash).tables[i].keys; keys[a] == 0 || keys[a] != keys[b]
  {
    StructureInitial(threads, hash);
    BlankDistinct(None, INITIAL_CAPACITY);
    assert Unskipped(Initial(threads)) by { hide Distinct, NewTable; }
    UnskippedRun(Initial(threads), actions, hash);
    var s := Run(Initial(threads), actions, hash);
    assert TableOk(s.tables[i], i, hash) && Distinct(s.tables[i].keys);
    hide Run, StructureOk, Unskipped, Initial;
    DistinctSlots(s.tables[i].keys, 16 + i, a, b);
  }

  lemma DistinctSlots(keys: seq<u64>, k: nat, a: nat, b: nat)
    requires |keys| == Pow2(k) > 0 && Distinct(keys) && a < |keys| && b < |keys| && a != b
    ensures keys[a] == 0 || keys[a] != keys[b]
  {
    if keys[a] != 0 {
      var m := ProbeSurjective(keys[a], k, a);
      var n := ProbeSurjective(keys[a], k, b);
      assert m != n;
      assert keys[ProbeAt(keys[a], |keys|, m)] == keys[a];
      assert m < n || keys[ProbeAt(keys[a], |keys|, n)] != keys[a];
    }
  }

  /** In general a claim duplicates a key exactly when the put skipped over it on a second look. */
  lemma DuplicatesIffSkipped(s: Store, t: nat, hash: Frames -> u64)
    requires StructureOk(s, hash) && t < |s.puts| && s.puts[t].Claiming?
    requires var p := s.puts[t]; On(s.tables, p.table, p.slot) && s.tables[p.table].keys[p.slot] == 0
    ensures var p := s.puts[t];
      p.skipped <==> p.req.hash in s.tables[p.table].keys
  {
    var p := s.puts[t];
    assert PutOk(p, s.tables, s.current, hash) && TableOk(s.tables[p.table], p.table, hash);
    var keys, h := s.tables[p.table].keys, p.req.hash;
    if p.skipped {
      var m: nat :| m < p.step && keys[ProbeAt(h, |keys|, m)] == h;
    } else {
      forall slot | 0 <= slot < |keys| ensures keys[slot] != h {
        var n := ProbeSurjective(h, 16 + p.table, slot);
        assert keys[ProbeAt(h, |keys|, n)] == keys[slot];
        assert keys[ProbeAt(h, |keys|, p.step)] == 0;
      }
    }
  }

  /** The put gives up after a whole cycle, on a key that it loaded once or `again`. */
  ghost predicate GivesUp(s: Store, t: nat, again: bool) {
    && t < |s.puts| && s.puts[t].Looked?
    && var p := s.puts[t];
       && On(s.tables, p.table, p.slot) && p.seen != p.req.hash && p.step + 1 >= s.tables[p.table].capacity
       && (if again then s.tables[p.table].keys[p.slot] else p.seen) != 0
  }

  /** Giving up means that the table is full of other hashes, exactly unless the put passed its own hash, now or before, on a second load. */
  lemma CycleExitExact(s: Store, t: nat, again: bool, hash: Frames -> u64)
    requires StructureOk(s, hash) && GivesUp(s, t, again)
    ensures var p := s.puts[t]; var keys := s.tables[p.table].keys;
      (forall slot | 0 <= slot < |keys| :: keys[slot] != 0 && keys[slot] != p.req.hash) <==> !p.skipped && keys[p.slot] != p.req.hash
  {
    var p := s.puts[t];
    assert PutOk(p, s.tables, s.current, hash) && TableOk(s.tables[p.table], p.table, hash);
    var keys, h := s.tables[p.table].keys, p.req.hash;
    if p.skipped {
      var m: nat :| m < p.step && keys[ProbeAt(h, |keys|, m)] == h;
    }
    if !p.skipped && keys[p.slot] != h {
      forall slot | 0 <= slot < |keys| ensures keys[slot] != 0 && keys[slot] != h {
        var n := ProbeSurjective(h, 16 + p.table, slot);
        assert n < p.step || n == p.step;
      }
    }
  }

  // ------------------------------------------------------------------ two loads of the same key

  /** The first table, still alone, and the puts. */
  ghost predicate View(s: Store, puts: seq<Put>, keys: seq<u64>, hash: Frames -> u64) {
    StructureOk(s, hash) && |s.tables| == 1 && s.current == 0 && s.tables[0].keys == keys && s.puts == puts
  }

  predicate IsHome(h: nat, slots: nat, slot: nat) { slots > 2 && slot < slots && slot == h % slots }

  predicate IsNext(slot: nat, step: nat, slots: nat, next: nat) { slots > 2 && next < slots && next == (slot + (step + 1)) % slots }

  lemma ViewBegin(s: Store, t: nat, frames: Frames, weight: u64, slot: nat, puts: seq<Put>, keys: seq<u64>, hash: Frames -> u64)
    requires View(s, puts, keys, hash) && Sound(s) && t < |puts| && puts[t].Idle? && hash(frames) != 0 && IsHome(hash(frames), |keys|, slot)
    ensures View(Step(s, Begin(t, frames, weight), hash),
                 puts[t := Probing(Request(frames, hash(frames), weight), 0, slot, 0, false)], keys, hash)
  {
    StructureKept(s, Begin(t, frames, weight), hash);
    hide StructureOk;
  }

  lemma ViewLook(s: Store, t: nat, puts: seq<Put>, keys: seq<u64>, hash: Frames -> u64)
    requires View(s, puts, keys, hash) && Sound(s) && t < |puts| && puts[t].Probing? && puts[t].table == 0 && puts[t].slot < |keys|
    ensures var p := puts[t];
      View(Step(s, Look(t), hash), puts[t := Looked(p.req, 0, p.slot, p.step, p.skipped, keys[p.slot])], keys, hash)
  {
    StructureKept(s, Look(t), hash);
    hide StructureOk;
  }

  lemma ViewDecide(s: Store, t: nat, again: bool, next: nat, puts: seq<Put>, keys: seq<u64>, hash: Frames -> u64)
    requires View(s, puts, keys, hash) && Sound(s) && t < |puts| && puts[t].Looked?
    requires var p := puts[t]; p.table == 0 && p.slot < |keys| && p.seen == 0 && p.req.hash != 0 && p.step + 1 < |keys|
    ensures var p := puts[t]; var s' := Step(s, Decide(t, again, false), hash);
      && (!again ==> View(s', puts[t := Claiming(p.req, 0, p.slot, p.step, p.skipped)], keys, hash))
      && (again && keys[p.slot] == p.req.hash && IsNext(p.slot, p.step, |keys|, next) ==>
            View(s', puts[t := Probing(p.req, 0, next, p.step + 1, true)], keys, hash))
  {
    StructureKept(s, Decide(t, again, false), hash);
    hide StructureOk;
  }

  lemma ViewClaim(s: Store, t: nat, puts: seq<Put>, keys: seq<u64>, hash: Frames -> u64)
    requires View(s, puts, keys, hash) && Sound(s) && t < |puts| && puts[t].Claiming?
    requires var p := puts[t]; p.table == 0 && p.slot < |keys| && keys[p.slot] == 0
    ensures var p := puts[t];
      View(Step(s, Claim(t), hash), puts[t := Sizing(p.req, 0, p.slot)], keys[p.slot := p.req.hash], hash)
  {
    StructureKept(s, Claim(t), hash);
    hide StructureOk;
  }

  /** Two puts of the same frames both look, the first claims, the second looks again and moves on. */
  function RacingPuts(frames: Frames): seq<Action> {
    [Begin(0, frames, 1)] + ([Begin(1, frames, 1)] + ([Look(0)] + ([Look(1)] + (FirstClaims() + SecondClaims()))))
  }

  function FirstClaims(): seq<Action> { [Decide(0, false, false)] + [Claim(0)] }

  function SecondClaims(): seq<Action> { [Decide(1, true, false)] + ([Look(1)] + ([Decide(1, false, false)] + [Claim(1)])) }

  lemma RunStep(s: Store, a: Action, rest: seq<Action>, hash: Frames -> u64)
    requires StructureOk(s, hash)
    ensures Sound(s) && StructureOk(Step(s, a, hash), hash) && Run(s, [a] + rest, hash) == Run(Step(s, a, hash), rest, hash)
  {
    StructureSound(s, hash);
    StructureKept(s, a, hash);
    assert ([a] + rest)[1..] == rest;
    hide StructureOk, Step;
  }

  lemma ViewOk(s: Store, puts: seq<Put>, keys: seq<u64>, hash: Frames -> u64)
    requires View(s, puts, keys, hash)
    ensures StructureOk(s, hash) && |s.tables| == 1 && s.tables[0].keys == keys
  {
    hide StructureOk;
  }

  /** Both puts begin and see an empty slot. */
  lemma BothLook(s: Store, frames: Frames, slot: nat, rest: seq<Action>, keys: seq<u64>, hash: Frames -> u64) returns (s': Store)
    requires View(s, [Idle, Idle], keys, hash) && hash(frames) != 0 && IsHome(hash(frames), |keys|, slot) && slot < |keys| && keys[slot] == 0
    ensures var looked := Looked(Request(frames, hash(frames), 1), 0, slot, 0, false, 0);
      View(s', [looked, looked], keys, hash)
    ensures StructureOk(s', hash)
    ensures Run(s, [Begin(0, frames, 1)] + ([Begin(1, frames, 1)] + ([Look(0)] + ([Look(1)] + rest))), hash) == Run(s', rest, hash)
  {
    ViewOk(s, [Idle, Idle], keys, hash);
    hide Step, StructureOk, Run, Sound, View, IsHome;
    var req := Request(frames, hash(frames), 1);
    var probing, looked := Probing(req, 0, slot, 0, false), Looked(req, 0, slot, 0, false, 0);
    assert [Idle, Idle][0 := probing] == [probing, Idle] && [probing, Idle][1 := probing] == [probing, probing];
    assert [probing, probing][0 := looked] == [looked, probing] && [looked, probing][1 := looked] == [looked, looked];
    RunStep(s, Begin(0, frames, 1), [Begin(1, frames, 1)] + ([Look(0)] + ([Look(1)] + rest)), hash);
    ViewBegin(s, 0, frames, 1, slot, [Idle, Idle], keys, hash);
    var s1 := Step(s, Begin(0, frames, 1), hash);
    RunStep(s1, Begin(1, frames, 1), [Look(0)] + ([Look(1)] + rest), hash);
    ViewBegin(s1, 1, frames, 1, slot, [probing, Idle], keys, hash);
    var s2 := Step(s1, Begin(1, frames, 1), hash);
    RunStep(s2, Look(0), [Look(1)] + rest, hash);
    ViewLook(s2, 0, [probing, probing], keys, hash);
    var s3 := Step(s2, Look(0), hash);
    RunStep(s3, Look(1), rest, hash);
    ViewLook(s3, 1, [looked, probing], keys, hash);
    s' := Step(s3, Look(1), hash);
  }

  lemma FirstPutClaims(s: Store, req: Request, slot: nat, other: Put, rest: seq<Action>, keys: seq<u64>, hash: Frames -> u64) returns (s': Store)
    requires slot < |keys| && |keys| > 1 && req.hash != 0 && keys[slot] == 0
    requires View(s, [Looked(req, 0, slot, 0, false, 0), other], keys, hash)
    ensures View(s', [Sizing(req, 0, slot), other], keys[slot := req.hash], hash)
    ensures StructureOk(s, hash) && StructureOk(s', hash) && Run(s, FirstClaims() + rest, hash) == Run(s', rest, hash)
  {
    ViewOk(s, [Looked(req, 0, slot, 0, false, 0), other], keys, hash);
    hide Step, StructureOk, Run, Sound, View;
    var looked, claiming, sizing := Looked(req, 0, slot, 0, false, 0), Claiming(req, 0, slot, 0, false), Sizing(req, 0, slot);
    assert [looked, other][0 := claiming] == [claiming, other] && [claiming, other][0 := sizing] == [sizing, other];
    assert FirstClaims() + rest == [Decide(0, false, false)] + ([Claim(0)] + rest);
    RunStep(s, Decide(0, false, false), [Claim(0)] + rest, hash);
    ViewDecide(s, 0, false, 0, [looked, other], keys, hash);
    var s1 := Step(s, Decide(0, false, false), hash);
    RunStep(s1, Claim(0), rest, hash);
    ViewClaim(s1, 0, [claiming, other], keys, hash);
    s' := Step(s1, Claim(0), hash);
  }

  lemma SecondPutMovesOn(s: Store, req: Request, slot: nat, next: nat, other: Put, rest: seq<Action>, keys: seq<u64>, hash: Frames -> u64) returns (s': Store)
    requires req.hash != 0 && slot < |keys| && |keys| > 2 && keys[slot] == req.hash
    requires IsNext(slot, 0, |keys|, next) && next < |keys| && keys[next] == 0
    requires View(s, [other, Looked(req, 0, slot, 0, false, 0)], keys, hash)
    ensures View(s', [other, Looked(req, 0, next, 1, true, 0)], keys, hash)
    ensures StructureOk(s, hash) && StructureOk(s', hash) && Run(s, [Decide(1, true, false)] + ([Look(1)] + rest), hash) == Run(s', rest, hash)
  {
    ViewOk(s, [other, Looked(req, 0, slot, 0, false, 0)], keys, hash);
    hide Step, StructureOk, Sound, View, Run, IsNext;
    var before, probing, looked := Looked(req, 0, slot, 0, false, 0), Probing(req, 0, next, 1, true), Looked(req, 0, next, 1, true, 0);
    assert [other, before][1 := probing] == [other, probing] && [other, probing][1 := looked] == [other, looked];
    RunStep(s, Decide(1, true, false), [Look(1)] + rest, hash);
    ViewDecide(s, 1, true, next, [other, before], keys, hash);
    var s1 := Step(s, Decide(1, true, false), hash);
    RunStep(s1, Look(1), rest, hash);
    ViewLook(s1, 1, [other, probing], keys, hash);
    s' := Step(s1, Look(1), hash);
  }

  lemma SecondPutClaims(s: Store, req: Request, next: nat, other: Put, keys: seq<u64>, hash: Frames -> u64) returns (s': Store)
    requires req.hash != 0 && |keys| > 2 && next < |keys| && keys[next] == 0
    requires View(s, [other, Looked(req, 0, next, 1, true, 0)], keys, hash)
    ensures View(s', [other, Sizing(req, 0, next)], keys[next := req.hash], hash)
    ensures StructureOk(s, hash) && Run(s, [Decide(1, false, false)] + [Claim(1)], hash) == s'
  {
    ViewOk(s, [other, Looked(req, 0, next, 1, true, 0)], keys, hash);
    hide Step, StructureOk, Sound, View;
    var looked, claiming, sizing := Looked(req, 0, next, 1, true, 0), Claiming(req, 0, next, 1, true), Sizing(req, 0, next);
    assert [other, looked][1 := claiming] == [other, claiming] && [other, claiming][1 := sizing] == [other, sizing];
    RunStep(s, Decide(1, false, false), [Claim(1)], hash);
    ViewDecide(s, 1, false, 0, [other, looked], keys, hash);
    var s1 := Step(s, Decide(1, false, false), hash);
    assert [Claim(1)] + [] == [Claim(1)];
    RunStep(s1, Claim(1), [], hash);
    ViewClaim(s1, 1, [other, claiming], keys, hash);
    s' := Step(s1, Claim(1), hash);
  }

  lemma RacingSlots(h: nat, slots: nat) returns (a: nat, b: nat)
    requires slots > 2
    ensures IsHome(h, slots, a) && IsNext(a, 0, slots, b) && a < slots && b < slots && a != b
  {
    a := h % slots;
    b := (a + 1) % slots;
  }

  lemma StartView(hash: Frames -> u64) returns (keys: seq<u64>)
    ensures View(Initial(2), [Idle, Idle], keys, hash) && |keys| == INITIAL_CAPACITY && forall i | 0 <= i < |keys| :: keys[i] == 0
  {
    StructureInitial(2, hash);
    assert Initial(2).puts == [Idle, Idle];
    hide StructureOk;
    keys := Initial(2).tables[0].keys;
  }

  /** Both puts see the empty slot `a`; the second then finds its own hash there and claims `b` instead. */
  lemma RacingRun(s: Store, frames: Frames, a: nat, b: nat, keys: seq<u64>, hash: Frames -> u64) returns (s': Store)
    requires View(s, [Idle, Idle], keys, hash) && hash(frames) != 0 && |keys| > 2 && a < |keys| && b < |keys| && a != b && keys[a] == keys[b] == 0
    requires IsHome(hash(frames), |keys|, a) && IsNext(a, 0, |keys|, b)
    ensures StructureOk(s, hash) && s' == Run(s, RacingPuts(frames), hash)
    ensures |s'.tables| == 1 && s'.tables[0].keys == keys[a := hash(frames)][b := hash(frames)]
  {
    ViewOk(s, [Idle, Idle], keys, hash);
    hide StructureOk, Step, Run, View, IsHome, IsNext;
    var req := Request(frames, hash(frames), 1);
    var last := [Decide(1, false, false)] + [Claim(1)];
    var claimed := keys[a := req.hash];
    var s4 := BothLook(s, frames, a, FirstClaims() + SecondClaims(), keys, hash);
    var s6 := FirstPutClaims(s4, req, a, Looked(req, 0, a, 0, false, 0), SecondClaims(), keys, hash);
    var s8 := SecondPutMovesOn(s6, req, a, b, Sizing(req, 0, a), last, claimed, hash);
    s' := SecondPutClaims(s8, req, b, Sizing(req, 0, a), claimed, hash);
    ViewOk(s', [Sizing(req, 0, a), Sizing(req, 0, b)], claimed[b := req.hash], hash);
  }

  /** With two loads per probe, which the source as written allows, a run can store one hash in two slots. */
  lemma SecondLoadCanDuplicate(frames: Frames, hash: Frames -> u64) returns (a: nat, b: nat)
    requires hash(frames) != 0
    ensures var keys := RunFromStart(2, RacingPuts(frames), hash).tables[0].keys;
      a < |keys| && b < |keys| && a != b && keys[a] == keys[b] == hash(frames)
  {
    StructureInitial(2, hash);
    var keys := StartView(hash);
    a, b := RacingSlots(hash(frames), |keys|);
    hide StructureOk, Step, Initial, Run, View, IsHome, IsNext, RacingPuts;
    var s' := RacingRun(Initial(2), frames, a, b, keys, hash);
    assert keys[a := hash(frames)][b := hash(frames)][a] == hash(frames);
  }

  // ------------------------------------------------------------------ the chain of tables

  /** Each table is the only successor of the one before it, twice as large; at most the last is not yet current. */
  lemma ChainDoubles(threads: nat, actions: seq<Action>, hash: Frames -> u64)
    ensures var s := RunFromStart(threads, actions, hash);
      && s.current < |s.tables| <= s.current + 2
      && (forall i | 0 <= i < |s.tables| :: s.tables[i].capacity == Pow2(16 + i) && s.tables[i].prev == (if i == 0 then None else Some(i - 1)))
  {
    StructureInitial(threads, hash);
    var s := Run(Initial(threads), actions, hash);
    forall i | 0 <= i < |s.tables| ensures s.tables[i].capacity == Pow2(16 + i) && s.tables[i].prev == (if i == 0 then None else Some(i - 1)) {
      assert TableOk(s.tables[i], i, hash);
    }
    hide Run, Initial, GrowOk, PutOk, TableOk, Pow2;
  }

  /** A returned id is the overflow id or denotes a slot that holds the hash of the frames; every stored trace has its slot's hash. */
  lemma IdsDenoteTraces(threads: nat, actions: seq<Action>, hash: Frames -> u64, t: nat, i: nat, slot: nat)
    requires var s := RunFromStart(threads, actions, hash);
      t < |s.puts| && s.puts[t].Returned? && i < |s.tables| && slot < |s.tables[i].traces| == |s.tables[i].keys|
    ensures var s := RunFromStart(threads, actions, hash);
      && AskedFromStart(threads, actions, hash, t).Some?
      && (s.puts[t].id == OVERFLOW_TRACE_ID || Denotes(s.tables, s.puts[t].id, hash(AskedFromStart(threads, actions, hash, t).value.frames)))
      && (s.tables[i].traces[slot].Some? ==> hash(s.tables[i].traces[slot].value) == s.tables[i].keys[slot] != 0)
  {
    StructureInitial(threads, hash);
    var s := Run(Initial(threads), actions, hash);
    PutsAreAsAsked(threads, actions, hash, t);
    PutCount(Initial(threads), actions, hash);
    assert PutOk(s.puts[t], s.tables, s.current, hash);
    assert TableOk(s.tables[i], i, hash);
    assert SlotOk(s.tables[i], slot, hash);
    hide Run, StructureOk, Denotes, Ordered, Pow2, LastAsked, PutsIn;
  }

  lemma {:induction false} PutCount(s: Store, actions: seq<Action>, hash: Frames -> u64)
    requires StructureOk(s, hash)
    ensures |Run(s, actions, hash).puts| == |s.puts|
    decreases |actions|
  {
    hide StructureOk, Step, Begins;
    if actions != [] {
      StructureSound(s, hash);
      StructureKept(s, actions[0], hash);
      AskedStep(s, actions[0], hash, |s.puts|, None);
      PutCount(Step(s, actions[0], hash), actions[1..], hash);
    }
  }

  lemma SearchGrows(s: Store, a: Action, hash: Frames -> u64)
    requires Sound(s) && !a.Claim? && !a.Allocate?
    ensures Grows(s.tables, Step(s, a, hash).tables)
  {
    StepFrame(s, a, hash);
    hide Step, Sound;
  }

  lemma StepGrows(s: Store, a: Action, hash: Frames -> u64)
    requires StructureOk(s, hash) && Sound(s)
    ensures Grows(s.tables, Step(s, a, hash).tables) && s.current <= Step(s, a, hash).current
  {
    hide TraceId, Inherited, Threshold, NewTable, PutOk, TableOk;
    if !a.Claim? && !a.Allocate? { SearchGrows(s, a, hash); }
  }

  /** The current table only moves forward, and what a table holds stays: a key once claimed is never given up. */
  lemma {:induction false} StorageOnlyGrows(s: Store, actions: seq<Action>, hash: Frames -> u64)
    requires StructureOk(s, hash)
    ensures Grows(s.tables, Run(s, actions, hash).tables) && s.current <= Run(s, actions, hash).current
    decreases |actions|
  {
    if actions != [] {
      StructureSound(s, hash);
      StructureKept(s, actions[0], hash);
      StepGrows(s, actions[0], hash);
      hide Step, StructureOk;
      StorageOnlyGrows(Step(s, actions[0], hash), actions[1..], hash);
      GrowsTrans(s.tables, Step(s, actions[0], hash).tables, Run(s, actions, hash).tables);
    }
  }

  lemma GrowsTrans(a: seq<Table>, b: seq<Table>, c: seq<Table>)
    requires Grows(a, b) && Grows(b, c)
    ensures Grows(a, c)
  {
  }
}

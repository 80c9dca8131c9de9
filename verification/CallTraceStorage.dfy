/**
 The lock-free call trace storage of src/callTraceStorage.cpp as a state machine: a chain of hash tables of
 doubling capacity, and any number of concurrent puts, one shared-memory operation at a time.
 */
module CallTraceStorage {
  import opened Bytes

  const INITIAL_CAPACITY: nat := 65536
  const OVERFLOW_TRACE_ID: nat := 0x7fff_ffff

  /** The largest table modelled: the next one's trace ids would run into the overflow id. */
  const MAX_CAPACITY: nat := 0x4000_0000

  type Frames = seq<u64>

  datatype Table = Table(prev: Option<nat>, capacity: nat, size: nat, keys: seq<u64>,
                         traces: seq<Option<Frames>>, samples: seq<nat>, weights: seq<nat>)

  function NewTable(prev: Option<nat>, capacity: nat): Table {
    Table(prev, capacity, 0, seq(capacity, _ => 0), seq(capacity, _ => None), seq(capacity, _ => 0), seq(capacity, _ => 0))
  }

  datatype Request = Request(frames: Frames, hash: u64, weight: u64)

  /** Where a thread is in `put`. `skipped`: a second look at a slot showed the thread's own hash. */
  datatype Put =
    | Idle
    | Probing(req: Request, table: nat, slot: nat, step: nat, skipped: bool)
    | Looked(req: Request, table: nat, slot: nat, step: nat, skipped: bool, seen: u64)
    | Claiming(req: Request, table: nat, slot: nat, step: nat, skipped: bool)
    | Sizing(req: Request, table: nat, slot: nat)
    | Growing(req: Request, table: nat, slot: nat)
    | Publishing(req: Request, table: nat, slot: nat, next: nat)
    | Storing(req: Request, table: nat, slot: nat)
    | Sampling(req: Request, table: nat, slot: nat)
    | Weighing(req: Request, table: nat, slot: nat)
    | Returned(req: Request, id: nat)

  /** The last four fields are history: requests begun, credited to a slot, overflowed, and put with weight zero. */
  datatype Store = Store(tables: seq<Table>, current: nat, overflow: nat, puts: seq<Put>,
                         begun: multiset<Request>, credited: seq<Request>, lost: multiset<Request>, silent: multiset<Request>)

  datatype Action =
    | Begin(t: nat, frames: Frames, weight: u64)
    | Look(t: nat)
    | Decide(t: nat, again: bool, overLimit: bool)
    | Claim(t: nat)
    | CountSlot(t: nat)
    | Allocate(t: nat, granted: bool)
    | Publish(t: nat)
    | StoreTrace(t: nat, reuse: Option<nat>, granted: bool)
    | AddSample(t: nat)
    | AddWeight(t: nat)

  function Initial(threads: nat): Store {
    Store([NewTable(None, INITIAL_CAPACITY)], 0, 0, seq(threads, _ => Idle), multiset{}, [], multiset{}, multiset{})
  }

  function TraceId(capacity: nat, slot: nat): int { capacity - (INITIAL_CAPACITY - 1) + slot }

  function WithPut(s: Store, t: nat, p: Put): Store
    requires t < |s.puts|
  {
    s.(puts := s.puts[t := p])
  }

  function WithTable(s: Store, i: nat, tb: Table): Store
    requires i < |s.tables|
  {
    s.(tables := s.tables[i := tb])
  }

  function Overflowed(s: Store, t: nat, req: Request): Store
    requires t < |s.puts|
  {
    WithPut(s, t, Returned(req, OVERFLOW_TRACE_ID)).(overflow := s.overflow + 1, lost := s.lost + multiset{req})
  }

  /** The slot is found: count it, or return at once when there is nothing to count. */
  function Found(s: Store, t: nat, req: Request, table: nat, slot: nat): Store
    requires t < |s.puts| && table < |s.tables| && s.tables[table].capacity >= INITIAL_CAPACITY
  {
    if req.weight != 0 then WithPut(s, t, Sampling(req, table, slot))
    else WithPut(s, t, Returned(req, TraceId(s.tables[table].capacity, slot))).(silent := s.silent + multiset{req})
  }

  /** After the first look; `again` is a second load of the key, otherwise the loaded value is used twice. */
  function AfterLook(s: Store, t: nat, p: Put, again: bool, overLimit: bool): Store
    requires t < |s.puts| && p.Looked? && p.table < |s.tables|
    requires s.tables[p.table].capacity >= INITIAL_CAPACITY && p.slot < |s.tables[p.table].keys|
  {
    var cap := s.tables[p.table].capacity;
    if p.seen == p.req.hash then Found(s, t, p.req, p.table, p.slot)
    else
      var key := if again then s.tables[p.table].keys[p.slot] else p.seen;
      if key == 0 then
        if overLimit then Overflowed(s, t, p.req)
        else WithPut(s, t, Claiming(p.req, p.table, p.slot, p.step, p.skipped))
      else if p.step + 1 >= cap then Overflowed(s, t, p.req)
      else WithPut(s, t, Probing(p.req, p.table, (p.slot + (p.step + 1)) % cap, p.step + 1, p.skipped || key == p.req.hash))
  }

  function AfterClaim(s: Store, t: nat, p: Put): Store
    requires t < |s.puts| && p.Claiming? && p.table < |s.tables| && p.slot < |s.tables[p.table].keys|
  {
    var tb := s.tables[p.table];
    if tb.keys[p.slot] != 0 then WithPut(s, t, Probing(p.req, p.table, p.slot, p.step, p.skipped))
    else WithPut(WithTable(s, p.table, tb.(keys := tb.keys[p.slot := p.req.hash])), t, Sizing(p.req, p.table, p.slot))
  }

  /** `capacity * 3 / 4` in 32-bit arithmetic. */
  function Threshold(capacity: nat): nat { U32(capacity * 3) / 4 }

  function AfterCount(s: Store, t: nat, p: Put): Store
    requires t < |s.puts| && p.Sizing? && p.table < |s.tables|
  {
    var tb := s.tables[p.table];
    var s' := WithTable(s, p.table, tb.(size := tb.size + 1));
    if tb.size + 1 == Threshold(tb.capacity) then WithPut(s', t, Growing(p.req, p.table, p.slot))
    else WithPut(s', t, Storing(p.req, p.table, p.slot))
  }

  function AfterAllocate(s: Store, t: nat, p: Put, granted: bool): Store
    requires t < |s.puts| && p.Growing? && p.table < |s.tables|
  {
    var cap := s.tables[p.table].capacity;
    if granted && 2 * cap <= MAX_CAPACITY then
      WithPut(s, t, Publishing(p.req, p.table, p.slot, |s.tables|)).(tables := s.tables + [NewTable(Some(p.table), 2 * cap)])
    else WithPut(s, t, Storing(p.req, p.table, p.slot))
  }

  /** `findCallTrace` on the previous table, when it comes to slot `reuse`. */
  function Inherited(s: Store, tb: Table, h: u64, reuse: Option<nat>): Option<Frames> {
    if tb.prev.None? || tb.prev.value >= |s.tables| || reuse.None? then None
    else
      var before := s.tables[tb.prev.value];
      if reuse.value < |before.keys| && reuse.value < |before.traces| && before.keys[reuse.value] == h then before.traces[reuse.value]
      else None
  }

  /** The trace of the previous table is kept; without one a new trace is stored, if memory allows. */
  function AfterStore(s: Store, t: nat, p: Put, reuse: Option<nat>, granted: bool): Store
    requires t < |s.puts| && p.Storing? && p.table < |s.tables|
    requires s.tables[p.table].capacity >= INITIAL_CAPACITY && p.slot < |s.tables[p.table].traces|
  {
    var tb := s.tables[p.table];
    var earlier := Inherited(s, tb, p.req.hash, reuse);
    var trace := if earlier.Some? then earlier else if granted then Some(p.req.frames) else None;
    Found(WithTable(s, p.table, tb.(traces := tb.traces[p.slot := trace])), t, p.req, p.table, p.slot)
  }

  function AfterSample(s: Store, t: nat, p: Put): Store
    requires t < |s.puts| && p.Sampling? && p.table < |s.tables| && p.slot < |s.tables[p.table].samples|
  {
    var tb := s.tables[p.table];
    WithPut(WithTable(s, p.table, tb.(samples := tb.samples[p.slot := tb.samples[p.slot] + 1])), t, Weighing(p.req, p.table, p.slot))
      .(credited := s.credited + [p.req])
  }

  function AfterWeight(s: Store, t: nat, p: Put): Store
    requires t < |s.puts| && p.Weighing? && p.table < |s.tables| && p.slot < |s.tables[p.table].weights|
    requires s.tables[p.table].capacity >= INITIAL_CAPACITY
  {
    var tb := s.tables[p.table];
    WithPut(WithTable(s, p.table, tb.(weights := tb.weights[p.slot := tb.weights[p.slot] + p.req.weight])), t,
            Returned(p.req, TraceId(tb.capacity, p.slot)))
  }

  /** Every table has all its arrays, every put is at a slot of a table. */
  predicate Sound(s: Store) {
    && s.current < |s.tables|
    && (forall i | 0 <= i < |s.tables| ::
          && s.tables[i].capacity >= INITIAL_CAPACITY
          && |s.tables[i].keys| == |s.tables[i].traces| == |s.tables[i].samples| == |s.tables[i].weights| == s.tables[i].capacity)
    && (forall t | 0 <= t < |s.puts| && !s.puts[t].Idle? && !s.puts[t].Returned? ::
          s.puts[t].table < |s.tables| && s.puts[t].slot < s.tables[s.puts[t].table].capacity)
  }

  /** One operation of thread `a.t`; `hash` stands for the hash of a frame sequence. An operation that is not next changes nothing. */
  function Step(s: Store, a: Action, hash: Frames -> u64): Store
    requires Sound(s)
  {
    if a.t >= |s.puts| then s
    else
      var p := s.puts[a.t];
      match a
      case Begin(t, frames, weight) =>
        if (p.Idle? || p.Returned?) && hash(frames) != 0 then
          var req := Request(frames, hash(frames), weight);
          WithPut(s, t, Probing(req, s.current, req.hash % s.tables[s.current].capacity, 0, false)).(begun := s.begun + multiset{req})
        else s
      case Look(t) =>
        if p.Probing? then WithPut(s, t, Looked(p.req, p.table, p.slot, p.step, p.skipped, s.tables[p.table].keys[p.slot])) else s
      case Decide(t, again, overLimit) => if p.Looked? then AfterLook(s, t, p, again, overLimit) else s
      case Claim(t) => if p.Claiming? then AfterClaim(s, t, p) else s
      case CountSlot(t) => if p.Sizing? then AfterCount(s, t, p) else s
      case Allocate(t, granted) => if p.Growing? then AfterAllocate(s, t, p, granted) else s
      case Publish(t) =>
        if p.Publishing? && p.next < |s.tables| then WithPut(s, t, Storing(p.req, p.table, p.slot)).(current := p.next) else s
      case StoreTrace(t, reuse, granted) => if p.Storing? then AfterStore(s, t, p, reuse, granted) else s
      case AddSample(t) => if p.Sampling? then AfterSample(s, t, p) else s
      case AddWeight(t) => if p.Weighing? then AfterWeight(s, t, p) else s
  }
}

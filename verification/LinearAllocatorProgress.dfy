/** What a caller of the allocator gets: a block of the size asked for, and always one when it runs alone and memory is granted. */
module LinearAllocatorProgress {
  import opened Bytes
  import opened LinearAllocator
  import opened LinearAllocatorInvariant
  import opened LinearAllocatorGuarantees

  // ------------------------------------------------------------------ the size asked for

  predicate AtRest(p: Alloc) { p.Idle? || p.Returned? }

  /** The size of the last `alloc` that thread `t` began in a run. */
  function Asked(s: Arena, actions: seq<Action>, t: nat, before: Option<Size>): Option<Size>
    decreases |actions|
  {
    if actions == [] then before
    else
      var a := actions[0];
      var begins := a.Begin? && a.t == t && t < |s.threads| && AtRest(s.threads[t]);
      Asked(Step(s, a), actions[1..], t, if begins then Some(a.size) else before)
  }

  /** A thread works for the size asked for, and has returned a block of that size or none. */
  predicate Serves(p: Alloc, asked: Option<Size>) {
    match p
    case Idle => true
    case Reserving(_, block) => asked.Some? && block.size == asked.value
    case LinkingReserve(_, block, _) => asked.Some? && block.size == asked.value
    case Returned(result) => asked.Some? && (result.Some? ==> result.value.size == asked.value)
    case Loading(size) => asked == Some(size)
    case Reading(size, _) => asked == Some(size)
    case Bumping(size, _, _) => asked == Some(size)
    case NextReading(size, _) => asked == Some(size)
    case NextMaking(size, _) => asked == Some(size)
    case NextLinking(size, _, _) => asked == Some(size)
    case Switching(size, _, _) => asked == Some(size)
    case Accounting(size, _) => asked == Some(size)
  }

  lemma ThreadsKept(s: Arena, a: Action)
    ensures |Step(s, a).threads| == |s.threads|
    ensures forall u | 0 <= u < |s.threads| && u != a.t :: Step(s, a).threads[u] == s.threads[u]
  {
    hide StepsOverMiddle;
  }

  lemma ServesStep(s: Arena, a: Action, asked: Option<Size>)
    requires a.t < |s.threads| && Serves(s.threads[a.t], asked) && |Step(s, a).threads| == |s.threads|
    ensures Serves(Step(s, a).threads[a.t], if a.Begin? && AtRest(s.threads[a.t]) then Some(a.size) else asked)
  {
    hide StepsOverMiddle;
  }

  lemma {:induction false} ServesRun(s: Arena, actions: seq<Action>, t: nat, asked: Option<Size>)
    requires t < |s.threads| && Serves(s.threads[t], asked)
    ensures |Run(s, actions).threads| == |s.threads| && Serves(Run(s, actions).threads[t], Asked(s, actions, t, asked))
    decreases |actions|
  {
    hide Step, Serves;
    if actions != [] {
      var a := actions[0];
      ThreadsKept(s, a);
      if a.t == t { ServesStep(s, a, asked); }
      ServesRun(Step(s, a), actions[1..], t, if a.Begin? && a.t == t && AtRest(s.threads[t]) then Some(a.size) else asked);
    }
  }

  /** Over every run: a block that was returned has the size that its thread asked for. */
  lemma BlocksAreAsSizedAsAsked(chunkSize: Size, threads: nat, actions: seq<Action>, t: nat)
    requires t < threads
    ensures var s := RunFromStart(chunkSize, threads, actions); var asked := Asked(Initial(chunkSize, threads), actions, t, None);
            && |s.threads| == threads
            && (s.threads[t].Returned? ==> asked.Some? && (s.threads[t].result.Some? ==> s.threads[t].result.value.size == asked.value))
  {
    ServesRun(Initial(chunkSize, threads), actions, t, None);
  }

  // ------------------------------------------------------------------ chunks that nobody has reached

  /** Chunks that no thread can allocate from yet are empty. */
  predicate Unused(s: Arena) {
    forall c | 0 <= c < |s.chunks| && (s.chunks[c].status.Private? || (s.chunks[c].status.Linked? && s.chunks[c].status.pos > s.tailPos)) ::
      s.chunks[c].offs == HEADER
  }

  lemma UnusedBump(s: Arena, t: nat)
    requires Inv(s) && Unused(s) && t < |s.threads| && s.threads[t].Bumping? && s.threads[t].chunk < |s.chunks|
    ensures Unused(AfterBump(s, t, s.threads[t]))
  {
    hide StepsOverMiddle, ListOk, LinksOk, OwnersOk, BlocksOk, OffsetsOk;
    assert ThreadOk(s, t);
  }

  lemma UnusedMade(s: Arena, t: nat, prev: nat)
    requires Unused(s)
    ensures Unused(WithChunk(s, t, prev))
  {
  }

  lemma UnusedLinked(s: Arena, t: nat)
    requires Inv(s) && Unused(s) && t < |s.threads| && Making(s.threads[t]) && s.threads[t].made < |s.chunks|
    ensures Unused(LinkedChunk(s, s.threads[t].made)) && Unused(FreedChunk(s, t, s.threads[t].made))
  {
    hide ListOk, LinksOk, OwnersOk, BlocksOk, OffsetsOk;
    assert ThreadOk(s, t);
  }

  lemma UnusedStep(s: Arena, a: Action)
    requires Inv(s) && Unused(s)
    ensures Unused(Step(s, a))
  {
    hide Inv, AfterBump, LinkedChunk, FreedChunk, WithChunk;
    if a.t < |s.threads| {
      var p := s.threads[a.t];
      if p.Bumping? && p.chunk < |s.chunks| { UnusedBump(s, a.t); }
      if p.Reserving? || p.NextMaking? { UnusedMade(s, a.t, p.chunk); }
      if Making(p) && p.made < |s.chunks| { UnusedLinked(s, a.t); }
    }
  }

  lemma {:induction false} UnusedRun(s: Arena, actions: seq<Action>)
    requires Inv(s) && Unused(s)
    ensures Inv(Run(s, actions)) && Unused(Run(s, actions))
    decreases |actions|
  {
    hide Inv, Unused, Step;
    if actions != [] {
      UnusedStep(s, actions[0]);
      StepKeeps(s, actions[0]);
      UnusedRun(Step(s, actions[0]), actions[1..]);
    }
  }

  // ------------------------------------------------------------------ running alone

  /** The operation that comes next for a thread, memory being granted. */
  function NextOperation(p: Alloc, t: nat): Action
    requires !AtRest(p)
  {
    match p
    case Loading(_) => LoadTail(t)
    case Reading(_, _) => ReadOffset(t)
    case Bumping(_, _, _) => Bump(t)
    case Reserving(_, _) => MakeReserve(t, true)
    case LinkingReserve(_, _, _) => LinkReserve(t)
    case NextReading(_, _) => ReadReserve(t)
    case NextMaking(_, _) => MakeNext(t, true)
    case NextLinking(_, _, _) => LinkNext(t)
    case Switching(_, _, _) => SwitchTail(t)
    case Accounting(_, _) => Account(t)
  }

  /** The actions are those of an allocation that `t` completes alone. */
  predicate Alone(s: Arena, t: nat, actions: seq<Action>)
    decreases |actions|
  {
    t < |s.threads|
    && if actions == [] then AtRest(s.threads[t])
       else !AtRest(s.threads[t]) && actions[0] == NextOperation(s.threads[t], t) && Alone(Step(s, actions[0]), t, actions[1..])
  }

  lemma AloneStep(s: Arena, t: nat, rest: seq<Action>)
    requires t < |s.threads| && !AtRest(s.threads[t])
    ensures var a := NextOperation(s.threads[t], t); var all := [a] + rest;
            (Alone(s, t, all) <==> Alone(Step(s, a), t, rest)) && Run(s, all) == Run(Step(s, a), rest)
  {
    hide Step, NextOperation;
    var a := NextOperation(s.threads[t], t);
    assert ([a] + rest)[1..] == rest;
  }

  /** `t` has returned a block of `size` bytes, and if that stepped over the middle of its chunk, a successor is ready. */
  predicate Got(s: Arena, t: nat, size: nat) {
    && t < |s.threads| && s.threads[t].Returned? && s.threads[t].result.Some?
    && var b := s.threads[t].result.value;
       b.size == size && (StepsOverMiddle(s.chunkSize, b.start, b.size) ==> s.reserve != b.chunk)
  }

  lemma AloneDone(s: Arena, t: nat, size: nat)
    requires Got(s, t, size)
    ensures Alone(s, t, []) && Run(s, []) == s
  {
    hide StepsOverMiddle;
  }

  /** Preparing the reserve does not keep the block from being returned. */
  lemma ReserveReturns(s: Arena, t: nat) returns (actions: seq<Action>)
    requires t < |s.threads| && s.threads[t].Reserving? && s.threads[t].chunk == s.threads[t].block.chunk < |s.chunks|
    ensures Alone(s, t, actions) && Got(Run(s, actions), t, s.threads[t].block.size)
  {
    hide Alone, Run, StepsOverMiddle;
    var size := s.threads[t].block.size;
    var s1 := Step(s, MakeReserve(t, true));
    var s2 := Step(s1, LinkReserve(t));
    AloneDone(s2, t, size);
    AloneStep(s1, t, []);
    AloneStep(s, t, [LinkReserve(t)] + []);
    actions := [MakeReserve(t, true)] + ([LinkReserve(t)] + []);
  }

  /** A thread at a chunk with room bumps its offset and returns. */
  lemma RoomReturns(s: Arena, t: nat) returns (actions: seq<Action>)
    requires Inv(s) && t < |s.threads| && s.threads[t].Reading? && s.threads[t].chunk < |s.chunks|
    requires s.chunks[s.threads[t].chunk].offs + s.threads[t].size <= s.chunkSize
    ensures Alone(s, t, actions) && Got(Run(s, actions), t, s.threads[t].size)
  {
    hide Alone, Run, Inv, StepsOverMiddle;
    var size := s.threads[t].size;
    var s1 := Step(s, ReadOffset(t));
    var s2 := Step(s1, Bump(t));
    var rest: seq<Action> := [];
    if s2.threads[t].Reserving? { rest := ReserveReturns(s2, t); } else { AloneDone(s2, t, size); }
    AloneStep(s1, t, rest);
    AloneStep(s, t, [Bump(t)] + rest);
    actions := [ReadOffset(t)] + ([Bump(t)] + rest);
  }

  /** From a chunk without room, a thread alone gets to an unused one. */
  lemma NextChunkReturns(s: Arena, t: nat) returns (actions: seq<Action>)
    requires Inv(s) && Unused(s) && t < |s.threads| && s.threads[t].Switching? && s.threads[t].chunk == s.tail
    requires HEADER + s.threads[t].size <= s.chunkSize
    ensures Alone(s, t, actions) && Got(Run(s, actions), t, s.threads[t].size)
  {
    hide Alone, Run, Inv, Unused;
    var p := s.threads[t];
    NextOfTail(s, t);
    UnusedAt(s, p.next);
    var s1 := Step(s, SwitchTail(t));
    StepKeeps(s, SwitchTail(t));
    var s2 := Step(s1, Account(t));
    StepKeeps(s1, Account(t));
    var rest := RoomReturns(s2, t);
    AloneStep(s1, t, rest);
    AloneStep(s, t, [Account(t)] + rest);
    actions := [SwitchTail(t)] + ([Account(t)] + rest);
  }

  lemma UnusedAt(s: Arena, c: nat)
    requires Unused(s) && c < |s.chunks| && s.chunks[c].status.Linked? && s.chunks[c].status.pos > s.tailPos
    ensures s.chunks[c].offs == HEADER
  {
  }

  lemma FullReturns(s: Arena, t: nat) returns (actions: seq<Action>)
    requires Inv(s) && Unused(s) && t < |s.threads| && s.threads[t].NextReading? && s.threads[t].chunk == s.tail
    requires HEADER + s.threads[t].size <= s.chunkSize
    ensures Alone(s, t, actions) && Got(Run(s, actions), t, s.threads[t].size)
  {
    hide Alone, Run, Inv, Unused, LinkedChunk, FreedChunk;
    var p := s.threads[t];
    var s1 := Step(s, ReadReserve(t));
    UnusedStep(s, ReadReserve(t));
    StepKeeps(s, ReadReserve(t));
    var rest: seq<Action> := [];
    if s1.threads[t].Switching? {
      rest := NextChunkReturns(s1, t);
    } else {
      var s2 := Step(s1, MakeNext(t, true));
      UnusedStep(s1, MakeNext(t, true));
      StepKeeps(s1, MakeNext(t, true));
      var s3 := Step(s2, LinkNext(t));
      UnusedStep(s2, LinkNext(t));
      StepKeeps(s2, LinkNext(t));
      LinkTail(s2, t);
      var more := NextChunkReturns(s3, t);
      AloneStep(s2, t, more);
      AloneStep(s1, t, [LinkNext(t)] + more);
      rest := [MakeNext(t, true)] + ([LinkNext(t)] + more);
    }
    AloneStep(s, t, rest);
    actions := [ReadReserve(t)] + rest;
  }

  lemma LinkTail(s: Arena, t: nat)
    requires t < |s.threads| && s.threads[t].NextLinking? && s.threads[t].made < |s.chunks|
    ensures var s' := Step(s, LinkNext(t)); var p := s.threads[t];
            s'.tail == s.tail && s'.chunkSize == s.chunkSize && t < |s'.threads| && s'.threads[t].Switching?
            && s'.threads[t].size == p.size && s'.threads[t].chunk == p.chunk
  {
  }

  /**
   An allocation of at most a chunk's worth, begun in any state of any run and left to run alone with memory granted,
   returns a block of the size asked for. If it steps over the middle of its chunk, the next chunk is ready then.
   */
  lemma AllocReturns(chunkSize: Size, threads: nat, before: seq<Action>, t: nat, size: Size) returns (actions: seq<Action>)
    requires HEADER + size <= chunkSize
    requires var s := RunFromStart(chunkSize, threads, before); t < |s.threads| && AtRest(s.threads[t])
    ensures var s := Step(RunFromStart(chunkSize, threads, before), Begin(t, size)); Alone(s, t, actions) && Got(Run(s, actions), t, size)
  {
    hide Alone, Run, Inv, Unused, RunFromStart;
    var s := RunFromStart(chunkSize, threads, before);
    StartedWell(chunkSize, threads, before);
    var s1 := Step(s, Begin(t, size));
    UnusedStep(s, Begin(t, size));
    StepKeeps(s, Begin(t, size));
    var s2 := Step(s1, LoadTail(t));
    UnusedStep(s1, LoadTail(t));
    StepKeeps(s1, LoadTail(t));
    TailInList(s2);
    var rest: seq<Action>;
    if s2.chunks[s2.tail].offs + size <= s2.chunkSize {
      rest := RoomReturns(s2, t);
    } else {
      var s3 := Step(s2, ReadOffset(t));
      UnusedStep(s2, ReadOffset(t));
      StepKeeps(s2, ReadOffset(t));
      var more := FullReturns(s3, t);
      AloneStep(s2, t, more);
      rest := [ReadOffset(t)] + more;
    }
    AloneStep(s1, t, rest);
    actions := [LoadTail(t)] + rest;
  }

  // ------------------------------------------------------------------ memory in use

  /** Threads that have switched to a new chunk and not counted it yet. */
  function Pending(threads: seq<Alloc>): nat {
    if threads == [] then 0 else Pending(threads[..|threads| - 1]) + (if threads[|threads| - 1].Accounting? then 1 else 0)
  }

  lemma {:induction false} PendingUpdate(threads: seq<Alloc>, t: nat, p: Alloc)
    requires t < |threads|
    ensures Pending(threads[t := p]) + (if threads[t].Accounting? then 1 else 0) == Pending(threads) + (if p.Accounting? then 1 else 0)
  {
    var n := |threads| - 1;
    if t < n {
      PendingUpdate(threads[..n], t, p);
      assert threads[t := p][..n] == threads[..n][t := p];
    } else {
      assert threads[t := p][..n] == threads[..n];
    }
  }

  /** `_used_memory` counts the chunks up to the tail, but for those just being counted. */
  predicate Used(s: Arena) { s.used + s.chunkSize * Pending(s.threads) == s.chunkSize * (s.tailPos + 1) }

  lemma UsedStep(s: Arena, a: Action)
    requires Used(s)
    ensures Used(Step(s, a))
  {
    hide Pending, StepsOverMiddle;
    var s' := Step(s, a);
    if a.t < |s.threads| {
      StepParts(s, a);
      PendingUpdate(s.threads, a.t, s'.threads[a.t]);
      CountsMove(s.chunkSize, Pending(s.threads), Pending(s'.threads));
    }
  }

  lemma CountsMove(c: nat, m: nat, n: nat)
    ensures n == m + 1 ==> c * n == c * m + c
    ensures m == n + 1 ==> c * m == c * n + c
  {
  }

  lemma StepParts(s: Arena, a: Action)
    requires a.t < |s.threads|
    ensures var s' := Step(s, a);
            && |s'.threads| == |s.threads| && s'.threads == s.threads[a.t := s'.threads[a.t]] && s'.chunkSize == s.chunkSize
            && s'.used == s.used + (if a.Account? && s.threads[a.t].Accounting? then s.chunkSize else 0)
            && s'.tailPos == s.tailPos + (if a.SwitchTail? && s.threads[a.t].Switching? && s.tail == s.threads[a.t].chunk then 1 else 0)
            && (s'.threads[a.t].Accounting? <==>
                  (a.SwitchTail? && s.threads[a.t].Switching? && s.tail == s.threads[a.t].chunk) || (s.threads[a.t].Accounting? && !a.Account?))
  {
    hide StepsOverMiddle;
  }

  lemma {:induction false} UsedRun(s: Arena, actions: seq<Action>)
    requires Used(s)
    ensures Used(Run(s, actions))
    decreases |actions|
  {
    hide Used, Step;
    if actions != [] {
      UsedStep(s, actions[0]);
      UsedRun(Step(s, actions[0]), actions[1..]);
    }
  }

  lemma {:induction false} NonePending(threads: seq<Alloc>)
    requires forall t | 0 <= t < |threads| :: !threads[t].Accounting?
    ensures Pending(threads) == 0
  {
    if threads != [] { NonePending(threads[..|threads| - 1]); }
  }

  /** Whenever no thread is about to count a chunk, the memory in use is that of the chunks up to the tail. */
  lemma UsedMemoryExact(chunkSize: Size, threads: nat, actions: seq<Action>)
    requires var s := RunFromStart(chunkSize, threads, actions); forall t | 0 <= t < |s.threads| :: !s.threads[t].Accounting?
    ensures var s := RunFromStart(chunkSize, threads, actions); s.used == s.chunkSize * (s.tailPos + 1)
  {
    hide Run, Pending;
    var s := Initial(chunkSize, threads);
    NonePending(s.threads);
    assert chunkSize * 0 == 0 && chunkSize * (0 + 1) == chunkSize;
    UsedRun(s, actions);
    var r := RunFromStart(chunkSize, threads, actions);
    NonePending(r.threads);
    assert r.chunkSize * 0 == 0;
  }

  // ------------------------------------------------------------------ where runs start

  lemma TailInList(s: Arena)
    requires Inv(s)
    ensures s.tail < |s.chunks|
  {
    hide LinksOk, OwnersOk, BlocksOk, OffsetsOk, ThreadOk;
  }

  lemma StartedWell(chunkSize: Size, threads: nat, actions: seq<Action>)
    requires HEADER <= chunkSize
    ensures var s := RunFromStart(chunkSize, threads, actions); Inv(s) && Unused(s) && s.chunkSize == chunkSize
  {
    hide Inv, Run;
    InvInitial(chunkSize, threads);
    UnusedRun(Initial(chunkSize, threads), actions);
    SizeKept(Initial(chunkSize, threads), actions);
  }

  lemma {:induction false} SizeKept(s: Arena, actions: seq<Action>)
    ensures Run(s, actions).chunkSize == s.chunkSize
    decreases |actions|
  {
    if actions != [] {
      SizeKept(Step(s, actions[0]), actions[1..]);
      hide StepsOverMiddle, Run;
    }
  }
}

/**
 The lock-free bump allocator of src/linearAllocator.cpp as a state machine: a list of chunks with a tail and a
 reserve, and any number of concurrent allocations, one shared-memory operation at a time.
 */
module LinearAllocator {
  import opened Bytes

  /** `sizeof(Chunk)`. */
  const HEADER: nat := 72

  /** Sizes for which `offs + size` does not wrap. */
  type Size = n: int | 0 <= n < 0x8000_0000_0000_0000

  /** A chunk is private to the thread that made it until it is linked, at position `pos` of the list, or freed. */
  datatype Status = Private(t: nat) | Linked(pos: nat) | Freed

  datatype Chunk = Chunk(prev: Option<nat>, offs: nat, status: Status)

  datatype Block = Block(chunk: nat, start: nat, size: nat)

  /** Where a thread is in `alloc`; `chunk` is its local variable. */
  datatype Alloc =
    | Idle
    | Loading(size: Size)
    | Reading(size: Size, chunk: nat)
    | Bumping(size: Size, chunk: nat, offs: nat)
    | Reserving(chunk: nat, block: Block)
    | LinkingReserve(chunk: nat, block: Block, made: nat)
    | NextReading(size: Size, chunk: nat)
    | NextMaking(size: Size, chunk: nat)
    | NextLinking(size: Size, chunk: nat, made: nat)
    | Switching(size: Size, chunk: nat, next: nat)
    | Accounting(size: Size, chunk: nat)
    | Returned(result: Option<Block>)

  /**
   `chunkSize` is fixed. The last four fields are history: the linked chunks in order, the position of the tail,
   all blocks handed out, and whether a chunk was ever freed that was not the thread's own.
   */
  datatype Arena = Arena(chunkSize: Size, used: nat, tail: nat, reserve: nat, chunks: seq<Chunk>, threads: seq<Alloc>,
                         chain: seq<nat>, tailPos: nat, blocks: seq<Block>, wrongFree: bool)

  datatype Action =
    | Begin(t: nat, size: Size)
    | LoadTail(t: nat)
    | ReadOffset(t: nat)
    | Bump(t: nat)
    | MakeReserve(t: nat, granted: bool)
    | LinkReserve(t: nat)
    | ReadReserve(t: nat)
    | MakeNext(t: nat, granted: bool)
    | LinkNext(t: nat)
    | SwitchTail(t: nat)
    | Account(t: nat)

  function Initial(chunkSize: Size, threads: nat): Arena {
    Arena(chunkSize, chunkSize, 0, 0, [Chunk(None, HEADER, Linked(0))], seq(threads, _ => Idle), [0], 0, [], false)
  }

  function Moved(s: Arena, t: nat, p: Alloc): Arena
    requires t < |s.threads|
  {
    s.(threads := s.threads[t := p])
  }

  /** `_chunk_size / 2 - offs < size` in unsigned 64-bit arithmetic. */
  predicate StepsOverMiddle(chunkSize: Size, offs: nat, size: nat) {
    (chunkSize / 2 - offs) % 0x1_0000_0000_0000_0000 < size
  }

  function AfterBump(s: Arena, t: nat, p: Alloc): Arena
    requires t < |s.threads| && p.Bumping? && p.chunk < |s.chunks|
  {
    var c := s.chunks[p.chunk];
    if c.offs != p.offs then Moved(s, t, Reading(p.size, p.chunk))
    else
      var block := Block(p.chunk, p.offs, p.size);
      var s' := s.(chunks := s.chunks[p.chunk := c.(offs := p.offs + p.size)], blocks := s.blocks + [block]);
      if StepsOverMiddle(s.chunkSize, p.offs, p.size) then Moved(s', t, Reserving(p.chunk, block))
      else Moved(s', t, Returned(Some(block)))
  }

  /** A new private chunk in front of `prev`. */
  function WithChunk(s: Arena, t: nat, prev: nat): Arena {
    s.(chunks := s.chunks + [Chunk(Some(prev), HEADER, Private(t))])
  }

  /** The successful CAS of `_reserve` from its expected value to `made`. */
  function LinkedChunk(s: Arena, made: nat): Arena
    requires made < |s.chunks|
  {
    s.(reserve := made, chain := s.chain + [made], chunks := s.chunks[made := s.chunks[made].(status := Linked(|s.chain|))])
  }

  function FreedChunk(s: Arena, t: nat, made: nat): Arena
    requires made < |s.chunks|
  {
    s.(chunks := s.chunks[made := s.chunks[made].(status := Freed)], wrongFree := s.wrongFree || s.chunks[made].status != Private(t))
  }

  function AfterLinkNext(s: Arena, t: nat, p: Alloc): Arena
    requires t < |s.threads| && p.NextLinking? && p.made < |s.chunks|
  {
    if s.reserve == p.chunk then Moved(LinkedChunk(s, p.made), t, Switching(p.size, p.chunk, p.made))
    else Moved(FreedChunk(s, t, p.made), t, Switching(p.size, p.chunk, s.reserve))
  }

  function AfterLinkReserve(s: Arena, t: nat, p: Alloc): Arena
    requires t < |s.threads| && p.LinkingReserve? && p.made < |s.chunks|
  {
    if s.reserve == p.chunk then Moved(LinkedChunk(s, p.made), t, Returned(Some(p.block)))
    else Moved(FreedChunk(s, t, p.made), t, Returned(Some(p.block)))
  }

  function AfterSwitch(s: Arena, t: nat, p: Alloc): Arena
    requires t < |s.threads| && p.Switching?
  {
    if s.tail == p.chunk then Moved(s, t, Accounting(p.size, p.next)).(tail := p.next, tailPos := s.tailPos + 1)
    else Moved(s, t, Reading(p.size, s.tail))
  }

  /** One operation of thread `a.t`; one that is not next changes nothing. */
  function Step(s: Arena, a: Action): Arena {
    if a.t >= |s.threads| then s
    else
      var p := s.threads[a.t];
      match a
      case Begin(t, size) => if p.Idle? || p.Returned? then Moved(s, t, Loading(size)) else s
      case LoadTail(t) => if p.Loading? then Moved(s, t, Reading(p.size, s.tail)) else s
      case ReadOffset(t) =>
        if p.Reading? && p.chunk < |s.chunks| then
          if s.chunks[p.chunk].offs + p.size <= s.chunkSize then Moved(s, t, Bumping(p.size, p.chunk, s.chunks[p.chunk].offs))
          else Moved(s, t, NextReading(p.size, p.chunk))
        else s
      case Bump(t) => if p.Bumping? && p.chunk < |s.chunks| then AfterBump(s, t, p) else s
      case MakeReserve(t, granted) =>
        if !p.Reserving? then s
        else if granted then Moved(WithChunk(s, t, p.chunk), t, LinkingReserve(p.chunk, p.block, |s.chunks|))
        else Moved(s, t, Returned(Some(p.block)))
      case LinkReserve(t) => if p.LinkingReserve? && p.made < |s.chunks| then AfterLinkReserve(s, t, p) else s
      case ReadReserve(t) =>
        if !p.NextReading? then s
        else if s.reserve == p.chunk then Moved(s, t, NextMaking(p.size, p.chunk))
        else Moved(s, t, Switching(p.size, p.chunk, s.reserve))
      case MakeNext(t, granted) =>
        if !p.NextMaking? then s
        else if granted then Moved(WithChunk(s, t, p.chunk), t, NextLinking(p.size, p.chunk, |s.chunks|))
        else Moved(s, t, Returned(None))
      case LinkNext(t) => if p.NextLinking? && p.made < |s.chunks| then AfterLinkNext(s, t, p) else s
      case SwitchTail(t) => if p.Switching? then AfterSwitch(s, t, p) else s
      case Account(t) => if p.Accounting? then Moved(s, t, Reading(p.size, p.chunk)).(used := s.used + s.chunkSize) else s
  }

  function Run(s: Arena, actions: seq<Action>): Arena
    decreases |actions|
  {
    if actions == [] then s else Run(Step(s, actions[0]), actions[1..])
  }
}

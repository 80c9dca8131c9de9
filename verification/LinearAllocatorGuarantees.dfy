/** What the allocator promises over every interleaving. */
module LinearAllocatorGuarantees {
  import opened Bytes
  import opened LinearAllocator
  import opened LinearAllocatorInvariant

  function RunFromStart(chunkSize: Size, threads: nat, actions: seq<Action>): Arena {
    Run(Initial(chunkSize, threads), actions)
  }

  lemma RunInv(chunkSize: Size, threads: nat, actions: seq<Action>)
    requires HEADER <= chunkSize
    ensures Inv(RunFromStart(chunkSize, threads, actions))
  {
    hide Inv, Run, Initial;
    InvInitial(chunkSize, threads);
    RunKeeps(Initial(chunkSize, threads), actions);
  }

  /** All blocks ever handed out are pairwise disjoint, and inside a linked chunk behind its header. */
  lemma BlocksNeverOverlap(chunkSize: Size, threads: nat, actions: seq<Action>)
    requires HEADER <= chunkSize
    ensures var s := RunFromStart(chunkSize, threads, actions);
      && (forall t | 0 <= t < |s.threads| && s.threads[t].Returned? && s.threads[t].result.Some? :: s.threads[t].result.value in s.blocks)
      && (forall i, j | 0 <= i < j < |s.blocks| :: Disjoint(s.blocks[i], s.blocks[j]))
      && (forall i | 0 <= i < |s.blocks| ::
            var b := s.blocks[i];
            b.chunk < |s.chunks| && s.chunks[b.chunk].status.Linked? && HEADER <= b.start && b.start + b.size <= s.chunkSize)
  {
    RunInv(chunkSize, threads, actions);
    var s := RunFromStart(chunkSize, threads, actions);
    hide RunFromStart;
    forall t | 0 <= t < |s.threads| && s.threads[t].Returned? && s.threads[t].result.Some? ensures s.threads[t].result.value in s.blocks {
      assert ThreadOk(s, t);
    }
    forall i | 0 <= i < |s.blocks| ensures Inside(s, s.blocks[i]) && s.blocks[i].start + s.blocks[i].size <= s.chunkSize {
      assert Inside(s, s.blocks[i]);
    }
    hide ListOk, OwnersOk, ThreadOk, Disjoint;
  }

  /** The reserve is the tail, or the one linked chunk in front of it. */
  lemma ReserveIsTailOrItsChild(chunkSize: Size, threads: nat, actions: seq<Action>)
    requires HEADER <= chunkSize
    ensures var s := RunFromStart(chunkSize, threads, actions);
      && s.reserve < |s.chunks| && s.tail < |s.chunks|
      && (s.reserve == s.tail || s.chunks[s.reserve].prev == Some(s.tail))
      && (forall c | 0 <= c < |s.chunks| && s.chunks[c].status.Linked? && s.chunks[c].prev == Some(s.tail) :: c == s.reserve)
  {
    RunInv(chunkSize, threads, actions);
    var s := RunFromStart(chunkSize, threads, actions);
    hide RunFromStart, OffsetsOk, OwnersOk, BlocksOk, ThreadOk;
    TailReached(s);
    assert PrevOk(s, s.reserve);
    forall c | 0 <= c < |s.chunks| && s.chunks[c].status.Linked? && s.chunks[c].prev == Some(s.tail) ensures c == s.reserve {
      var i := s.chunks[c].status.pos;
      assert PrevOk(s, c);
      assert i > 0 && s.chain[i - 1] == s.tail;
    }
  }

  /** Every chunk is linked at its own place of the list, freed once by its maker, or still private to a thread that will do one of the two. */
  lemma ChunksLinkedOrFreedOnce(chunkSize: Size, threads: nat, actions: seq<Action>, c: nat)
    requires HEADER <= chunkSize && c < |RunFromStart(chunkSize, threads, actions).chunks|
    ensures var s := RunFromStart(chunkSize, threads, actions);
      && !s.wrongFree
      && match s.chunks[c].status
         case Linked(i) => i < |s.chain| && (forall j | 0 <= j < |s.chain| :: s.chain[j] == c <==> j == i)
         case Private(t) => t < |s.threads| && Making(s.threads[t]) && s.threads[t].made == c && c !in s.chain
         case Freed => c !in s.chain
  {
    RunInv(chunkSize, threads, actions);
    hide RunFromStart, OffsetsOk, BlocksOk, ThreadOk;
  }

  lemma StepSettles(s: Arena, a: Action, c: nat)
    requires Inv(s) && c < |s.chunks| && !s.chunks[c].status.Private?
    ensures c < |Step(s, a).chunks| && Step(s, a).chunks[c].status == s.chunks[c].status
  {
    if a.t < |s.threads| { assert ThreadOk(s, a.t); }
    hide Inv, StepsOverMiddle;
  }

  /** A linked chunk stays linked and a freed one stays freed. */
  lemma {:induction false} SettledForGood(s: Arena, actions: seq<Action>, c: nat)
    requires Inv(s) && c < |s.chunks| && !s.chunks[c].status.Private?
    ensures c < |Run(s, actions).chunks| && Run(s, actions).chunks[c].status == s.chunks[c].status
    decreases |actions|
  {
    hide Inv, Step;
    if actions != [] {
      StepSettles(s, actions[0], c);
      StepKeeps(s, actions[0]);
      SettledForGood(Step(s, actions[0]), actions[1..], c);
    }
  }

  /** The unsigned test is true exactly for the block that contains the middle of the chunk. */
  lemma MiddleTest(chunkSize: Size, offs: nat, size: nat)
    requires offs + size <= chunkSize
    ensures StepsOverMiddle(chunkSize, offs, size) <==> offs <= chunkSize / 2 < offs + size
  {
    if offs <= chunkSize / 2 {
      assert (chunkSize / 2 - offs) % 0x1_0000_0000_0000_0000 == chunkSize / 2 - offs;
    } else {
      assert (chunkSize / 2 - offs) % 0x1_0000_0000_0000_0000 == chunkSize / 2 - offs + 0x1_0000_0000_0000_0000;
    }
  }

  /** So at most one block of a chunk prepares its successor. */
  lemma OneBlockPreparesReserve(chunkSize: Size, threads: nat, actions: seq<Action>, i: nat, j: nat)
    requires HEADER <= chunkSize && i < j < |RunFromStart(chunkSize, threads, actions).blocks|
    ensures var s := RunFromStart(chunkSize, threads, actions); var a := s.blocks[i]; var b := s.blocks[j];
      a.chunk == b.chunk ==> !(StepsOverMiddle(s.chunkSize, a.start, a.size) && StepsOverMiddle(s.chunkSize, b.start, b.size))
  {
    BlocksNeverOverlap(chunkSize, threads, actions);
    var s := RunFromStart(chunkSize, threads, actions);
    hide RunFromStart, StepsOverMiddle;
    var a, b := s.blocks[i], s.blocks[j];
    assert Disjoint(a, b);
    MiddleTest(s.chunkSize, a.start, a.size);
    MiddleTest(s.chunkSize, b.start, b.size);
  }

  // ------------------------------------------------------------------ no space is lost

  /** Bytes handed out from chunk `c`. */
  function SpaceOf(blocks: seq<Block>, c: nat): nat {
    if blocks == [] then 0
    else SpaceOf(blocks[..|blocks| - 1], c) + (if blocks[|blocks| - 1].chunk == c then blocks[|blocks| - 1].size else 0)
  }

  /** Each block of a chunk starts where the ones before it end. */
  predicate Chained(blocks: seq<Block>) { forall i | 0 <= i < |blocks| :: blocks[i].start == HEADER + SpaceOf(blocks[..i], blocks[i].chunk) }

  lemma ChainedOn(blocks: seq<Block>, b: Block)
    requires Chained(blocks) && b.start == HEADER + SpaceOf(blocks, b.chunk)
    ensures Chained(blocks + [b]) && forall c: nat :: SpaceOf(blocks + [b], c) == SpaceOf(blocks, c) + (if b.chunk == c then b.size else 0)
  {
    var more := blocks + [b];
    assert more[..|blocks|] == blocks;
    forall i | 0 <= i < |more| ensures more[i].start == HEADER + SpaceOf(more[..i], more[i].chunk) {
      if i < |blocks| { assert more[..i] == blocks[..i]; }
    }
  }

  /** And the chunk's offset is where the last one ends. */
  predicate Tiled(s: Arena) {
    && Chained(s.blocks)
    && (forall c | 0 <= c < |s.chunks| :: s.chunks[c].offs == HEADER + SpaceOf(s.blocks, c))
    && (forall i | 0 <= i < |s.blocks| :: s.blocks[i].chunk < |s.chunks|)
  }

  lemma {:induction false} NoSpace(blocks: seq<Block>, c: nat)
    requires forall i | 0 <= i < |blocks| :: blocks[i].chunk != c
    ensures SpaceOf(blocks, c) == 0
  {
    if blocks != [] { NoSpace(blocks[..|blocks| - 1], c); }
  }

  /** Nothing was handed out. */
  predicate OffsetsSame(s: Arena, s': Arena) {
    && s'.blocks == s.blocks && |s.chunks| <= |s'.chunks| <= |s.chunks| + 1
    && (forall c | 0 <= c < |s.chunks| :: s'.chunks[c].offs == s.chunks[c].offs)
    && (forall c | |s.chunks| <= c < |s'.chunks| :: s'.chunks[c].offs == HEADER)
  }

  lemma LinkOffsets(s: Arena, t: nat, p: Alloc)
    requires t < |s.threads| && Making(p) && p.made < |s.chunks|
    ensures p.NextLinking? ==> OffsetsSame(s, AfterLinkNext(s, t, p))
    ensures p.LinkingReserve? ==> OffsetsSame(s, AfterLinkReserve(s, t, p))
  {
  }

  lemma OnlyBumpsHandOut(s: Arena, a: Action)
    requires !a.Bump?
    ensures OffsetsSame(s, Step(s, a))
  {
    if a.t < |s.threads| {
      var p := s.threads[a.t];
      if Making(p) && p.made < |s.chunks| { LinkOffsets(s, a.t, p); }
      hide AfterLinkNext, AfterLinkReserve, AfterBump;
    }
  }

  lemma TiledBump(s: Arena, t: nat)
    requires Tiled(s) && t < |s.threads| && s.threads[t].Bumping? && s.threads[t].chunk < |s.chunks|
    ensures Tiled(AfterBump(s, t, s.threads[t]))
  {
    hide Chained, SpaceOf, AfterBump;
    var p := s.threads[t];
    var s' := AfterBump(s, t, p);
    BumpParts(s, t, p);
    if s.chunks[p.chunk].offs == p.offs {
      var b := Block(p.chunk, p.offs, p.size);
      ChainedOn(s.blocks, b);
      forall c | 0 <= c < |s'.chunks| ensures s'.chunks[c].offs == HEADER + SpaceOf(s'.blocks, c) {
        assert s.chunks[c].offs == HEADER + SpaceOf(s.blocks, c);
      }
    }
  }

  /** What a bump does to the chunks and blocks. */
  lemma BumpParts(s: Arena, t: nat, p: Alloc)
    requires t < |s.threads| && p.Bumping? && p.chunk < |s.chunks|
    ensures var s' := AfterBump(s, t, p); var c := s.chunks[p.chunk];
            if c.offs != p.offs then s'.chunks == s.chunks && s'.blocks == s.blocks
            else s'.chunks == s.chunks[p.chunk := c.(offs := p.offs + p.size)] && s'.blocks == s.blocks + [Block(p.chunk, p.offs, p.size)]
  {
  }

  lemma TiledStep(s: Arena, a: Action)
    requires Tiled(s)
    ensures Tiled(Step(s, a))
  {
    if a.Bump? {
      if a.t < |s.threads| && s.threads[a.t].Bumping? && s.threads[a.t].chunk < |s.chunks| { TiledBump(s, a.t); }
      hide AfterBump, Tiled;
    } else {
      hide SpaceOf, Step, Chained;
      NoSpace(s.blocks, |s.chunks|);
      OnlyBumpsHandOut(s, a);
    }
  }

  lemma {:induction false} TiledRun(s: Arena, actions: seq<Action>)
    requires Tiled(s)
    ensures Tiled(Run(s, actions))
    decreases |actions|
  {
    hide Tiled, Step;
    if actions != [] {
      TiledStep(s, actions[0]);
      TiledRun(Step(s, actions[0]), actions[1..]);
    }
  }

  /** In every run the blocks of a chunk fill it without gaps, from the header to its offset. */
  lemma BlocksTileChunks(chunkSize: Size, threads: nat, actions: seq<Action>)
    requires HEADER <= chunkSize
    ensures Tiled(RunFromStart(chunkSize, threads, actions))
  {
    assert Tiled(Initial(chunkSize, threads));
    hide Tiled, Initial, Run;
    TiledRun(Initial(chunkSize, threads), actions);
  }

  /** Every byte handed out is in a block. */
  lemma {:induction false} ByteInBlock(blocks: seq<Block>, c: nat, x: nat) returns (i: nat)
    requires Chained(blocks) && HEADER <= x < HEADER + SpaceOf(blocks, c)
    ensures i < |blocks| && blocks[i].chunk == c && blocks[i].start <= x < blocks[i].start + blocks[i].size
  {
    var n := |blocks| - 1;
    if x < HEADER + SpaceOf(blocks[..n], c) {
      forall j | 0 <= j < n ensures blocks[..n][..j] == blocks[..j] {}
      i := ByteInBlock(blocks[..n], c, x);
    } else {
      i := n;
    }
  }

  /** A chunk filled beyond its middle has a block that prepared its successor: with `OneBlockPreparesReserve`, exactly one. */
  lemma FilledChunkPreparesReserve(chunkSize: Size, threads: nat, actions: seq<Action>, c: nat) returns (i: nat)
    requires HEADER <= chunkSize
    requires var s := RunFromStart(chunkSize, threads, actions); c < |s.chunks| && HEADER <= s.chunkSize / 2 < s.chunks[c].offs
    ensures var s := RunFromStart(chunkSize, threads, actions);
      i < |s.blocks| && s.blocks[i].chunk == c && StepsOverMiddle(s.chunkSize, s.blocks[i].start, s.blocks[i].size)
  {
    BlocksTileChunks(chunkSize, threads, actions);
    BlocksNeverOverlap(chunkSize, threads, actions);
    var s := RunFromStart(chunkSize, threads, actions);
    hide RunFromStart, StepsOverMiddle;
    i := ByteInBlock(s.blocks, c, s.chunkSize / 2);
    MiddleTest(s.chunkSize, s.blocks[i].start, s.blocks[i].size);
  }

  // ------------------------------------------------------------------ clearing

  /** Chunk `c` is given back. */
  function GivenBack(chunks: seq<Chunk>, c: nat): seq<Chunk>
    requires c < |chunks|
  {
    chunks[c := chunks[c].(status := Freed)]
  }

  /** The first `n` positions of the chain are still linked, all other chunks are freed. */
  predicate Cleared(s: Arena, chunks: seq<Chunk>, n: nat) {
    && |chunks| == |s.chunks|
    && (forall c | 0 <= c < |chunks| ::
          && chunks[c].prev == s.chunks[c].prev
          && chunks[c].status == (if s.chunks[c].status.Linked? && s.chunks[c].status.pos < n then s.chunks[c].status else Freed))
  }

  /** Giving back position `n` leaves the positions before it. */
  lemma ClearOne(s: Arena, chunks: seq<Chunk>, n: nat)
    requires ListOk(s) && n < |s.chain| && Cleared(s, chunks, n + 1)
    ensures s.chain[n] < |chunks| && chunks[s.chain[n]].status.Linked? && Cleared(s, GivenBack(chunks, s.chain[n]), n)
  {
  }

  /** No allocation is under way: every one has returned or not begun. */
  predicate AllAtRest(s: Arena) { forall t | 0 <= t < |s.threads| :: s.threads[t].Idle? || s.threads[t].Returned? }

  /**
   `clear`, with no allocation under way: every chunk but the first is given back, none of them twice, and the
   allocator is as it was when it was made.
   */
  method Clear(s: Arena) returns (r: Arena)
    requires Inv(s) && AllAtRest(s)
    ensures Inv(r) && r.threads == seq(|s.threads|, _ => Idle)
    ensures r.chain == [s.chain[0]] && r.tail == r.reserve == s.chain[0] && r.used == r.chunkSize == s.chunkSize && r.blocks == []
    ensures |r.chunks| == |s.chunks| && r.chunks[r.tail].offs == HEADER
    ensures forall c | 0 <= c < |r.chunks| && c != r.tail :: r.chunks[c].status == Freed
  {
    var chunks := s.chunks;
    var tail: nat := s.tail;
    ghost var pos: nat := s.tailPos;
    NothingPrivate(s);
    TailReached(s);
    ReserveBehindTail(s);
    var twice := false;
    if chunks[s.reserve].prev == Some(tail) {
      ClearOne(s, chunks, s.tailPos + 1);
      twice := twice || chunks[s.reserve].status == Freed;
      chunks := GivenBack(chunks, s.reserve);
    }
    while chunks[tail].prev.Some?
      invariant pos < |s.chain| && tail == s.chain[pos] && tail < |chunks| == |s.chunks|
      invariant Cleared(s, chunks, pos + 1) && !twice
      invariant forall c | 0 <= c < |chunks| :: HEADER <= chunks[c].offs <= s.chunkSize
      decreases pos
    {
      PrevAt(s, pos);
      ClearOne(s, chunks, pos);
      var current := tail;
      tail := chunks[tail].prev.value;
      twice := twice || chunks[current].status == Freed;
      chunks := GivenBack(chunks, current);
      pos := pos - 1;
    }
    PrevAt(s, pos);
    chunks := chunks[tail := chunks[tail].(offs := HEADER)];
    r := Arena(s.chunkSize, s.chunkSize, tail, tail, chunks, seq(|s.threads|, _ => Idle), [tail], 0, [], twice);
    ClearedInv(s, r);
  }

  lemma NothingPrivate(s: Arena)
    requires Inv(s) && AllAtRest(s)
    ensures Cleared(s, s.chunks, |s.chain|) && OffsetsOk(s) && ListOk(s)
  {
    hide BlocksOk, ThreadOk, LinksOk;
  }

  lemma ReserveBehindTail(s: Arena)
    requires Inv(s)
    ensures s.reserve < |s.chunks| && (s.chunks[s.reserve].prev == Some(s.tail) <==> s.tailPos + 2 == |s.chain|)
    ensures s.tailPos + 2 == |s.chain| ==> s.chain[s.tailPos + 1] == s.reserve
  {
    hide BlocksOk, ThreadOk, OwnersOk, OffsetsOk;
    assert PrevOk(s, s.reserve);
    TailReached(s);
    if s.tailPos + 1 == |s.chain| && s.tailPos > 0 { assert s.chunks[s.chain[s.tailPos - 1]].status == Linked(s.tailPos - 1); }
  }

  lemma PrevAt(s: Arena, n: nat)
    requires Inv(s) && n < |s.chain|
    ensures s.chain[n] < |s.chunks| && s.chunks[s.chain[n]].prev == (if n == 0 then None else Some(s.chain[n - 1]))
  {
    hide BlocksOk, ThreadOk, OwnersOk, OffsetsOk;
    assert PrevOk(s, s.chain[n]);
  }

  lemma ClearedInv(s: Arena, r: Arena)
    requires Inv(s) && (forall t | 0 <= t < |r.threads| :: r.threads[t].Idle?) && r.chunkSize == s.chunkSize
    requires r.chain == [s.chain[0]] && r.tail == r.reserve == s.chain[0] && r.tailPos == 0 && r.blocks == [] && !r.wrongFree
    requires Cleared(s, r.chunks, 1) && forall c | 0 <= c < |r.chunks| :: HEADER <= r.chunks[c].offs <= s.chunkSize
    ensures Inv(r)
    ensures forall c | 0 <= c < |r.chunks| && c != r.tail :: r.chunks[c].status == Freed
  {
    PrevAt(s, 0);
    assert ListOk(r) && OffsetsOk(r) && OwnersOk(r) && BlocksOk(r);
    forall c | 0 <= c < |r.chunks| && r.chunks[c].status.Linked? ensures PrevOk(r, c) { assert PrevOk(s, c); }
  }

  /**
   Clearing after any run, once its allocations have returned: one empty chunk is left, no chunk was freed twice on the
   way, and every further run keeps the invariant again.
   */
  method ClearAfterRun(chunkSize: Size, threads: nat, actions: seq<Action>) returns (r: Arena)
    requires HEADER <= chunkSize && AllAtRest(RunFromStart(chunkSize, threads, actions))
    ensures r.blocks == [] && |r.chain| == 1 && r.tail == r.reserve == r.chain[0] && r.used == r.chunkSize
    ensures r.tail < |r.chunks| && r.chunks[r.tail].offs == HEADER && !r.wrongFree
    ensures forall c | 0 <= c < |r.chunks| && c != r.tail :: r.chunks[c].status == Freed
    ensures forall more: seq<Action> :: Inv(Run(r, more))
  {
    RunInv(chunkSize, threads, actions);
    r := Clear(RunFromStart(chunkSize, threads, actions));
    forall more: seq<Action> ensures Inv(Run(r, more)) { RunKeeps(r, more); }
  }
}

/** What every interleaving of allocations keeps. */
module LinearAllocatorInvariant {
  import opened Bytes
  import opened LinearAllocator

  /** The list: linked chunks are exactly the chain; the reserve is its end, the tail at most one before. */
  predicate ListOk(s: Arena) {
    && s.tailPos < |s.chain| <= s.tailPos + 2
    && (forall i | 0 <= i < |s.chain| ::
          s.chain[i] < |s.chunks| && s.chunks[s.chain[i]].status == Linked(i))
    && (forall c | 0 <= c < |s.chunks| && s.chunks[c].status.Linked? ::
          s.chunks[c].status.pos < |s.chain| && s.chain[s.chunks[c].status.pos] == c)
    && s.tail == s.chain[s.tailPos]
    && s.reserve == s.chain[|s.chain| - 1]
  }

  /** A linked chunk points back to the one before it. */
  predicate PrevOk(s: Arena, c: nat)
    requires c < |s.chunks| && s.chunks[c].status.Linked?
  {
    var i := s.chunks[c].status.pos;
    s.chunks[c].prev == (if i == 0 || i > |s.chain| then None else Some(s.chain[i - 1]))
  }

  predicate LinksOk(s: Arena) {
    forall c {:trigger PrevOk(s, c)} | 0 <= c < |s.chunks| && s.chunks[c].status.Linked? :: PrevOk(s, c)
  }

  predicate OffsetsOk(s: Arena) {
    HEADER <= s.chunkSize && forall c | 0 <= c < |s.chunks| :: HEADER <= s.chunks[c].offs <= s.chunkSize
  }

  /** `c` is linked no later than the tail. */
  predicate Reached(s: Arena, c: nat) {
    c < |s.chunks| && s.chunks[c].status.Linked? && s.chunks[c].status.pos <= s.tailPos
  }

  predicate Making(p: Alloc) { p.LinkingReserve? || p.NextLinking? }

  predicate ThreadOk(s: Arena, t: nat)
    requires t < |s.threads|
  {
    var p := s.threads[t];
    && (p.Idle? || p.Loading? || p.Returned? || Reached(s, p.chunk))
    && (p.Bumping? ==> HEADER <= p.offs && p.offs + p.size <= s.chunkSize)
    && (Making(p) ==> p.made < |s.chunks| && s.chunks[p.made].status == Private(t) && s.chunks[p.made].prev == Some(p.chunk))
    && (p.Switching? ==>
          && p.next < |s.chunks| && s.chunks[p.next].status.Linked?
          && s.chunks[p.next].status.pos > s.chunks[p.chunk].status.pos)
    && (p.Reserving? || p.LinkingReserve? ==> p.block in s.blocks)
    && (p.Returned? && p.result.Some? ==> p.result.value in s.blocks)
  }

  /** A private chunk belongs to the thread that is about to link it. */
  predicate OwnersOk(s: Arena) {
    forall c | 0 <= c < |s.chunks| && s.chunks[c].status.Private? ::
      var t := s.chunks[c].status.t;
      t < |s.threads| && Making(s.threads[t]) && s.threads[t].made == c
  }

  predicate Inside(s: Arena, b: Block) {
    b.chunk < |s.chunks| && s.chunks[b.chunk].status.Linked? && HEADER <= b.start && b.start + b.size <= s.chunks[b.chunk].offs
  }

  predicate Disjoint(a: Block, b: Block) {
    a.chunk != b.chunk || a.start + a.size <= b.start || b.start + b.size <= a.start
  }

  predicate BlocksOk(s: Arena) {
    && (forall i | 0 <= i < |s.blocks| :: Inside(s, s.blocks[i]))
    && (forall i, j | 0 <= i < j < |s.blocks| :: Disjoint(s.blocks[i], s.blocks[j]))
  }

  predicate Inv(s: Arena) {
    && ListOk(s) && LinksOk(s) && OffsetsOk(s) && OwnersOk(s) && BlocksOk(s) && !s.wrongFree
    && (forall t | 0 <= t < |s.threads| :: ThreadOk(s, t))
  }

  lemma InvInitial(chunkSize: Size, threads: nat)
    requires HEADER <= chunkSize
    ensures Inv(Initial(chunkSize, threads))
  {
  }

  /** What a step may do to the chunks as far as the other threads are concerned. */
  predicate Onward(s: Arena, s': Arena, t: nat) {
    && |s'.chunks| >= |s.chunks| && s'.tailPos >= s.tailPos && s'.chunkSize == s.chunkSize && s.blocks <= s'.blocks
    && (forall c | 0 <= c < |s.chunks| ::
          && s'.chunks[c].prev == s.chunks[c].prev
          && (s.chunks[c].status == s'.chunks[c].status || s.chunks[c].status == Private(t)))
  }

  lemma OthersOk(s: Arena, s': Arena, t: nat, u: nat)
    requires u < |s.threads| == |s'.threads| && u != t && s'.threads[u] == s.threads[u]
    requires ThreadOk(s, u) && Onward(s, s', t)
    ensures ThreadOk(s', u)
  {
  }

  lemma Reassemble(s: Arena, s': Arena, t: nat)
    requires Inv(s) && t < |s.threads| == |s'.threads| && s'.threads == s.threads[t := s'.threads[t]]
    requires Onward(s, s', t) && ThreadOk(s', t)
    requires ListOk(s') && LinksOk(s') && OffsetsOk(s') && OwnersOk(s') && BlocksOk(s') && !s'.wrongFree
    ensures Inv(s')
  {
    forall u | 0 <= u < |s'.threads| ensures ThreadOk(s', u) { if u != t { OthersOk(s, s', t, u); } }
    hide ListOk, LinksOk, OffsetsOk, OwnersOk, BlocksOk, Onward, ThreadOk;
  }

  /** The same links, perhaps with further chunks that are not linked. */
  lemma ListSame(s: Arena, s': Arena)
    requires ListOk(s) && LinksOk(s) && |s.chunks| <= |s'.chunks|
    requires s'.chain == s.chain && s'.tailPos == s.tailPos && s'.tail == s.tail && s'.reserve == s.reserve
    requires forall c | 0 <= c < |s.chunks| :: s'.chunks[c].status == s.chunks[c].status && s'.chunks[c].prev == s.chunks[c].prev
    requires forall c | |s.chunks| <= c < |s'.chunks| :: !s'.chunks[c].status.Linked?
    ensures ListOk(s') && LinksOk(s')
  {
    forall c | 0 <= c < |s'.chunks| && s'.chunks[c].status.Linked? ensures PrevOk(s', c) { assert PrevOk(s, c); }
  }

  /** Blocks stay where they are while linked chunks stay linked and offsets only grow. */
  lemma BlocksSame(s: Arena, s': Arena)
    requires BlocksOk(s) && s'.blocks == s.blocks && |s.chunks| <= |s'.chunks|
    requires forall c | 0 <= c < |s.chunks| && s.chunks[c].status.Linked? :: s'.chunks[c].status.Linked? && s.chunks[c].offs <= s'.chunks[c].offs
    ensures BlocksOk(s')
  {
    forall i | 0 <= i < |s'.blocks| ensures Inside(s', s'.blocks[i]) { assert Inside(s, s.blocks[i]); }
    hide Disjoint;
  }

  lemma OwnersSame(s: Arena, s': Arena, t: nat)
    requires OwnersOk(s) && s'.chunks == s.chunks && t < |s.threads| == |s'.threads| && s'.threads == s.threads[t := s'.threads[t]]
    requires !Making(s.threads[t])
    ensures OwnersOk(s')
  {
  }

  /** A step that touches no chunk. */
  lemma LocalKeeps(s: Arena, s': Arena, t: nat)
    requires Inv(s) && t < |s.threads| == |s'.threads| && s'.threads == s.threads[t := s'.threads[t]]
    requires s' == s.(threads := s'.threads, used := s'.used)
    requires !Making(s.threads[t]) && !Making(s'.threads[t]) && ThreadOk(s', t)
    ensures Inv(s')
  {
    hide ListOk, LinksOk, OwnersOk, BlocksOk, ThreadOk;
    ListSame(s, s');
    BlocksSame(s, s');
    OwnersSame(s, s', t);
    Reassemble(s, s', t);
  }

  lemma TailReached(s: Arena)
    requires ListOk(s)
    ensures Reached(s, s.tail) && s.chunks[s.tail].status == Linked(s.tailPos)
  {
  }

  lemma ReadKeeps(s: Arena, a: Action)
    requires Inv(s) && (a.Begin? || a.LoadTail? || a.ReadOffset?)
    ensures Inv(Step(s, a))
  {
    var s' := Step(s, a);
    if a.t < |s.threads| {
      var p := s.threads[a.t];
      assert ThreadOk(s, a.t);
      TailReached(s);
      if (a.Begin? && (p.Idle? || p.Returned?)) || (a.LoadTail? && p.Loading?) || (a.ReadOffset? && p.Reading?) {
        assert ThreadOk(s', a.t);
        hide ThreadOk, Inv;
        LocalKeeps(s, s', a.t);
      }
    }
  }

  /** The reserve is the end of the list: any other reached chunk is before it. */
  lemma BeforeReserve(s: Arena, c: nat)
    requires ListOk(s) && Reached(s, c)
    ensures s.reserve < |s.chunks| && s.chunks[s.reserve].status == Linked(|s.chain| - 1)
    ensures c == s.reserve <==> s.chunks[c].status.pos == |s.chain| - 1
    ensures c == s.reserve ==> s.tail == c
  {
  }

  lemma ReserveKeeps(s: Arena, a: Action)
    requires Inv(s) && (a.ReadReserve? || a.Account?)
    ensures Inv(Step(s, a))
  {
    var s' := Step(s, a);
    if a.t < |s.threads| {
      var p := s.threads[a.t];
      assert ThreadOk(s, a.t);
      if (a.ReadReserve? && p.NextReading?) || (a.Account? && p.Accounting?) {
        BeforeReserve(s, p.chunk);
        assert ThreadOk(s', a.t);
        hide ThreadOk, Inv;
        LocalKeeps(s, s', a.t);
      }
    }
  }

  // ------------------------------------------------------------------ bumping and making chunks

  lemma BumpedBlocks(s: Arena, s': Arena, c: nat, size: nat)
    requires BlocksOk(s) && c < |s.chunks| == |s'.chunks| && s.chunks[c].status.Linked? && HEADER <= s.chunks[c].offs
    requires s'.chunks == s.chunks[c := s.chunks[c].(offs := s.chunks[c].offs + size)]
    requires s'.blocks == s.blocks + [Block(c, s.chunks[c].offs, size)]
    ensures BlocksOk(s')
  {
    forall i | 0 <= i < |s'.blocks| ensures Inside(s', s'.blocks[i]) {
      if i < |s.blocks| { assert Inside(s, s.blocks[i]); }
    }
    forall i, j | 0 <= i < j < |s'.blocks| ensures Disjoint(s'.blocks[i], s'.blocks[j]) {
      if j == |s.blocks| { assert Inside(s, s.blocks[i]); } else { assert Disjoint(s.blocks[i], s.blocks[j]); }
    }
  }

  lemma BumpedThread(s: Arena, t: nat)
    requires t < |s.threads| && s.threads[t].Bumping? && s.threads[t].chunk < |s.chunks| && ThreadOk(s, t)
    requires s.chunks[s.threads[t].chunk].offs == s.threads[t].offs
    ensures ThreadOk(AfterBump(s, t, s.threads[t]), t) && !Making(AfterBump(s, t, s.threads[t]).threads[t])
  {
    var p := s.threads[t];
    var s' := AfterBump(s, t, p);
    assert s'.blocks[|s.blocks|] == Block(p.chunk, p.offs, p.size);
    hide StepsOverMiddle;
  }

  lemma BumpKeeps(s: Arena, t: nat)
    requires Inv(s) && t < |s.threads| && s.threads[t].Bumping? && s.threads[t].chunk < |s.chunks|
    ensures Inv(AfterBump(s, t, s.threads[t]))
  {
    var p := s.threads[t];
    var s' := AfterBump(s, t, p);
    assert ThreadOk(s, t);
    assert Reached(s, p.chunk) && HEADER <= p.offs && p.offs + p.size <= s.chunkSize;
    if s.chunks[p.chunk].offs != p.offs {
      assert ThreadOk(s', t);
      hide ThreadOk, Inv;
      LocalKeeps(s, s', t);
    } else {
      BumpedThread(s, t);
      hide ThreadOk, ListOk, LinksOk, BlocksOk, StepsOverMiddle;
      BumpedBlocks(s, s', p.chunk, p.size);
      ListSame(s, s');
      assert OffsetsOk(s') && OwnersOk(s') && Onward(s, s', t);
      hide OffsetsOk, OwnersOk, Onward;
      Reassemble(s, s', t);
    }
  }

  lemma MakeKeeps(s: Arena, s': Arena, t: nat, prev: nat)
    requires Inv(s) && t < |s.threads| == |s'.threads| && !Making(s.threads[t]) && Reached(s, prev)
    requires s' == Moved(WithChunk(s, t, prev), t, s'.threads[t])
    requires Making(s'.threads[t]) && s'.threads[t].made == |s.chunks| && s'.threads[t].chunk == prev
    requires s'.threads[t].LinkingReserve? ==> s'.threads[t].block in s.blocks
    ensures Inv(s')
  {
    assert ThreadOk(s', t);
    hide ThreadOk, ListOk, LinksOk, BlocksOk, Reached;
    ListSame(s, s');
    BlocksSame(s, s');
    assert OffsetsOk(s') && OwnersOk(s') && Onward(s, s', t);
    hide OffsetsOk, OwnersOk, Onward;
    Reassemble(s, s', t);
  }

  // ------------------------------------------------------------------ linking chunks

  lemma LinkedList(s: Arena, made: nat)
    requires ListOk(s) && made < |s.chunks| && s.chunks[made].status.Private? && s.tailPos + 1 == |s.chain|
    ensures ListOk(LinkedChunk(s, made))
  {
    forall i | 0 <= i < |s.chain| ensures s.chain[i] != made { assert s.chunks[s.chain[i]].status.Linked?; }
  }

  lemma LinkedLinks(s: Arena, made: nat)
    requires ListOk(s) && LinksOk(s) && made < |s.chunks| && s.chunks[made].prev == Some(s.reserve)
    ensures LinksOk(LinkedChunk(s, made))
  {
    var s' := LinkedChunk(s, made);
    forall c | 0 <= c < |s'.chunks| && s'.chunks[c].status.Linked? ensures PrevOk(s', c) {
      if c != made { assert PrevOk(s, c); }
    }
  }

  lemma LinkedOk(s: Arena, t: nat)
    requires Inv(s) && t < |s.threads| && Making(s.threads[t]) && s.reserve == s.threads[t].chunk && s.threads[t].made < |s.chunks|
    ensures var s' := LinkedChunk(s, s.threads[t].made); ListOk(s') && LinksOk(s') && OffsetsOk(s') && BlocksOk(s')
    ensures s.tailPos + 1 == |s.chain|
  {
    var p := s.threads[t];
    assert ThreadOk(s, t);
    BeforeReserve(s, p.chunk);
    assert s.chunks[p.made].status.Private? && s.chunks[p.made].prev == Some(s.reserve) && s.tailPos + 1 == |s.chain|;
    hide ListOk, LinksOk, BlocksOk, ThreadOk, OwnersOk;
    LinkedList(s, p.made);
    LinkedLinks(s, p.made);
    BlocksSame(s, LinkedChunk(s, p.made));
  }

  /** The thread that links or frees its chunk owns nothing else. */
  lemma ReleasedOwners(s: Arena, s': Arena, t: nat)
    requires OwnersOk(s) && t < |s.threads| == |s'.threads| && Making(s.threads[t]) && s.threads[t].made < |s.chunks| == |s'.chunks|
    requires s'.threads == s.threads[t := s'.threads[t]]
    requires s'.chunks == s.chunks[s.threads[t].made := s'.chunks[s.threads[t].made]] && !s'.chunks[s.threads[t].made].status.Private?
    ensures OwnersOk(s')
  {
  }

  lemma LinkKeeps(s: Arena, s': Arena, t: nat)
    requires Inv(s) && t < |s.threads| == |s'.threads| && Making(s.threads[t]) && s.reserve == s.threads[t].chunk && s.threads[t].made < |s.chunks|
    requires s' == Moved(LinkedChunk(s, s.threads[t].made), t, s'.threads[t])
    requires var p := s.threads[t]; var q := s'.threads[t];
      || (q.Returned? && q.result.Some? && q.result.value in s.blocks)
      || (q.Switching? && q.chunk == p.chunk && q.next == p.made)
    ensures Inv(s')
  {
    var p, q := s.threads[t], s'.threads[t];
    assert ThreadOk(s, t);
    LinkedOk(s, t);
    BeforeReserve(s, p.chunk);
    ReleasedOwners(s, s', t);
    var s1 := LinkedChunk(s, p.made);
    assert ThreadOk(s', t) && Onward(s, s', t) by { hide ListOk, LinksOk, BlocksOk, OffsetsOk, OwnersOk; }
    ListSame(s1, s');
    BlocksSame(s1, s');
    assert OffsetsOk(s') by { hide ListOk, LinksOk, BlocksOk, OwnersOk, ThreadOk; }
    hide ListOk, LinksOk, OffsetsOk, OwnersOk, BlocksOk, ThreadOk, Onward, Reached;
    Reassemble(s, s', t);
  }

  lemma FreeKeeps(s: Arena, s': Arena, t: nat)
    requires Inv(s) && t < |s.threads| == |s'.threads| && Making(s.threads[t]) && s.reserve != s.threads[t].chunk && s.threads[t].made < |s.chunks|
    requires s' == Moved(FreedChunk(s, t, s.threads[t].made), t, s'.threads[t])
    requires var p := s.threads[t]; var q := s'.threads[t];
      || (q.Returned? && q.result.Some? && q.result.value in s.blocks)
      || (q.Switching? && q.chunk == p.chunk && q.next == s.reserve)
    ensures Inv(s')
  {
    var p, q := s.threads[t], s'.threads[t];
    assert ThreadOk(s, t);
    BeforeReserve(s, p.chunk);
    ReleasedOwners(s, s', t);
    assert ThreadOk(s', t) && Onward(s, s', t) by { hide ListOk, LinksOk, BlocksOk, OffsetsOk, OwnersOk; }
    FreedList(s, s', p.made);
    assert !s'.wrongFree;
    hide ListOk, LinksOk, OffsetsOk, OwnersOk, BlocksOk, ThreadOk, Onward, Reached;
    Reassemble(s, s', t);
  }

  lemma FreedList(s: Arena, s': Arena, c: nat)
    requires ListOk(s) && LinksOk(s) && OffsetsOk(s) && BlocksOk(s) && c < |s.chunks| && s.chunks[c].status.Private?
    requires s' == s.(chunks := s.chunks[c := s.chunks[c].(status := Freed)], threads := s'.threads, wrongFree := s'.wrongFree)
    ensures ListOk(s') && LinksOk(s') && OffsetsOk(s') && BlocksOk(s')
  {
    hide *;
    FreedOneList(s, s', c);
    FreedLinks(s, s', c);
    FreedBlocks(s, s', c);
  }

  lemma FreedOneList(s: Arena, s': Arena, c: nat)
    requires ListOk(s) && OffsetsOk(s) && c < |s.chunks| && s.chunks[c].status.Private?
    requires s' == s.(chunks := s.chunks[c := s.chunks[c].(status := Freed)], threads := s'.threads, wrongFree := s'.wrongFree)
    ensures ListOk(s') && OffsetsOk(s')
  {
    forall i | 0 <= i < |s.chain| ensures s.chain[i] != c { assert s.chunks[s.chain[i]].status.Linked?; }
  }

  lemma FreedLinks(s: Arena, s': Arena, c: nat)
    requires LinksOk(s) && c < |s.chunks| && s.chunks[c].status.Private?
    requires s' == s.(chunks := s.chunks[c := s.chunks[c].(status := Freed)], threads := s'.threads, wrongFree := s'.wrongFree)
    ensures LinksOk(s')
  {
    forall d | 0 <= d < |s'.chunks| && s'.chunks[d].status.Linked? ensures PrevOk(s', d) { assert PrevOk(s, d); }
  }

  lemma FreedBlocks(s: Arena, s': Arena, c: nat)
    requires BlocksOk(s) && c < |s.chunks| && s.chunks[c].status.Private?
    requires s' == s.(chunks := s.chunks[c := s.chunks[c].(status := Freed)], threads := s'.threads, wrongFree := s'.wrongFree)
    ensures BlocksOk(s')
  {
    BlocksSame(s, s');
  }

  // ------------------------------------------------------------------ switching the tail

  /** The next chunk of the tail is at the next position. */
  lemma NextOfTail(s: Arena, t: nat)
    requires Inv(s) && t < |s.threads| && s.threads[t].Switching? && s.tail == s.threads[t].chunk
    ensures s.threads[t].next < |s.chunks| && s.chunks[s.threads[t].next].status == Linked(s.tailPos + 1)
    ensures s.tailPos + 1 == |s.chain| - 1 && s.chain[s.tailPos + 1] == s.threads[t].next
  {
    assert ThreadOk(s, t);
    TailReached(s);
  }

  lemma SwitchedList(s: Arena, s': Arena)
    requires ListOk(s) && LinksOk(s) && s.tailPos + 1 == |s.chain| - 1
    requires s'.chain == s.chain && s'.chunks == s.chunks && s'.reserve == s.reserve && s'.tailPos == s.tailPos + 1 && s'.tail == s.chain[s'.tailPos]
    ensures ListOk(s') && LinksOk(s')
  {
    forall c | 0 <= c < |s'.chunks| && s'.chunks[c].status.Linked? ensures PrevOk(s', c) { assert PrevOk(s, c); }
  }

  lemma SwitchKeeps(s: Arena, t: nat)
    requires Inv(s) && t < |s.threads| && s.threads[t].Switching?
    ensures Inv(AfterSwitch(s, t, s.threads[t]))
  {
    var p := s.threads[t];
    var s' := AfterSwitch(s, t, p);
    TailReached(s);
    if s.tail == p.chunk {
      NextOfTail(s, t);
      assert ThreadOk(s', t);
      hide ListOk, LinksOk, OwnersOk, BlocksOk, ThreadOk, Reached;
      SwitchedList(s, s');
      OwnersSame(s, s', t);
      BlocksSame(s, s');
      Reassemble(s, s', t);
    } else {
      assert ThreadOk(s', t);
      hide ThreadOk, Inv, Reached;
      LocalKeeps(s, s', t);
    }
  }

  lemma MakeStep(s: Arena, a: Action)
    requires Inv(s) && (a.MakeReserve? || a.MakeNext?)
    ensures Inv(Step(s, a))
  {
    if a.t < |s.threads| {
      var p, s' := s.threads[a.t], Step(s, a);
      assert ThreadOk(s, a.t);
      if (a.MakeReserve? && p.Reserving?) || (a.MakeNext? && p.NextMaking?) {
        if a.granted {
          hide Inv, ThreadOk, Reached;
          MakeKeeps(s, s', a.t, p.chunk);
        } else {
          assert ThreadOk(s', a.t);
          hide Inv, ThreadOk, Reached;
          LocalKeeps(s, s', a.t);
        }
      }
    }
  }

  lemma LinkStep(s: Arena, a: Action)
    requires Inv(s) && (a.LinkReserve? || a.LinkNext?)
    ensures Inv(Step(s, a))
  {
    if a.t < |s.threads| {
      var p, s' := s.threads[a.t], Step(s, a);
      assert ThreadOk(s, a.t);
      if (a.LinkReserve? && p.LinkingReserve?) || (a.LinkNext? && p.NextLinking?) {
        hide Inv, ThreadOk, Reached;
        if s.reserve == p.chunk { LinkKeeps(s, s', a.t); } else { FreeKeeps(s, s', a.t); }
      }
    }
  }

  lemma StepKeeps(s: Arena, a: Action)
    requires Inv(s)
    ensures Inv(Step(s, a))
  {
    hide Inv, AfterBump, AfterSwitch, AfterLinkNext, AfterLinkReserve;
    if a.Begin? || a.LoadTail? || a.ReadOffset? {
      ReadKeeps(s, a);
    } else if a.ReadReserve? || a.Account? {
      ReserveKeeps(s, a);
    } else if a.MakeReserve? || a.MakeNext? {
      MakeStep(s, a);
    } else if a.LinkReserve? || a.LinkNext? {
      LinkStep(s, a);
    } else if a.t < |s.threads| {
      var p := s.threads[a.t];
      if a.Bump? && p.Bumping? && p.chunk < |s.chunks| { BumpKeeps(s, a.t); }
      if a.SwitchTail? && p.Switching? { SwitchKeeps(s, a.t); }
    }
  }

  lemma {:induction false} RunKeeps(s: Arena, actions: seq<Action>)
    requires Inv(s)
    ensures Inv(Run(s, actions))
    decreases |actions|
  {
    hide Inv, Step;
    if actions != [] {
      StepKeeps(s, actions[0]);
      RunKeeps(Step(s, actions[0]), actions[1..]);
    }
  }
}

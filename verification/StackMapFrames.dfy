/** What the rewritten stack map frames mean: where the new variable ends up, in every frame of a table. */
module StackMapFrames {
  import opened Bytes
  import opened StackMap

  // ------------------------------------------------------------------ the slot counter

  /** Shifts a position found further on. */
  function Later(r: Option<nat>, j: nat): Option<nat> {
    match r case None => None case Some(k) => Some(k + j)
  }

  /** Leading locals after which an 8-bit slot counter that stands at `count` reaches `newLocal`. */
  function ByteSplit(ls: seq<VType>, newLocal: byte, count: byte): (r: Option<nat>)
    ensures r.Some? ==> r.value <= |ls|
  {
    if count == newLocal then Some(0)
    else if count > newLocal || ls == [] then None
    else Later(ByteSplit(ls[1..], newLocal, U8(count + Slots(ls[0]))), 1)
  }

  /** A two-slot local lies across the boundary after `slots` slots. */
  predicate Straddles(ls: seq<VType>, slots: nat) {
    slots > 0 && ls != []
    && (Slots(ls[0]) > slots || Straddles(ls[1..], slots - Slots(ls[0])))
  }

  function TotalSlots(ls: seq<VType>): nat { if ls == [] then 0 else Slots(ls[0]) + TotalSlots(ls[1..]) }

  /** Some leading locals bring the counter from `count` to 255, perhaps after it wrapped. */
  predicate Reaches255(ls: seq<VType>, count: nat) { exists k :: 0 <= k <= |ls| && (count + TotalSlots(ls[..k])) % 256 == 255 }

  lemma CounterStep(ls: seq<VType>, newLocal: byte, count: byte)
    ensures ByteSplit(ls, newLocal, count) ==
      if count == newLocal then Some(0)
      else if count > newLocal || ls == [] then None
      else Later(ByteSplit(ls[1..], newLocal, U8(count + Slots(ls[0]))), 1)
  {
  }

  lemma SplitStep(ls: seq<VType>, slots: nat)
    ensures Split(ls, slots) ==
      if slots == 0 then Some(0)
      else if ls == [] || Slots(ls[0]) > slots then None
      else Later(Split(ls[1..], slots - Slots(ls[0])), 1)
  {
  }

  lemma StraddlesStep(ls: seq<VType>, slots: nat)
    ensures Straddles(ls, slots) <==> slots > 0 && ls != [] && (Slots(ls[0]) > slots || Straddles(ls[1..], slots - Slots(ls[0])))
  {
  }

  lemma {:induction false} StraddlesNoSplit(ls: seq<VType>, slots: nat)
    requires Straddles(ls, slots)
    ensures Split(ls, slots).None?
  {
    hide Straddles, Split;
    StraddlesStep(ls, slots);
    SplitStep(ls, slots);
    if Slots(ls[0]) <= slots { StraddlesNoSplit(ls[1..], slots - Slots(ls[0])); }
  }

  lemma {:induction false} CounterAgrees(ls: seq<VType>, newLocal: byte, count: byte)
    requires count <= newLocal && (newLocal == 255 ==> !Straddles(ls, 255 - count))
    ensures ByteSplit(ls, newLocal, count) == Split(ls, newLocal - count)
    decreases |ls|
  {
    hide Straddles, Split, ByteSplit;
    StraddlesStep(ls, newLocal - count);
    SplitStep(ls, newLocal - count);
    CounterStep(ls, newLocal, count);
    if count < newLocal && ls != [] {
      var after := count + Slots(ls[0]);
      if after <= newLocal { CounterAgrees(ls[1..], newLocal, after); } else { CounterStep(ls[1..], newLocal, U8(after)); }
    }
  }

  lemma ReachesOn(ls: seq<VType>, count: nat)
    requires ls != [] && count < 255
    ensures Reaches255(ls, count) <==> Reaches255(ls[1..], U8(count + Slots(ls[0])))
  {
    hide TotalSlots, Slots;
    var s := Slots(ls[0]);
    forall k | 0 <= k < |ls| ensures TotalSlots(ls[..k + 1]) == s + TotalSlots(ls[1..][..k]) {
      assert ls[..k + 1][1..] == ls[1..][..k];
      TotalStep(ls[..k + 1]);
    }
    TotalStep(ls[..0]);
    if Reaches255(ls, count) {
      var k :| 0 <= k <= |ls| && (count + TotalSlots(ls[..k])) % 256 == 255;
      assert k > 0;
      assert (U8(count + s) + TotalSlots(ls[1..][..k - 1])) % 256 == 255;
    }
    if Reaches255(ls[1..], U8(count + s)) {
      var k :| 0 <= k <= |ls[1..]| && (U8(count + s) + TotalSlots(ls[1..][..k])) % 256 == 255;
      assert (count + TotalSlots(ls[..k + 1])) % 256 == 255;
    }
  }

  lemma TotalStep(ls: seq<VType>)
    ensures TotalSlots(ls) == if ls == [] then 0 else Slots(ls[0]) + TotalSlots(ls[1..])
  {
  }

  lemma {:induction false} CounterReaches(ls: seq<VType>, count: byte)
    ensures ByteSplit(ls, 255, count).Some? <==> Reaches255(ls, count)
    decreases |ls|
  {
    hide ByteSplit, TotalSlots;
    CounterStep(ls, 255, count);
    TotalStep(ls[..0]);
    if count < 255 && ls != [] {
      hide Reaches255;
      ReachesOn(ls, count);
      CounterReaches(ls[1..], U8(count + Slots(ls[0])));
    }
  }

  /**
   The 8-bit counter finds the boundary after the parameters exactly if it does not wrap there and come round to 255:
   a two-slot local would have to lie across slot 255, and further locals to end a multiple of 256 slots behind it.
   */
  lemma CounterExact(ls: seq<VType>, newLocal: byte)
    ensures ByteSplit(ls, newLocal, 0) == Split(ls, newLocal) <==> !(newLocal == 255 && Straddles(ls, 255) && Reaches255(ls, 0))
  {
    hide ByteSplit, Split, Straddles, Reaches255;
    if newLocal == 255 && Straddles(ls, 255) {
      StraddlesNoSplit(ls, 255);
      CounterReaches(ls, 0);
    } else {
      CounterAgrees(ls, newLocal, 0);
    }
  }

  /** Where there is a boundary, the counter finds it. */
  lemma BoundaryCounted(ls: seq<VType>, newLocal: byte)
    requires Split(ls, newLocal).Some?
    ensures ByteSplit(ls, newLocal, 0) == Split(ls, newLocal)
  {
    hide ByteSplit, Split, Straddles;
    if newLocal == 255 && Straddles(ls, 255) { StraddlesNoSplit(ls, 255); }
    CounterAgrees(ls, newLocal, 0);
  }

  function Ints(n: nat): seq<VType> { if n == 0 then [] else [Simple(1)] + Ints(n - 1) }

  lemma {:induction false} IntsCounted(n: nat, rest: seq<VType>, newLocal: byte, count: byte)
    requires count + n <= newLocal
    ensures ByteSplit(Ints(n) + rest, newLocal, count) == Later(ByteSplit(rest, newLocal, count + n), n)
    ensures Split(Ints(n) + rest, newLocal - count) == Later(Split(rest, newLocal - count - n), n)
    decreases n
  {
    hide ByteSplit, Split;
    var all := Ints(n) + rest;
    if n == 0 {
      assert all == rest;
    } else {
      var more := Ints(n - 1) + rest;
      assert all == [Simple(1)] + more;
      IntsCounted(n - 1, rest, newLocal, count + 1);
      IntCounted(more, newLocal, count);
    }
  }

  lemma IntCounted(rest: seq<VType>, newLocal: byte, count: byte)
    requires count < newLocal
    ensures ByteSplit([Simple(1)] + rest, newLocal, count) == Later(ByteSplit(rest, newLocal, count + 1), 1)
    ensures Split([Simple(1)] + rest, newLocal - count) == Later(Split(rest, newLocal - count - 1), 1)
  {
    hide ByteSplit, Split;
    CounterStep([Simple(1)] + rest, newLocal, count);
    SplitStep([Simple(1)] + rest, newLocal - count);
    assert ([Simple(1)] + rest)[1..] == rest;
  }

  /** A frame for which it wraps: the new variable goes behind local 510 instead of slot 255, where there is no boundary. */
  lemma CounterWraps()
    ensures var ls := Ints(254) + ([Simple(ITEM_LONG)] + (Ints(255) + []));
            Split(ls, 255).None? && ByteSplit(ls, 255, 0) == Some(510)
  {
    hide Ints, ByteSplit, Split;
    var tail: seq<VType> := Ints(255) + [];
    var rest := [Simple(ITEM_LONG)] + tail;
    IntsCounted(254, rest, 255, 0);
    CounterStep(rest, 255, 254);
    SplitStep(rest, 1);
    assert rest[1..] == tail && rest[0] == Simple(ITEM_LONG);
    IntsCounted(255, [], 255, 0);
    CounterStep([], 255, 255);
  }

  // ------------------------------------------------------------------ moving locals

  lemma {:induction false} SplitPrefix(ls: seq<VType>, more: seq<VType>, slots: nat)
    requires Split(ls, slots).Some?
    ensures Split(ls + more, slots) == Split(ls, slots)
  {
    if slots > 0 {
      assert (ls + more)[1..] == ls[1..] + more;
      SplitPrefix(ls[1..], more, slots - Slots(ls[0]));
    }
  }

  lemma {:induction false} SplitMoved(ls: seq<VType>, slots: nat, table: seq<u16>)
    ensures Split(MovedTypes(ls, table), slots) == Split(ls, slots)
  {
    hide Split;
    var m := MovedTypes(ls, table);
    SplitStep(ls, slots);
    SplitStep(m, slots);
    if slots > 0 && ls != [] {
      assert m[1..] == MovedTypes(ls[1..], table) && Slots(m[0]) == Slots(ls[0]);
      if Slots(ls[0]) <= slots { SplitMoved(ls[1..], slots - Slots(ls[0]), table); }
    }
  }

  /** Appending locals commutes with inserting the long. */
  lemma {:induction false} AppendMoved(ls: seq<VType>, all: seq<VType>, newLocal: byte, table: seq<u16>)
    requires |ls| <= |all| && all[..|ls|] == ls && Split(ls, newLocal).Some?
    ensures Split(all, newLocal) == Split(ls, newLocal)
    ensures WithLong(all, newLocal, table) == WithLong(ls, newLocal, table) + MovedTypes(all[|ls|..], table)
  {
    assert all == ls + all[|ls|..];
    SplitPrefix(ls, all[|ls|..], newLocal);
    hide Split, MovedType;
    var m, more, k := MovedTypes(ls, table), MovedTypes(all[|ls|..], table), Split(ls, newLocal).value;
    assert MovedTypes(all, table) == m + more;
    assert (m + more)[..k] == m[..k] && (m + more)[k..] == m[k..] + more;
  }

  /** So does chopping them, as long as the parameters stay. */
  lemma ChopMoved(all: seq<VType>, ls: seq<VType>, newLocal: byte, table: seq<u16>)
    requires |ls| <= |all| && all[..|ls|] == ls && Split(ls, newLocal).Some?
    ensures Split(all, newLocal) == Split(ls, newLocal) && |WithLong(all, newLocal, table)| == |all| + 1
    ensures WithLong(ls, newLocal, table) == WithLong(all, newLocal, table)[..|ls| + 1]
  {
    hide Split, MovedType;
    AppendMoved(ls, all, newLocal, table);
  }

  /**
   A chop that reaches into the parameters is not preserved: the rewritten frame drops the new
   variable instead of the last parameter to go.
   */
  lemma {:induction false} ChopIntoParameters(all: seq<VType>, ls: seq<VType>, newLocal: byte, table: seq<u16>)
    requires |ls| < |all| && all[..|ls|] == ls && Split(all, newLocal).Some? && |ls| < Split(all, newLocal).value
    ensures Split(ls, newLocal).None?
    ensures |WithLong(all, newLocal, table)| == |all| + 1
    ensures WithLong(all, newLocal, table)[..|ls| + 1] == MovedTypes(all, table)[..|ls| + 1]
  {
    if Split(ls, newLocal).Some? {
      assert all == ls + all[|ls|..];
      SplitPrefix(ls, all[|ls|..], newLocal);
    }
  }

  // ------------------------------------------------------------------ the frames of a table

  /** The locals before the next frame. */
  function OldLocals(fs: seq<Frame>, params: seq<VType>): seq<VType> { if fs == [] then params else fs[|fs| - 1].locals }

  /** The locals of the rewritten `f`, if those before it were `ls` and have become `now`. */
  function NextLocals(now: seq<VType>, ls: seq<VType>, f: Frame, newLocal: byte, table: seq<u16>): (r: seq<VType>)
    requires |now| == |ls| + 1
    ensures |r| == |f.locals| + 1
  {
    if f.full then
      var k := ByteSplit(f.locals, newLocal, 0);
      LongAt(f.locals, if k.Some? then k.value else 0, table)
    else if |f.locals| <= |ls| then now[..|f.locals| + 1]
    else now + MovedTypes(f.locals[|ls|..], table)
  }

  function NewLocals(fs: seq<Frame>, params: seq<VType>, newLocal: byte, table: seq<u16>): (r: seq<VType>)
    ensures |r| == |OldLocals(fs, params)| + 1
  {
    if fs == [] then params + [Simple(ITEM_LONG)]
    else
      var n := |fs| - 1;
      NextLocals(NewLocals(fs[..n], params, newLocal, table), OldLocals(fs[..n], params), fs[n], newLocal, table)
  }

  /** The rewritten `f`, with the given locals. */
  function FrameWith(f: Frame, locals: seq<VType>, table: seq<u16>): Frame
    requires 0 <= f.offset < |table|
  {
    Frame(f.offset + table[f.offset], locals, MovedTypes(f.stack, table), f.full)
  }

  /** The frames as they are rewritten, one by one. */
  function Rewritten(fs: seq<Frame>, params: seq<VType>, newLocal: byte, table: seq<u16>): (r: seq<Frame>)
    requires forall k | 0 <= k < |fs| :: 0 <= fs[k].offset < |table|
    ensures |r| == |fs|
  {
    if fs == [] then []
    else
      var n := |fs| - 1;
      Rewritten(fs[..n], params, newLocal, table) + [FrameWith(fs[n], NewLocals(fs, params, newLocal, table), table)]
  }

  lemma RewrittenSnoc(fs: seq<Frame>, i: nat, params: seq<VType>, newLocal: byte, table: seq<u16>)
    requires i < |fs| && forall k | 0 <= k < |fs| :: 0 <= fs[k].offset < |table|
    ensures NewLocals(fs[..i + 1], params, newLocal, table)
              == NextLocals(NewLocals(fs[..i], params, newLocal, table), OldLocals(fs[..i], params), fs[i], newLocal, table)
    ensures Rewritten(fs[..i + 1], params, newLocal, table)
              == Rewritten(fs[..i], params, newLocal, table) + [FrameWith(fs[i], NewLocals(fs[..i + 1], params, newLocal, table), table)]
  {
    hide NextLocals, FrameWith, OldLocals;
    assert fs[..i + 1][..i] == fs[..i] && fs[..i + 1][i] == fs[i];
  }

  /** A frame that is not full keeps the locals before it, or some of them, or adds to them. */
  predicate Follows(ls: seq<VType>, f: Frame) {
    f.full || (if |f.locals| <= |ls| then ls[..|f.locals|] == f.locals else f.locals[..|ls|] == ls)
  }

  predicate Following(fs: seq<Frame>, params: seq<VType>) { forall k | 0 <= k < |fs| :: Follows(OldLocals(fs[..k], params), fs[k]) }

  /** Every frame keeps the parameters: its locals have a boundary where they end. */
  ghost predicate AllSplit(fs: seq<Frame>, newLocal: byte) {
    forall k | 0 <= k < |fs| :: Split(fs[k].locals, newLocal).Some?
  }

  ghost function MovedFrames(fs: seq<Frame>, newLocal: byte, table: seq<u16>): (r: seq<Frame>)
    requires AllSplit(fs, newLocal) && forall k | 0 <= k < |fs| :: 0 <= fs[k].offset < |table|
    ensures |r| == |fs|
  {
    seq(|fs|, k requires 0 <= k < |fs| => MovedFrame(fs[k], newLocal, table))
  }

  /** The new variable stands where the parameters end. */
  predicate HasLong(ls: seq<VType>, newLocal: byte) {
    var k := Split(ls, newLocal);
    k.Some? && k.value < |ls| && ls[k.value] == Simple(ITEM_LONG)
  }

  ghost predicate AllHaveLong(fs: seq<Frame>, newLocal: byte) { forall k | 0 <= k < |fs| :: HasLong(fs[k].locals, newLocal) }

  /** The frames of a table follow one another. */
  lemma {:induction false} FramesFollow(b: seq<byte>, c: Cursor, n: nat)
    requires ReadFrames(b, c, n).Some?
    ensures Following(ReadFrames(b, c, n).value.0, c.locals) && ReadFrames(b, c, n).value.1.locals == OldLocals(ReadFrames(b, c, n).value.0, c.locals)
    decreases n
  {
    hide ReadFrame, Follows;
    if n > 0 {
      var fs := ReadFrames(b, c, n).value.0;
      FramesPrefix(b, c, n - 1, n);
      FramesSnoc(b, c, n - 1);
      FramesFollow(b, c, n - 1);
      FrameFollows(b, ReadFrames(b, c, n - 1).value.1);
      var rest := fs[..n - 1];
      forall k | 0 <= k < n ensures Follows(OldLocals(fs[..k], c.locals), fs[k]) { if k < n - 1 { assert rest[..k] == fs[..k] && rest[k] == fs[k]; } }
    }
  }

  lemma FrameFollows(b: seq<byte>, c: Cursor)
    requires ReadFrame(b, c).Some?
    ensures Follows(c.locals, ReadFrame(b, c).value.0) && ReadFrame(b, c).value.1.locals == ReadFrame(b, c).value.0.locals
  {
    hide ReadType, ReadTypes, Get16;
  }

  // ------------------------------------------------------------------ a frame that keeps the parameters

  lemma NextKept(now: seq<VType>, ls: seq<VType>, f: Frame, newLocal: byte, table: seq<u16>)
    requires Follows(ls, f) && Split(ls, newLocal).Some? && Split(f.locals, newLocal).Some? && now == WithLong(ls, newLocal, table) && |now| == |ls| + 1
    ensures NextLocals(now, ls, f, newLocal, table) == WithLong(f.locals, newLocal, table)
  {
    hide Split, ByteSplit, MovedTypes;
    if f.full {
      BoundaryCounted(f.locals, newLocal);
    } else if |f.locals| <= |ls| {
      ChopMoved(ls, f.locals, newLocal, table);
    } else {
      AppendMoved(ls, f.locals, newLocal, table);
    }
  }

  lemma {:induction false} LongAtBoundary(ls: seq<VType>, newLocal: byte, table: seq<u16>)
    requires Split(ls, newLocal).Some?
    ensures HasLong(WithLong(ls, newLocal, table), newLocal)
  {
    hide MovedType, Split;
    var m, k := MovedTypes(ls, table), Split(ls, newLocal).value;
    SplitMoved(ls, newLocal, table);
    SplitTake(m, newLocal);
    SplitPrefix(m[..k], [Simple(ITEM_LONG)] + m[k..], newLocal);
    assert m[..k] + ([Simple(ITEM_LONG)] + m[k..]) == WithLong(ls, newLocal, table);
  }

  lemma {:induction false} SplitTake(ls: seq<VType>, slots: nat)
    requires Split(ls, slots).Some?
    ensures Split(ls[..Split(ls, slots).value], slots) == Split(ls, slots)
  {
    if slots > 0 {
      var k := Split(ls, slots).value;
      SplitTake(ls[1..], slots - Slots(ls[0]));
      assert ls[..k][1..] == ls[1..][..k - 1];
    }
  }

  // ------------------------------------------------------------------ a frame that does not

  lemma NextLost(now: seq<VType>, ls: seq<VType>, f: Frame, newLocal: byte, table: seq<u16>)
    requires Follows(ls, f) && Split(ls, newLocal).Some? && Split(f.locals, newLocal).None? && now == WithLong(ls, newLocal, table) && |now| == |ls| + 1
    requires f.full ==> ByteSplit(f.locals, newLocal, 0).Some?
    ensures !HasLong(NextLocals(now, ls, f, newLocal, table), newLocal)
  {
    hide Split, ByteSplit, MovedTypes, WithLong;
    if f.full {
      WrappedLost(f.locals, newLocal, 0, ByteSplit(f.locals, newLocal, 0).value, table);
    } else if |f.locals| <= |ls| {
      ChoppedLost(ls, f.locals, newLocal, table);
    } else {
      AppendMoved(ls, f.locals, newLocal, table);
    }
  }

  /** A counter that wrapped puts the variable behind the local that lies across the boundary, which stays as it was. */
  lemma {:induction false} WrappedLost(ls: seq<VType>, newLocal: byte, count: byte, k: nat, table: seq<u16>)
    requires count <= newLocal && Split(ls, newLocal - count).None? && ByteSplit(ls, newLocal, count) == Some(k)
    ensures Split(LongAt(ls, k, table), newLocal - count).None?
    decreases |ls|
  {
    hide Split, ByteSplit, LongAt;
    SplitStep(ls, newLocal - count);
    CounterStep(ls, newLocal, count);
    LongTail(ls, k, table);
    SplitStep(LongAt(ls, k, table), newLocal - count);
    if Slots(ls[0]) <= newLocal - count { WrappedLost(ls[1..], newLocal, count + Slots(ls[0]), k - 1, table); }
  }

  lemma LongTail(ls: seq<VType>, k: nat, table: seq<u16>)
    requires 0 < k <= |ls|
    ensures Slots(LongAt(ls, k, table)[0]) == Slots(ls[0]) && LongAt(ls, k, table)[1..] == LongAt(ls[1..], k - 1, table)
  {
    assert MovedTypes(ls, table)[1..] == MovedTypes(ls[1..], table);
  }

  lemma ChoppedLost(all: seq<VType>, ls: seq<VType>, newLocal: byte, table: seq<u16>)
    requires |ls| <= |all| && all[..|ls|] == ls && Split(all, newLocal).Some? && Split(ls, newLocal).None?
    ensures |WithLong(all, newLocal, table)| == |all| + 1 && !HasLong(WithLong(all, newLocal, table)[..|ls| + 1], newLocal)
  {
    hide Split, MovedType;
    var k, m := Split(all, newLocal).value, MovedTypes(all, table);
    if k <= |ls| {
      SplitTake(all, newLocal);
      assert ls == all[..k] + ls[k..];
      SplitPrefix(all[..k], ls[k..], newLocal);
      assert false;
    }
    ChopIntoParameters(all, ls, newLocal, table);
    var cut := m[..|ls| + 1];
    SplitMoved(all, newLocal, table);
    assert m == cut + m[|ls| + 1..];
    if Split(cut, newLocal).Some? { SplitPrefix(cut, m[|ls| + 1..], newLocal); }
  }

  // ------------------------------------------------------------------ all frames

  lemma {:induction false} LocalsKept(fs: seq<Frame>, params: seq<VType>, newLocal: byte, table: seq<u16>)
    requires Following(fs, params) && AllSplit(fs, newLocal) && ParamsEnd(params, newLocal)
    ensures Split(OldLocals(fs, params), newLocal).Some? && NewLocals(fs, params, newLocal, table) == WithLong(OldLocals(fs, params), newLocal, table)
  {
    hide Split, WithLong, NextLocals, Follows;
    if fs == [] {
      ParamsWithLong(params, newLocal, table);
    } else {
      var n := |fs| - 1;
      FollowingFirst(fs, params);
      LocalsKept(fs[..n], params, newLocal, table);
      NextKept(NewLocals(fs[..n], params, newLocal, table), OldLocals(fs[..n], params), fs[n], newLocal, table);
    }
  }

  /** The parameters fill the slots before the new variable, and none of them is an uninitialized object. */
  predicate ParamsEnd(params: seq<VType>, newLocal: byte) {
    Split(params, newLocal) == Some(|params|) && forall k | 0 <= k < |params| :: !params[k].Uninitialized?
  }

  lemma ParamsWithLong(params: seq<VType>, newLocal: byte, table: seq<u16>)
    requires ParamsEnd(params, newLocal)
    ensures Split(params, newLocal).Some? && WithLong(params, newLocal, table) == params + [Simple(ITEM_LONG)]
  {
    hide Split;
    assert MovedTypes(params, table) == params;
  }

  lemma FollowingFirst(fs: seq<Frame>, params: seq<VType>)
    requires Following(fs, params) && fs != []
    ensures Following(fs[..|fs| - 1], params) && Follows(OldLocals(fs[..|fs| - 1], params), fs[|fs| - 1])
  {
    hide Follows, OldLocals;
    var n := |fs| - 1;
    forall k | 0 <= k < n ensures Follows(OldLocals(fs[..n][..k], params), fs[..n][k]) { assert fs[..n][..k] == fs[..k]; }
  }

  /** Frames that keep the parameters are all rewritten as they should be. */
  lemma {:induction false} RewrittenMoves(fs: seq<Frame>, params: seq<VType>, newLocal: byte, table: seq<u16>)
    requires Following(fs, params) && AllSplit(fs, newLocal) && ParamsEnd(params, newLocal)
    requires forall k | 0 <= k < |fs| :: 0 <= fs[k].offset < |table|
    ensures Rewritten(fs, params, newLocal, table) == MovedFrames(fs, newLocal, table)
    ensures AllHaveLong(Rewritten(fs, params, newLocal, table), newLocal)
  {
    hide Split, WithLong, NewLocals, Rewritten, Following, HasLong, MovedTypes, ParamsEnd;
    if fs == [] {
      NoFrames(params, newLocal, table);
    } else {
      var n := |fs| - 1;
      assert fs[..n + 1] == fs;
      FollowingFirst(fs, params);
      RewrittenMoves(fs[..n], params, newLocal, table);
      RewrittenSnoc(fs, n, params, newLocal, table);
      LocalsKept(fs, params, newLocal, table);
      LongAtBoundary(fs[n].locals, newLocal, table);
      assert MovedFrames(fs, newLocal, table) == MovedFrames(fs[..n], newLocal, table) + [MovedFrame(fs[n], newLocal, table)];
    }
  }

  lemma NoFrames(params: seq<VType>, newLocal: byte, table: seq<u16>)
    ensures Rewritten([], params, newLocal, table) == []
  {
  }

  /** If every rewritten frame has the variable where the parameters end, every frame kept the parameters. */
  lemma {:induction false} LongNeedsParameters(fs: seq<Frame>, params: seq<VType>, newLocal: byte, table: seq<u16>)
    requires Following(fs, params) && ParamsEnd(params, newLocal)
    requires forall k | 0 <= k < |fs| :: 0 <= fs[k].offset < |table| && (fs[k].full ==> ByteSplit(fs[k].locals, newLocal, 0).Some?)
    requires AllHaveLong(Rewritten(fs, params, newLocal, table), newLocal)
    ensures AllSplit(fs, newLocal)
  {
    hide Split, NewLocals, Rewritten, Following, ParamsEnd, AllHaveLong, ByteSplit;
    if fs != [] {
      var n := |fs| - 1;
      FollowingFirst(fs, params);
      RewrittenLast(fs, params, newLocal, table);
      LongNeedsParameters(fs[..n], params, newLocal, table);
      LastKept(fs, params, newLocal, table);
      forall k | 0 <= k < |fs| ensures Split(fs[k].locals, newLocal).Some? { if k < n { assert fs[..n][k] == fs[k]; } }
    }
  }

  lemma RewrittenLast(fs: seq<Frame>, params: seq<VType>, newLocal: byte, table: seq<u16>)
    requires fs != [] && (forall k | 0 <= k < |fs| :: 0 <= fs[k].offset < |table|) && AllHaveLong(Rewritten(fs, params, newLocal, table), newLocal)
    ensures AllHaveLong(Rewritten(fs[..|fs| - 1], params, newLocal, table), newLocal) && HasLong(NewLocals(fs, params, newLocal, table), newLocal)
  {
    hide NewLocals, HasLong, MovedTypes;
    var n, r := |fs| - 1, Rewritten(fs, params, newLocal, table);
    assert HasLong(r[n].locals, newLocal);
    forall k | 0 <= k < n ensures HasLong(Rewritten(fs[..n], params, newLocal, table)[k].locals, newLocal) { assert HasLong(r[k].locals, newLocal); }
  }

  /** The last of several frames, of which the others keep the parameters. */
  lemma LastKept(fs: seq<Frame>, params: seq<VType>, newLocal: byte, table: seq<u16>)
    requires fs != [] && Following(fs, params) && ParamsEnd(params, newLocal) && AllSplit(fs[..|fs| - 1], newLocal)
    requires fs[|fs| - 1].full ==> ByteSplit(fs[|fs| - 1].locals, newLocal, 0).Some?
    requires HasLong(NewLocals(fs, params, newLocal, table), newLocal)
    ensures Split(fs[|fs| - 1].locals, newLocal).Some?
  {
    hide Split, WithLong, NextLocals, Follows, HasLong, Following, ParamsEnd, AllSplit, ByteSplit;
    var n := |fs| - 1;
    FollowingFirst(fs, params);
    LocalsKept(fs[..n], params, newLocal, table);
    if Split(fs[n].locals, newLocal).None? {
      NextLost(NewLocals(fs[..n], params, newLocal, table), OldLocals(fs[..n], params), fs[n], newLocal, table);
    }
  }
}

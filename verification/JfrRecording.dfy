/** The recording buffers: events are written in place and flushed before they could overflow. */
module JfrRecording {
  import opened Bytes
  import opened JfrFormat
  import opened JfrEvents
  import Leb128

  const RECORDING_CAPACITY := 65532
  const RECORDING_LIMIT := 61440
  const SMALL_CAPACITY := 1020
  const SMALL_LIMIT := 896

  predicate Monitored(t: EventType) { t.CpuLoad? || t.HeapSummary? }

  /** A buffer below its limit has room for one more event: any event in a recording buffer, monitoring events in the small one. */
  lemma LimitsLeaveRoom(t: EventType)
    ensures RECORDING_LIMIT - 1 + MaxEventSize(t) <= RECORDING_CAPACITY
    ensures Monitored(t) ==> SMALL_LIMIT - 1 + MaxEventSize(t) <= SMALL_CAPACITY
  {
    EventSizesBounded(t);
    hide MaxEventSize;
  }

  /** `k` bytes of `v0` are written behind `before`; `v` is what is left. */
  ghost predicate Writing(before: seq<byte>, now: seq<byte>, v0: u64, v: nat, k: nat) {
    LeftAfter(v, k) && now + Long(v, k) == before + EncodeLong(v0)
  }

  /** The last three bytes hold the last 21 bits. */
  predicate Low(v: nat, k: nat) { v < (if k <= 6 then 0x20_0000 else if k == 7 then 0x4000 else 128) }

  lemma MoreRoom(before: seq<byte>, now: seq<byte>, v0: u64, v: nat, k: nat, capacity: nat)
    requires Writing(before, now, v0, v, k) && |before| + |EncodeLong(v0)| <= capacity
    ensures |now| < capacity
  {
    assert |now + Long(v, k)| == |now| + |Long(v, k)| == |before| + |EncodeLong(v0)|;
    LongLength(v, k);
    hide Long, EncodeLong;
  }

  lemma LongStep(v: nat, k: nat)
    requires LeftAfter(v, k) && k < 8 && v >= 128
    ensures LeftAfter(v / 128, k + 1) && Long(v, k) == [v % 128 + 128] + Long(v / 128, k + 1)
  {
    RoomSteps(k);
  }

  lemma Wrote(before: seq<byte>, now: seq<byte>, v0: u64, v: nat, k: nat)
    requires Writing(before, now, v0, v, k) && k < 8 && v >= 128
    ensures Writing(before, now + [v % 128 + 128], v0, v / 128, k + 1)
  {
    LongStep(v, k);
    hide Long, LeftAfter, EncodeLong;
    assert now + [v % 128 + 128] + Long(v / 128, k + 1) == now + Long(v, k);
  }

  lemma WroteLast(before: seq<byte>, now: seq<byte>, v0: u64, v: nat)
    requires Writing(before, now, v0, v, 8) && v >= 128
    ensures now + [v % 128 + 128] == before + EncodeLong(v0)
  {
    hide EncodeLong;
  }

  /** The first `i` fields are written behind `before`. */
  ghost predicate ItemsWritten(before: seq<byte>, now: seq<byte>, xs: seq<Item>, i: nat) {
    i <= |xs| && now + EncodeItems(xs[i..]) == before + EncodeItems(xs)
  }

  lemma ItemsStart(before: seq<byte>, xs: seq<Item>)
    ensures ItemsWritten(before, before, xs, 0)
  {
    assert xs[0..] == xs;
  }

  lemma ItemsEnd(before: seq<byte>, now: seq<byte>, xs: seq<Item>)
    requires ItemsWritten(before, now, xs, |xs|)
    ensures now == before + EncodeItems(xs)
  {
    assert xs[|xs|..] == [];
    assert now + [] == now;
  }

  lemma ItemFits(xs: seq<Item>, i: nat)
    requires AllFit(xs) && i < |xs|
    ensures Fits(xs[i])
  {
  }

  lemma Following(xs: seq<Item>, i: nat)
    requires i < |xs|
    ensures EncodeItems(xs[i..]) == EncodeItem(xs[i]) + EncodeItems(xs[i + 1..])
  {
    assert xs[i..][1..] == xs[i + 1..];
    hide EncodeItem;
  }

  lemma NextItem(before: seq<byte>, now: seq<byte>, xs: seq<Item>, i: nat, capacity: nat)
    requires i < |xs| && ItemsWritten(before, now, xs, i) && |before| + |EncodeItems(xs)| <= capacity
    ensures |now| + |EncodeItem(xs[i])| <= capacity
  {
    Following(xs, i);
    hide EncodeItems, EncodeItem;
    assert |now + EncodeItems(xs[i..])| == |before + EncodeItems(xs)|;
  }

  lemma ItemDone(before: seq<byte>, now: seq<byte>, xs: seq<Item>, i: nat)
    requires i < |xs| && ItemsWritten(before, now, xs, i)
    ensures ItemsWritten(before, now + EncodeItem(xs[i]), xs, i + 1)
  {
    Following(xs, i);
    hide EncodeItems, EncodeItem;
    assert now + EncodeItem(xs[i]) + EncodeItems(xs[i + 1..]) == now + EncodeItems(xs[i..]);
  }

  lemma EventParts(e: Event)
    requires WellFormed(e)
    ensures |EncodeEvent(e)| == SizeBytes(e.kind) + |Body(e)| && AllFit(e.items) && Id(e.kind) < 0x1_0000_0000
    ensures |Body(e)| == |Leb128.EncodeUnsigned(Id(e.kind))| + |EncodeItems(e.items)|
  {
    TypeOfId(e.kind);
    hide SizeField, Leb128.EncodeUnsigned, EncodeItems, Id;
  }

  lemma BodyWritten(reserved: seq<byte>, e: Event)
    ensures reserved + Leb128.EncodeUnsigned(Id(e.kind)) + EncodeItems(e.items) == reserved + Body(e)
  {
    hide Leb128.EncodeUnsigned, EncodeItems, Id;
  }

  lemma SizeFilled(before: seq<byte>, reserved: seq<byte>, e: Event)
    requires |reserved| == |before| + SizeBytes(e.kind) && reserved[..|before|] == before
    ensures Splice(reserved + Body(e), |before|, SizeField(e.kind, SizeBytes(e.kind) + |Body(e)|)) == before + EncodeEvent(e)
  {
    hide SizeField, Body;
  }

  /** `i` bytes of `w` have replaced those at `start`. */
  ghost predicate Filled(was: seq<byte>, now: seq<byte>, start: nat, w: seq<byte>, i: nat) {
    i <= |w| && start + |w| <= |was| && now == Splice(was, start, w[..i])
  }

  lemma FillStart(was: seq<byte>, start: nat, w: seq<byte>)
    requires start + |w| <= |was|
    ensures Filled(was, was, start, w, 0)
  {
  }

  lemma FillOn(was: seq<byte>, now: seq<byte>, start: nat, w: seq<byte>, i: nat)
    requires Filled(was, now, start, w, i) && i < |w|
    ensures start + i < |now| && Filled(was, now[start + i := w[i]], start, w, i + 1)
  {
    assert w[..i + 1] == w[..i] + [w[i]];
  }

  lemma FillEnd(was: seq<byte>, now: seq<byte>, start: nat, w: seq<byte>)
    requires Filled(was, now, start, w, |w|)
    ensures now == Splice(was, start, w)
  {
    assert w[..|w|] == w;
  }

  lemma TextIs(before: seq<byte>, coding: byte, bytes: seq<byte>)
    ensures |EncodeItem(Text(coding, bytes))| == 1 + |Leb128.EncodeUnsigned(|bytes|)| + |bytes|
    ensures before + EncodeItem(Text(coding, bytes)) == before + [coding] + Leb128.EncodeUnsigned(|bytes|) + bytes
    ensures MAX_TEXT < 0x1_0000_0000
  {
    hide Leb128.EncodeUnsigned;
  }

  /** `all` holds exactly these events. */
  ghost predicate Holds(all: seq<byte>, es: seq<Event>) { (forall i | 0 <= i < |es| :: WellFormed(es[i])) && all == EncodeAll(es) }

  lemma HoldsMore(flushed: seq<byte>, kept: seq<byte>, es: seq<Event>, e: Event)
    requires Holds(flushed + kept, es) && WellFormed(e)
    ensures Holds(flushed + (kept + EncodeEvent(e)), es + [e]) && flushed + (kept + EncodeEvent(e)) == flushed + kept + EncodeEvent(e)
  {
    EncodeAppend(es, e);
    hide WellFormed, EncodeEvent, EncodeAll;
    assert flushed + (kept + EncodeEvent(e)) == flushed + kept + EncodeEvent(e);
  }

  lemma WritingStarts(before: seq<byte>, v0: u64)
    ensures Writing(before, before, v0, v0, 0)
  {
    RoomIs();
  }

  lemma WritingEnds(before: seq<byte>, now: seq<byte>, v0: u64, v: nat, k: nat)
    requires Writing(before, now, v0, v, k) && v < 128
    ensures now + [v] == before + EncodeLong(v0)
  {
    hide EncodeLong;
  }

  lemma ThreeMore(v: nat)
    requires v > 0x1f_ffff
    ensures v / 128 >= 128 && v / 128 / 128 >= 128
  {
  }

  class Buffer {
    const data: array<byte>
    const limit: nat
    var offset: nat
    /** What has been flushed. */
    var file: seq<byte>
    ghost var events: seq<Event>

    constructor (small: bool)
      ensures Valid() && fresh(data) && offset == 0 && file == [] && events == []
      ensures limit == (if small then SMALL_LIMIT else RECORDING_LIMIT) && data.Length == (if small then SMALL_CAPACITY else RECORDING_CAPACITY)
    {
      data := new byte[if small then SMALL_CAPACITY else RECORDING_CAPACITY];
      limit := if small then SMALL_LIMIT else RECORDING_LIMIT;
      offset := 0;
      file := [];
      events := [];
    }

    ghost function Contents(): (c: seq<byte>)
      requires offset <= data.Length
      reads this, data
      ensures |c| == offset
    {
      data[..offset]
    }

    /** File and buffer together hold exactly the events recorded so far. */
    ghost predicate Valid()
      reads this, data
    {
      && offset < limit <= data.Length
      && Holds(file + Contents(), events)
    }

    method Put8(b: byte)
      requires offset < data.Length
      modifies this`offset, data
      ensures offset <= data.Length && Contents() == old(Contents()) + [b]
    {
      data[offset] := b;
      offset := offset + 1;
    }

    method PutVar32(v0: u32)
      requires offset + |Leb128.EncodeUnsigned(v0)| <= data.Length
      modifies this`offset, data
      ensures offset <= data.Length && Contents() == old(Contents()) + Leb128.EncodeUnsigned(v0)
    {
      var v: nat := v0;
      while v > 127
        invariant offset + |Leb128.EncodeUnsigned(v)| <= data.Length
        invariant Contents() + Leb128.EncodeUnsigned(v) == old(Contents()) + Leb128.EncodeUnsigned(v0)
        decreases v
      {
        assert Leb128.EncodeUnsigned(v) == [v % 128 + 128] + Leb128.EncodeUnsigned(v / 128);
        Put8(v % 128 + 128);
        v := v / 128;
      }
      assert Leb128.EncodeUnsigned(v) == [v];
      Put8(v);
    }

    /** Seven bits with the continuation bit, which the ninth byte has by itself. */
    method PutMore(ghost before: seq<byte>, ghost v0: u64, v: nat, ghost k: nat) returns (rest: nat)
      requires offset <= data.Length && Writing(before, Contents(), v0, v, k) && v >= 128 && |before| + |EncodeLong(v0)| <= data.Length
      modifies this`offset, data
      ensures rest == v / 128 && offset <= data.Length
      ensures if k < 8 then Writing(before, Contents(), v0, rest, k + 1) else Contents() == before + EncodeLong(v0)
    {
      ghost var now := Contents();
      MoreRoom(before, now, v0, v, k, data.Length);
      Put8(v % 128 + 128);
      rest := v / 128;
      if k < 8 { Wrote(before, now, v0, v, k); } else { WroteLast(before, now, v0, v); }
      hide Writing, EncodeLong;
    }

    /** Three bytes a round; the third round ends with a full ninth byte. */
    method PutVar64(v0: u64)
      requires offset + |EncodeLong(v0)| <= data.Length
      modifies this`offset, data
      ensures offset <= data.Length && Contents() == old(Contents()) + EncodeLong(v0)
    {
      ghost var before := Contents();
      var v: nat := v0;
      var round: nat := 0;
      ghost var k: nat := 0;
      WritingStarts(before, v0);
      hide Writing, EncodeLong;
      while v > 0x1f_ffff
        invariant offset <= data.Length && round < 3 && k == 3 * round && Writing(before, Contents(), v0, v, k)
        decreases 3 - round
      {
        ThreeMore(v);
        v := PutMore(before, v0, v, k);
        v := PutMore(before, v0, v, k + 1);
        v := PutMore(before, v0, v, k + 2);
        round := round + 1;
        if round == 3 { return; }
        k := k + 3;
      }
      while v > 127
        invariant offset <= data.Length && Writing(before, Contents(), v0, v, k) && k <= 8 && Low(v, k)
        decreases v
      {
        v := PutMore(before, v0, v, k);
        k := k + 1;
      }
      WritingEnds(before, Contents(), v0, v, k);
      MoreRoom(before, Contents(), v0, v, k, data.Length);
      Put8(v);
    }

    method PutBytes(w: seq<byte>)
      requires offset + |w| <= data.Length
      modifies this`offset, data
      ensures offset <= data.Length && Contents() == old(Contents()) + w
    {
      for i := 0 to |w|
        invariant offset == old(offset) + i && Contents() == old(Contents()) + w[..i]
      {
        Put8(w[i]);
        assert w[..i + 1] == w[..i] + [w[i]];
      }
      assert w[..|w|] == w;
    }

    method PutItem(x: Item)
      requires Fits(x) && offset + |EncodeItem(x)| <= data.Length
      modifies this`offset, data
      ensures offset <= data.Length && Contents() == old(Contents()) + EncodeItem(x)
    {
      hide Leb128.EncodeUnsigned, EncodeLong, Put32, Contents;
      match x
      case Int8(b) => Put8(b);
      case Int32(n) => PutVar32(n);
      case Int64(w) => PutVar64(w);
      case Float(bits) => PutBytes(Put32(bits));
      case Text(coding, bytes) => PutText(coding, bytes);
      case NoText => Put8(0);
    }

    method PutText(coding: byte, bytes: seq<byte>)
      requires |bytes| <= MAX_TEXT && offset + |EncodeItem(Text(coding, bytes))| <= data.Length
      modifies this`offset, data
      ensures offset <= data.Length && Contents() == old(Contents()) + EncodeItem(Text(coding, bytes))
    {
      TextIs(Contents(), coding, bytes);
      hide *;
      Put8(coding);
      PutVar32(|bytes|);
      PutBytes(bytes);
    }

    method PutItems(xs: seq<Item>)
      requires AllFit(xs) && offset + |EncodeItems(xs)| <= data.Length
      modifies this`offset, data
      ensures offset <= data.Length && Contents() == old(Contents()) + EncodeItems(xs)
    {
      ghost var before := Contents();
      var i := 0;
      ItemsStart(before, xs);
      hide *;
      while i < |xs|
        invariant offset <= data.Length && 0 <= i <= |xs| && ItemsWritten(before, Contents(), xs, i)
      {
        ItemFits(xs, i);
        NextItem(before, Contents(), xs, i, data.Length);
        ghost var now := Contents();
        PutItem(xs[i]);
        ItemDone(before, now, xs, i);
        i := i + 1;
      }
      ItemsEnd(before, Contents(), xs);
    }

    /** The size goes into the bytes kept open for it at `start`. */
    method PutSize(start: nat, t: EventType)
      requires start + SizeBytes(t) <= offset <= data.Length
      modifies data
      ensures Contents() == Splice(old(Contents()), start, SizeField(t, offset - start))
    {
      hide *;
      var w := SizeField(t, offset - start);
      ghost var before := Contents();
      FillStart(before, start, w);
      for i := 0 to |w|
        invariant Filled(before, Contents(), start, w, i)
      {
        FillOn(before, Contents(), start, w, i);
        Poke(start + i, w[i]);
      }
      FillEnd(before, Contents(), start, w);
    }

    method Poke(p: nat, b: byte)
      requires p < offset <= data.Length
      modifies data
      ensures Contents() == old(Contents())[p := b]
    {
      data[p] := b;
    }

    method Flush()
      requires offset <= data.Length
      modifies this`offset, this`file
      ensures offset == 0 && file == old(file) + old(Contents())
    {
      file := file + data[..offset];
      offset := 0;
    }

    /** The bytes for the size stay as they are until the event is complete. */
    method Skip(n: nat)
      requires offset + n <= data.Length
      modifies this`offset
      ensures offset == old(offset) + n && Contents()[..old(offset)] == old(Contents())
    {
      offset := offset + n;
    }

    /** The type and the fields of an event. */
    method PutBody(e: Event)
      requires WellFormed(e) && offset + |Body(e)| <= data.Length
      modifies this`offset, data
      ensures offset <= data.Length && Contents() == old(Contents()) + Body(e)
    {
      EventParts(e);
      hide *;
      BodyWritten(Contents(), e);
      PutVar32(Id(e.kind));
      PutItems(e.items);
    }

    /** Writing an event: its size is patched in last. */
    method Write(e: Event)
      requires WellFormed(e) && offset + |EncodeEvent(e)| <= data.Length
      modifies this`offset, data
      ensures offset <= data.Length && Contents() == old(Contents()) + EncodeEvent(e)
    {
      ghost var before := Contents();
      var start := offset;
      EventParts(e);
      hide *;
      Skip(SizeBytes(e.kind));
      ghost var reserved := Contents();
      PutBody(e);
      PutSize(start, e.kind);
      SizeFilled(before, reserved, e);
    }

    /** A buffer that reaches its limit is flushed: file and buffer together stay the same. */
    method FlushIfNeeded()
      requires offset <= data.Length && 0 < limit
      modifies this`offset, this`file
      ensures offset < limit && offset <= data.Length && file + Contents() == old(file + Contents())
    {
      if offset >= limit {
        Flush();
        assert Contents() == [] && file + [] == file;
      }
    }

    /** One more event, never beyond the buffer. */
    method Record(e: Event)
      requires Valid() && WellFormed(e) && limit - 1 + MaxEventSize(e.kind) <= data.Length
      modifies this, data
      ensures Valid() && events == old(events) + [e]
      ensures file + Contents() == old(file + Contents()) + EncodeEvent(e)
    {
      EventSize(e);
      HoldsMore(file, Contents(), events, e);
      hide *;
      Write(e);
      events := events + [e];
      FlushIfNeeded();
    }

    /** At any moment, what was flushed and what is buffered reads back as the events recorded. */
    lemma NothingIsLost()
      requires Valid()
      ensures ReadAll(file + Contents()) == Some(events)
    {
      EventsRead(events);
    }
  }
}

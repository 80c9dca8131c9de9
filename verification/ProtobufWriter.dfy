/** `ProtoBuffer`: a growing buffer, and nested messages whose length is patched in when they end. */
module ProtobufWriter {
  import opened Bytes
  import opened ProtobufFormat

  /** `offset << 3 | room`. */
  type Mark = m: int | 0 <= m < 0x1_0000_0000_0000_0000

  class ProtoBuffer {
    var data: seq<byte>
    var offset: nat

    predicate Valid()
      reads this
    {
      offset <= |data| && 16 <= |data|
    }

    function Contents(): seq<byte>
      requires Valid()
      reads this
    {
      data[..offset]
    }

    constructor (capacity: nat)
      ensures Valid() && Contents() == []
    {
      data := seq(if capacity < 16 then 16 else capacity, _ => 0);
      offset := 0;
    }

    method EnsureCapacity(size: nat)
      requires Valid()
      modifies this
      ensures Valid() && offset == old(offset) && Contents() == old(Contents()) && offset + size <= |data|
    {
      var expected := offset + size;
      if expected <= |data| { return; }
      var capacity := if expected > 2 * |data| then expected else 2 * |data|;
      data := data + seq(capacity - |data|, _ => 0);
    }

    /** Every write stays inside the buffer: the size formula never promises too little. */
    method PutVarInt(n0: u64)
      requires Valid()
      modifies this
      ensures Valid() && Contents() == old(Contents()) + VarInt(n0)
    {
      VarIntSizeIsLength(n0);
      EnsureCapacity(VarIntSize(n0));
      var n := n0;
      while n / 128 != 0
        invariant Valid() && offset + |VarInt(n)| <= |data|
        invariant Contents() + VarInt(n) == old(Contents()) + VarInt(n0)
        decreases n
      {
        assert VarInt(n) == [n % 128 + 128] + VarInt(n / 128);
        data := data[offset := n % 128 + 128];
        offset := offset + 1;
        n := n / 128;
      }
      assert VarInt(n) == [n];
      data := data[offset := n];
      offset := offset + 1;
    }

    method PutTag(index: u32, kind: nat)
      requires Valid() && index < 0x2000_0000 && kind < 3
      modifies this
      ensures Valid() && Contents() == old(Contents()) + Tag(index, kind)
    {
      PutVarInt(index * 8 + kind);
    }

    method PutNum(index: u32, n: u64)
      requires Valid() && index < 0x2000_0000
      modifies this
      ensures Valid() && Contents() == old(Contents()) + EncodeField(Num(index, n))
    {
      PutTag(index, 0);
      PutVarInt(n);
    }

    method PutFixed(index: u32, n: u64)
      requires Valid() && index < 0x2000_0000
      modifies this
      ensures Valid() && Contents() == old(Contents()) + EncodeField(Fixed(index, n))
    {
      hide Tag, Fixed64, EncodeField, Splice;
      FixedParts(Contents(), index, n);
      PutTag(index, 1);
      EnsureCapacity(8);
      SplicedEnd(data, offset, Fixed64(n, 8));
      data := Splice(data, offset, Fixed64(n, 8));
      offset := offset + 8;
    }

    method PutBlob(index: u32, bytes: seq<byte>)
      requires Valid() && index < 0x2000_0000 && |bytes| < 0x1_0000_0000_0000_0000
      modifies this
      ensures Valid() && Contents() == old(Contents()) + EncodeField(Blob(index, bytes))
    {
      PutTag(index, 2);
      PutVarInt(|bytes|);
      EnsureCapacity(|bytes|);
      data := Splice(data, offset, bytes);
      offset := offset + |bytes|;
    }

    /** The length bytes are left open; the mark remembers where they are and how many. */
    method StartMessage(index: u32, room: nat) returns (mark: Mark)
      requires Valid() && index < 0x2000_0000 && 1 <= room <= 7 && offset + 5 < 0x2000_0000_0000_0000
      modifies this
      ensures Valid() && mark % 8 == room && mark / 8 == old(offset) + |Tag(index, 2)| && offset == mark / 8 + room
      ensures Contents()[..mark / 8] == old(Contents()) + Tag(index, 2)
    {
      TagIsShort(index, 2);
      PutTag(index, 2);
      EnsureCapacity(room);
      mark := offset * 8 + room;
      offset := offset + room;
    }

    /** The length of what was written since the mark goes into the bytes left open. */
    method CommitMessage(mark: Mark)
      requires Valid() && 1 <= mark % 8 && mark / 8 + mark % 8 <= offset
      modifies this
      ensures Valid() && offset == old(offset)
      ensures Contents() == Committed(old(Contents()), mark / 8, mark % 8)
    {
      var room: nat, start: nat := mark % 8, mark / 8;
      var len: nat := offset - (start + room);
      ghost var before, len0 := data, len;
      hide Padded, Patching, Committed;
      PatchStart(before, start, room, len);
      var i: nat := 0;
      while i < room - 1
        invariant offset == old(offset) && i < room && |data| == |before| && Patching(before, start, room, len0, data, i, len)
      {
        PatchOn(before, start, room, len0, data, i, len);
        data := data[start + i := len % 128 + 128];
        len := len / 128;
        i := i + 1;
      }
      PatchEnd(before, start, room, len0, data, i, len, offset);
      data := data[start + room - 1 := U8(len)];
    }
  }

  lemma FixedParts(before: seq<byte>, index: u32, n: u64)
    ensures |Fixed64(n, 8)| == 8 && before + EncodeField(Fixed(index, n)) == before + Tag(index, 1) + Fixed64(n, 8)
  {
    FixedWord(n);
    hide Tag, Fixed64;
  }

  lemma SplicedEnd(data: seq<byte>, offset: nat, w: seq<byte>)
    requires offset + |w| <= |data|
    ensures Splice(data, offset, w)[..offset + |w|] == data[..offset] + w
  {
  }

  /** `s` with the length of all that follows written into the `room` bytes at `start`. */
  function Committed(s: seq<byte>, start: nat, room: nat): seq<byte>
    requires start + room <= |s|
  {
    s[..start] + Padded(|s| - (start + room), room) + s[start + room..]
  }

  /** `i` of the `room` length bytes are written, `len` is what is left of the length. */
  ghost predicate Patching(before: seq<byte>, start: nat, room: nat, len0: nat, data: seq<byte>, i: nat, len: nat) {
    && i < room && start + room <= |data| == |before|
    && data[..start] == before[..start] && data[start + room..] == before[start + room..]
    && data[start..start + i] + Padded(len, room - i) == Padded(len0, room)
  }

  lemma PatchStart(before: seq<byte>, start: nat, room: nat, len: nat)
    requires 0 < room && start + room <= |before|
    ensures Patching(before, start, room, len, before, 0, len)
  {
    assert before[start..start] + Padded(len, room) == Padded(len, room);
  }

  lemma PatchOn(before: seq<byte>, start: nat, room: nat, len0: nat, data: seq<byte>, i: nat, len: nat)
    requires Patching(before, start, room, len0, data, i, len) && i + 1 < room
    ensures Patching(before, start, room, len0, data[start + i := len % 128 + 128], i + 1, len / 128)
  {
    hide Padded;
    var b := len % 128 + 128;
    var data' := data[start + i := b];
    PaddedStep(data[start..start + i], len, room - i);
    assert data'[start..start + i + 1] == data[start..start + i] + [b];
    assert data'[..start] == data[..start] && data'[start + room..] == data[start + room..];
  }

  lemma PaddedStep(w: seq<byte>, len: nat, room: nat)
    requires room > 1
    ensures w + [len % 128 + 128] + Padded(len / 128, room - 1) == w + Padded(len, room)
  {
    assert Padded(len, room) == [len % 128 + 128] + Padded(len / 128, room - 1);
  }

  lemma PatchEnd(before: seq<byte>, start: nat, room: nat, len0: nat, data: seq<byte>, i: nat, len: nat, offset: nat)
    requires i + 1 == room && start + room <= offset <= |data| == |before| && len0 == offset - (start + room)
    requires Patching(before, start, room, len0, data, i, len)
    ensures data[start + room - 1 := U8(len)][..offset] == Committed(before[..offset], start, room)
  {
    hide Padded;
    var data' := data[start + room - 1 := U8(len)];
    LastPadded(len);
    assert data'[start..start + room] == data[start..start + i] + [U8(len)];
    assert data'[..start] == before[..start];
    assert data'[start + room..] == data[start + room..];
    assert data'[start + room..offset] == before[start + room..][..offset - start - room] == before[start + room..offset];
    assert data'[..offset] == data'[..start] + data'[start..start + room] + data'[start + room..offset];
    assert before[..offset][..start] == before[..start] && before[..offset][start + room..] == before[start + room..offset];
  }

  lemma LastPadded(len: nat)
    ensures Padded(len, 1) == [U8(len)]
  {
  }

  lemma TagIsShort(index: u32, kind: nat)
    requires index < 0x2000_0000 && kind < 3
    ensures |Tag(index, kind)| <= 5
  {
    var n := index * 8 + kind;
    assert |VarInt(n / 128 / 128 / 128 / 128)| == 1;
    assert |VarInt(n / 128 / 128 / 128)| <= 2;
    assert |VarInt(n / 128 / 128)| <= 3;
    assert |VarInt(n / 128)| <= 4;
  }

  lemma CommittedMessage(base: seq<byte>, before: seq<byte>, index: u32, room: nat, body: seq<byte>)
    requires |base| == |before| + |Tag(index, 2)| + room && base[..|before| + |Tag(index, 2)|] == before + Tag(index, 2)
    ensures Committed(base + body, |before| + |Tag(index, 2)|, room) == before + (Tag(index, 2) + Padded(|body|, room) + body)
  {
    hide Tag, Padded;
    var start := |before| + |Tag(index, 2)|;
    assert (base + body)[..start] == base[..start];
    assert (base + body)[start + room..] == body;
  }

  lemma BlobParts(f: Field)
    requires Fits(f)
    ensures f.index < 0x2000_0000 && (f.Blob? ==> |f.bytes| < 0x1_0000_0000_0000_0000)
  {
  }

  /** The call for one field. */
  method WriteField(b: ProtoBuffer, f: Field)
    requires b.Valid() && Fits(f) && b.offset + |EncodeField(f)| < 0x1000_0000_0000_0000
    modifies b
    ensures b.Valid() && b.Contents() == old(b.Contents()) + EncodeField(f)
    decreases f, 1
  {
    hide EncodeField, Fits;
    BlobParts(f);
    match f {
      case Num(index, n) => b.PutNum(index, n);
      case Fixed(index, n) => b.PutFixed(index, n);
      case Blob(index, bytes) => b.PutBlob(index, bytes);
      case Message(_, _, _) => WriteNested(b, f);
    }
  }

  lemma NestedParts(f: Field)
    requires f.Message?
    ensures EncodeField(f) == Tag(f.index, 2) + Padded(|EncodeAll(f.fields)|, f.room) + EncodeAll(f.fields)
  {
    hide Tag, Padded, EncodeAll;
  }

  /** A nested message is started, written and committed. */
  method WriteNested(b: ProtoBuffer, f: Field)
    requires b.Valid() && f.Message? && Fits(f) && b.offset + |EncodeField(f)| < 0x1000_0000_0000_0000
    modifies b
    ensures b.Valid() && b.Contents() == old(b.Contents()) + EncodeField(f)
    decreases f, 0
  {
    hide EncodeField, Tag, Padded, Fits, EncodeAll, Committed;
    ghost var before := b.Contents();
    MessageFits(f);
    NestedParts(f);
    var mark := b.StartMessage(f.index, f.room);
    ghost var base := b.Contents();
    WriteFields(b, f.fields);
    b.CommitMessage(mark);
    CommittedMessage(base, before, f.index, f.room, EncodeAll(f.fields));
  }

  method WriteFields(b: ProtoBuffer, fs: seq<Field>)
    requires b.Valid() && AllFit(fs) && b.offset + |EncodeAll(fs)| < 0x1000_0000_0000_0000
    modifies b
    ensures b.Valid() && b.Contents() == old(b.Contents()) + EncodeAll(fs)
    decreases fs, 0
  {
    hide EncodeField, EncodeAll, Fits, AllFit;
    FieldsParts(b.Contents(), fs);
    if fs != [] {
      WriteField(b, fs[0]);
      WriteFields(b, fs[1..]);
    }
  }

  /** Fields are written one after the other. */
  lemma FieldsParts(before: seq<byte>, fs: seq<Field>)
    requires AllFit(fs)
    ensures fs == [] ==> before + EncodeAll(fs) == before
    ensures fs != [] ==> Fits(fs[0]) && AllFit(fs[1..]) && |EncodeAll(fs)| == |EncodeField(fs[0])| + |EncodeAll(fs[1..])|
                         && before + EncodeField(fs[0]) + EncodeAll(fs[1..]) == before + EncodeAll(fs)
  {
    hide EncodeField, Fits;
  }

  /** A profile written call by call decodes to the tree that was written. */
  method WriteMessage(fs: seq<Field>, capacity: nat) returns (bytes: seq<byte>)
    requires AllFit(fs) && |EncodeAll(fs)| < 0x1000_0000_0000_0000
    ensures DecodesTo(bytes, fs)
  {
    hide EncodeAll, AllFit, DecodesTo;
    var b := new ProtoBuffer(capacity);
    WriteFields(b, fs);
    bytes := b.Contents();
    assert bytes == EncodeAll(fs);
    TreeRoundTrip(fs);
  }
}

/** The protobuf wire format: what `ProtoBuffer` writes, and a decoder for it. */
module ProtobufFormat {
  import opened Bytes
  import Leb128

  /** A varint has at most ten bytes. */
  function MaxBytes(): nat { 10 }

  function VarInt(n: nat): seq<byte> { Leb128.EncodeUnsigned(n) }

  // ------------------------------------------------------------------ the size formula

  function BitLength(n: nat): nat { if n == 0 then 0 else 1 + BitLength(n / 2) }

  /** `(640 - __builtin_clzll(value | 1) * 9) / 64`. */
  function VarIntSize(n: u64): nat
    requires BitLength(n) <= 64
  {
    (640 - (64 - (if n == 0 then 1 else BitLength(n))) * 9) / 64
  }

  lemma {:induction false} BitLengthBound(n: nat, k: nat, bound: nat)
    requires n < bound && bound == Power2(k)
    ensures BitLength(n) <= k
    decreases k
  {
    if n > 0 { BitLengthBound(n / 2, k - 1, bound / 2); }
  }

  function Power2(k: nat): nat { if k == 0 then 1 else 2 * Power2(k - 1) }

  lemma WordBits(n: u64)
    ensures BitLength(n) <= 64
  {
    assert Power2(8) == 0x100;
    assert Power2(16) == 0x1_0000;
    assert Power2(24) == 0x100_0000;
    assert Power2(32) == 0x1_0000_0000;
    assert Power2(40) == 0x100_0000_0000;
    assert Power2(48) == 0x1_0000_0000_0000;
    assert Power2(56) == 0x100_0000_0000_0000;
    assert Power2(64) == 0x1_0000_0000_0000_0000;
    BitLengthBound(n, 64, 0x1_0000_0000_0000_0000);
  }

  /** Seven bits at a time. */
  lemma {:induction false} SevenBits(n: nat)
    requires n >= 128
    ensures BitLength(n) == 7 + BitLength(n / 128)
  {
    var a := n / 2;
    var b := a / 2;
    var c := b / 2;
    var d := c / 2;
    var e := d / 2;
    var f := e / 2;
    assert n / 128 == f / 2;
    assert BitLength(n) == 1 + BitLength(a) == 2 + BitLength(b) == 3 + BitLength(c);
    assert BitLength(c) == 1 + BitLength(d) == 2 + BitLength(e) == 3 + BitLength(f);
    assert BitLength(f) == 1 + BitLength(f / 2);
  }

  lemma {:induction false} SmallBits(n: nat)
    requires 0 < n < 128
    ensures 1 <= BitLength(n) <= 7
  {
    assert Power2(7) == 128;
    BitLengthBound(n, 7, 128);
  }

  lemma {:induction false} VarIntLength(n: nat)
    ensures |VarInt(n)| == if n == 0 then 1 else (BitLength(n) + 6) / 7
    decreases n
  {
    if n >= 128 {
      VarIntLength(n / 128);
      SevenBits(n);
    } else if n > 0 {
      SmallBits(n);
    }
    hide BitLength;
  }

  /** The formula is exact for every 64-bit number. */
  lemma VarIntSizeIsLength(n: u64)
    ensures BitLength(n) <= 64 && VarIntSize(n) == |VarInt(n)| <= MaxBytes()
  {
    WordBits(n);
    VarIntLength(n);
    hide VarInt;
    if n > 0 { assert BitLength(n) >= 1; }
    hide BitLength;
  }

  // ------------------------------------------------------------------ message trees

  /** What a sequence of calls writes. A nested message reserves `room` bytes for its length. */
  datatype Field =
    | Num(index: u32, n: u64)
    | Fixed(index: u32, n: u64)
    | Blob(index: u32, bytes: seq<byte>)
    | Message(index: u32, room: nat, fields: seq<Field>)

  /** A number in exactly `room` bytes; what does not fit is cut off. */
  function Padded(v: nat, room: nat): (b: seq<byte>)
    ensures |b| == room
    decreases room
  {
    if room == 0 then [] else if room == 1 then [U8(v)] else [v % 128 + 128] + Padded(v / 128, room - 1)
  }

  lemma {:induction false} ShlStep(k: nat)
    ensures Leb128.Shl(1, k + 1) == 128 * Leb128.Shl(1, k)
  {
    ShlScale(1, k);
  }

  lemma {:induction false} ShlScale(x: int, k: nat)
    ensures Leb128.Shl(128 * x, k) == 128 * Leb128.Shl(x, k)
    decreases k
  {
    if k > 0 { ShlScale(128 * x, k - 1); }
  }

  lemma PaddedParts(v: nat, room: nat)
    requires room > 1 && v < Leb128.Shl(1, room)
    ensures v / 128 < Leb128.Shl(1, room - 1)
  {
    ShlStep(room - 1);
  }

  function Fixed64(n: nat, bytes: nat): seq<byte>
    decreases bytes
  {
    if bytes == 0 then [] else [n % 256] + Fixed64(n / 256, bytes - 1)
  }

  function Tag(index: u32, kind: nat): seq<byte> { VarInt(index * 8 + kind) }

  /** Lengths fit the bytes reserved for them, and field numbers their 29 bits. */
  predicate Fits(f: Field) {
    && f.index < 0x2000_0000
    && (f.Blob? ==> |f.bytes| < 0x1_0000_0000_0000_0000)
    && (f.Message? ==> 1 <= f.room <= 7 && AllFit(f.fields) && |EncodeAll(f.fields)| < Leb128.Shl(1, f.room))
  }

  predicate AllFit(fs: seq<Field>) { forall i | 0 <= i < |fs| :: Fits(fs[i]) }

  function EncodeField(f: Field): seq<byte> {
    match f
    case Num(index, n) => Tag(index, 0) + VarInt(n)
    case Fixed(index, n) => Tag(index, 1) + Fixed64(n, 8)
    case Blob(index, bytes) => Tag(index, 2) + VarInt(|bytes|) + bytes
    case Message(index, room, fields) => Tag(index, 2) + Padded(|EncodeAll(fields)|, room) + EncodeAll(fields)
  }

  function EncodeAll(fs: seq<Field>): seq<byte> {
    if fs == [] then [] else EncodeField(fs[0]) + EncodeAll(fs[1..])
  }

  // ------------------------------------------------------------------ the decoder

  /** A field as it is on the wire: only a schema tells a nested message from other bytes. */
  datatype Raw = RawNum(index: nat, n: nat) | RawFixed(index: nat, n: nat) | RawBytes(index: nat, payload: seq<byte>)

  datatype Read<T> = Read(value: T, next: nat) | Bad

  function ReadVarInt(s: seq<byte>, p: nat): (r: Read<nat>)
    ensures r.Read? ==> p < r.next <= |s|
  {
    if Leb128.Terminated(s, p, MaxBytes()) then Read(Leb128.Unsigned(s, p, MaxBytes()), p + Leb128.Length(s, p, MaxBytes())) else Bad
  }

  function LittleEndian(s: seq<byte>): nat {
    if s == [] then 0 else s[0] + 256 * LittleEndian(s[1..])
  }

  /** One field at the start of `s`. */
  function ReadField(s: seq<byte>): (r: Read<Raw>)
    ensures r.Read? ==> 0 < r.next <= |s|
  {
    var tag := ReadVarInt(s, 0);
    if tag.Bad? then Bad
    else
      var index, kind, p := tag.value / 8, tag.value % 8, tag.next;
      if kind == 0 then
        var v := ReadVarInt(s, p);
        if v.Bad? then Bad else Read(RawNum(index, v.value), v.next)
      else if kind == 1 then
        if p + 8 > |s| then Bad else Read(RawFixed(index, LittleEndian(s[p..p + 8])), p + 8)
      else if kind == 2 then
        var v := ReadVarInt(s, p);
        if v.Bad? || v.next + v.value > |s| then Bad else Read(RawBytes(index, s[v.next..v.next + v.value]), v.next + v.value)
      else Bad
  }

  /** All fields of a message; `None` if the bytes are malformed. */
  function ReadFields(s: seq<byte>): Option<seq<Raw>>
    decreases |s|
  {
    if s == [] then Some([])
    else
      var f := ReadField(s);
      if f.Bad? then None
      else
        var rest := ReadFields(s[f.next..]);
        if rest.None? then None else Some([f.value] + rest.value)
  }

  /** The wire view of a field. */
  function RawOf(f: Field): Raw {
    match f
    case Num(index, n) => RawNum(index, n)
    case Fixed(index, n) => RawFixed(index, n)
    case Blob(index, bytes) => RawBytes(index, bytes)
    case Message(index, _, fields) => RawBytes(index, EncodeAll(fields))
  }

  function RawsOf(fs: seq<Field>): seq<Raw> { seq(|fs|, i requires 0 <= i < |fs| => RawOf(fs[i])) }

  /** The bytes decode to exactly this tree: field by field, and nested messages likewise. */
  ghost predicate DecodesTo(s: seq<byte>, fs: seq<Field>)
    decreases fs
  {
    && ReadFields(s) == Some(RawsOf(fs))
    && forall i | 0 <= i < |fs| && fs[i].Message? :: DecodesTo(EncodeAll(fs[i].fields), fs[i].fields)
  }

  // ------------------------------------------------------------------ round trip

  /** `n` stands at `p` in its shortest form. */
  lemma VarIntReads(s: seq<byte>, p: nat, n: u64)
    requires p + |VarInt(n)| <= |s| && s[p..p + |VarInt(n)|] == VarInt(n)
    ensures ReadVarInt(s, p) == Read(n, p + |VarInt(n)|)
  {
    VarIntSizeIsLength(n);
    Leb128.UnsignedRoundTrip(s, p, n, MaxBytes());
    hide MaxBytes;
  }

  lemma {:induction false} PaddedIs(s: seq<byte>, p: nat, v: nat, room: nat, limit: nat)
    requires 0 < room <= limit && v < Leb128.Shl(1, room) && p + room <= |s| && s[p..p + room] == Padded(v, room)
    ensures Leb128.Terminated(s, p, limit) && Leb128.Unsigned(s, p, limit) == v && Leb128.Length(s, p, limit) == room
    decreases room
  {
    var b := Padded(v, room);
    assert s[p] == b[0];
    if room == 1 {
      assert Leb128.Shl(1, 1) == 128;
    } else {
      PaddedParts(v, room);
      assert s[p + 1..p + 1 + room - 1] == b[1..] == Padded(v / 128, room - 1);
      PaddedIs(s, p + 1, v / 128, room - 1, limit - 1);
    }
  }

  lemma PaddedReads(s: seq<byte>, p: nat, v: nat, room: nat)
    requires 1 <= room <= 7 && v < Leb128.Shl(1, room) && p + room <= |s| && s[p..p + room] == Padded(v, room)
    ensures ReadVarInt(s, p) == Read(v, p + room)
  {
    assert room <= MaxBytes();
    hide MaxBytes, Padded;
    PaddedIs(s, p, v, room, MaxBytes());
  }

  lemma {:induction false} Fixed64Reads(n: nat, k: nat, bound: nat)
    requires n < bound && bound == Power256(k)
    ensures |Fixed64(n, k)| == k && LittleEndian(Fixed64(n, k)) == n
    decreases k
  {
    if k > 0 { Fixed64Reads(n / 256, k - 1, bound / 256); }
  }

  function Power256(k: nat): nat { if k == 0 then 1 else 256 * Power256(k - 1) }

  lemma TagReads(s: seq<byte>, index: u32, kind: nat)
    requires index < 0x2000_0000 && kind < 3 && |Tag(index, kind)| <= |s| && s[..|Tag(index, kind)|] == Tag(index, kind)
    ensures ReadVarInt(s, 0) == Read(index * 8 + kind, |Tag(index, kind)|)
    ensures (index * 8 + kind) / 8 == index && (index * 8 + kind) % 8 == kind
  {
    assert s[0..|Tag(index, kind)|] == Tag(index, kind);
    VarIntReads(s, 0, index * 8 + kind);
    hide VarInt;
  }

  lemma NumReads(f: Field, rest: seq<byte>)
    requires f.Num? && f.index < 0x2000_0000
    ensures ReadField(EncodeField(f) + rest) == Read(RawOf(f), |EncodeField(f)|)
  {
    var t, v := Tag(f.index, 0), VarInt(f.n);
    var s := EncodeField(f) + rest;
    hide Tag, VarInt, ReadVarInt;
    assert s == t + v + rest;
    assert s[..|t|] == t && s[|t|..|t| + |v|] == v;
    TagReads(s, f.index, 0);
    VarIntReads(s, |t|, f.n);
  }

  lemma FixedReads(f: Field, rest: seq<byte>)
    requires f.Fixed? && f.index < 0x2000_0000
    ensures ReadField(EncodeField(f) + rest) == Read(RawOf(f), |EncodeField(f)|)
  {
    var t, v := Tag(f.index, 1), Fixed64(f.n, 8);
    var s := EncodeField(f) + rest;
    FixedWord(f.n);
    hide Tag, Fixed64, ReadVarInt, LittleEndian;
    assert s == t + v + rest;
    assert s[..|t|] == t && s[|t|..|t| + 8] == v;
    TagReads(s, f.index, 1);
  }

  lemma FixedWord(n: u64)
    ensures |Fixed64(n, 8)| == 8 && LittleEndian(Fixed64(n, 8)) == n
  {
    assert Power256(4) == 0x1_0000_0000;
    assert Power256(6) == 0x1_0000_0000_0000;
    assert Power256(8) == 0x1_0000_0000_0000_0000;
    hide Fixed64, LittleEndian;
    Fixed64Reads(n, 8, 0x1_0000_0000_0000_0000);
  }

  lemma BlobReads(f: Field, rest: seq<byte>)
    requires f.Blob? && Fits(f)
    ensures ReadField(EncodeField(f) + rest) == Read(RawOf(f), |EncodeField(f)|)
  {
    var t, v := Tag(f.index, 2), VarInt(|f.bytes|);
    var s := EncodeField(f) + rest;
    hide Tag, VarInt, ReadVarInt, Fits;
    assert s == t + v + f.bytes + rest;
    assert s[..|t|] == t && s[|t|..|t| + |v|] == v && s[|t| + |v|..|t| + |v| + |f.bytes|] == f.bytes;
    BlobFits(f);
    TagReads(s, f.index, 2);
    VarIntReads(s, |t|, |f.bytes|);
  }

  lemma BlobFits(f: Field)
    requires f.Blob? && Fits(f)
    ensures f.index < 0x2000_0000 && |f.bytes| < 0x1_0000_0000_0000_0000
  {
  }

  lemma MessageReads(f: Field, rest: seq<byte>)
    requires f.Message? && Fits(f)
    ensures ReadField(EncodeField(f) + rest) == Read(RawOf(f), |EncodeField(f)|)
  {
    var body := EncodeAll(f.fields);
    var t, v := Tag(f.index, 2), Padded(|body|, f.room);
    var s := EncodeField(f) + rest;
    assert s == t + v + body + rest;
    MessageFits(f);
    hide Tag, Padded, ReadVarInt, Fits, EncodeAll;
    assert s[..|t|] == t && s[|t|..|t| + f.room] == v && s[|t| + f.room..|t| + f.room + |body|] == body;
    TagReads(s, f.index, 2);
    PaddedReads(s, |t|, |body|, f.room);
  }

  lemma MessageFits(f: Field)
    requires f.Message? && Fits(f)
    ensures f.index < 0x2000_0000 && 1 <= f.room <= 7 && |EncodeAll(f.fields)| < Leb128.Shl(1, f.room) && AllFit(f.fields)
  {
    hide EncodeAll;
  }

  lemma FieldReads(f: Field, rest: seq<byte>)
    requires Fits(f)
    ensures ReadField(EncodeField(f) + rest) == Read(RawOf(f), |EncodeField(f)|) && EncodeField(f) != []
  {
    if f.Num? { NumReads(f, rest); } else if f.Fixed? { FixedReads(f, rest); } else if f.Blob? { BlobReads(f, rest); } else { MessageReads(f, rest); }
    hide EncodeField, ReadField, RawOf;
    var r := ReadField(EncodeField(f) + rest);
    assert 0 < r.next;
  }

  lemma {:induction false} FieldsRead(fs: seq<Field>)
    requires AllFit(fs)
    ensures ReadFields(EncodeAll(fs)) == Some(RawsOf(fs))
  {
    if fs == [] {
      assert RawsOf(fs) == [];
    } else {
      var rest := EncodeAll(fs[1..]);
      FieldReads(fs[0], rest);
      FieldsRead(fs[1..]);
      hide EncodeField, ReadField, RawOf, Fits;
      assert (EncodeField(fs[0]) + rest)[|EncodeField(fs[0])|..] == rest;
      assert RawsOf(fs) == [RawOf(fs[0])] + RawsOf(fs[1..]);
    }
  }

  /** Whatever tree of fields and nested messages is written, a decoder gets exactly that tree back. */
  lemma {:induction false} TreeRoundTrip(fs: seq<Field>)
    requires AllFit(fs)
    ensures DecodesTo(EncodeAll(fs), fs)
  {
    FieldsRead(fs);
    hide EncodeAll, ReadFields, RawsOf;
    forall i | 0 <= i < |fs| && fs[i].Message? ensures DecodesTo(EncodeAll(fs[i].fields), fs[i].fields) {
      MessageFits(fs[i]);
      TreeRoundTrip(fs[i].fields);
    }
  }
}

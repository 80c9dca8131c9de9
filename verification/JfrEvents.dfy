/** Events as size, type and fields, and the reader that takes a chunk apart again. */
module JfrEvents {
  import opened Bytes
  import opened JfrFormat
  import Leb128
  import ProtobufFormat

  // ------------------------------------------------------------------ fields

  datatype Kind = K8 | K32 | K64 | KFloat | KText

  /** A field: a byte, a compressed integer, a float's four bytes, or a string with its coding. */
  datatype Item = Int8(b: byte) | Int32(n: u32) | Int64(w: u64) | Float(bits: u32) | Text(coding: byte, bytes: seq<byte>) | NoText

  const MAX_TEXT := 2048

  function KindOf(x: Item): Kind {
    match x
    case Int8(_) => K8
    case Int32(_) => K32
    case Int64(_) => K64
    case Float(_) => KFloat
    case Text(_, _) => KText
    case NoText => KText
  }

  predicate Fits(x: Item) { x.Text? ==> (x.coding == 3 || x.coding == 5) && |x.bytes| <= MAX_TEXT }

  function EncodeItem(x: Item): seq<byte> {
    match x
    case Int8(b) => [b]
    case Int32(n) => Leb128.EncodeUnsigned(n)
    case Int64(w) => EncodeLong(w)
    case Float(bits) => Put32(bits)
    case Text(coding, bytes) => [coding] + Leb128.EncodeUnsigned(|bytes|) + bytes
    case NoText => [0]
  }

  function EncodeItems(xs: seq<Item>): seq<byte> { if xs == [] then [] else EncodeItem(xs[0]) + EncodeItems(xs[1..]) }

  datatype Got = Got(item: Item, next: nat) | Malformed

  /** An unsigned number of at most five bytes. */
  function ReadInt(s: seq<byte>, p: nat): (r: Read)
    ensures r.Read? ==> p < r.next <= |s|
  {
    if Leb128.Terminated(s, p, 5) then Read(Leb128.Unsigned(s, p, 5), p + Leb128.Length(s, p, 5)) else Bad
  }

  function ReadItem(k: Kind, s: seq<byte>, p: nat): (g: Got)
    ensures g.Got? ==> p < g.next <= |s|
  {
    match k
    case K8 => if p < |s| then Got(Int8(s[p]), p + 1) else Malformed
    case K32 =>
      var r := ReadInt(s, p);
      if r.Read? && r.value < 0x1_0000_0000 then Got(Int32(r.value), r.next) else Malformed
    case K64 =>
      var r := ReadLong(s, p, 0);
      if r.Read? && r.value < 0x1_0000_0000_0000_0000 then Got(Int64(r.value), r.next) else Malformed
    case KFloat => if p + 4 <= |s| then Got(Float(Get32(s, p)), p + 4) else Malformed
    case KText => ReadText(s, p)
  }

  function ReadText(s: seq<byte>, p: nat): (g: Got)
    ensures g.Got? ==> p < g.next <= |s|
  {
    if p >= |s| then Malformed
    else if s[p] == 0 then Got(NoText, p + 1)
    else if s[p] != 3 && s[p] != 5 then Malformed
    else
      var r := ReadInt(s, p + 1);
      if r.Read? && r.next + r.value <= |s| then Got(Text(s[p], s[r.next..r.next + r.value]), r.next + r.value) else Malformed
  }

  /** Fields of the given kinds that fill `s` from `p` to its end. */
  function ReadItems(ks: seq<Kind>, s: seq<byte>, p: nat): Option<seq<Item>> {
    if ks == [] then (if p == |s| then Some([]) else None)
    else
      var g := ReadItem(ks[0], s, p);
      if g.Malformed? then None
      else
        var more := ReadItems(ks[1..], s, g.next);
        if more.None? then None else Some([g.item] + more.value)
  }

  // ------------------------------------------------------------------ events

  datatype EventType =
    | ExecutionSample | AllocInNewTlab | AllocOutsideTlab | MonitorEnter | ThreadPark | CpuLoad | HeapSummary | MethodTrace
    | Window | LiveObject | WallClockSample | Malloc | Free | NativeLock | Span | UserEvent | SignalSample | SignalCaptureStats

  function Id(t: EventType): nat {
    match t
    case ExecutionSample => 101
    case AllocInNewTlab => 102
    case AllocOutsideTlab => 103
    case MonitorEnter => 104
    case ThreadPark => 105
    case CpuLoad => 106
    case HeapSummary => 114
    case MethodTrace => 115
    case Window => 117
    case LiveObject => 118
    case WallClockSample => 119
    case Malloc => 120
    case Free => 121
    case NativeLock => 122
    case Span => 123
    case UserEvent => 124
    case SignalSample => 126
    case SignalCaptureStats => 128
  }

  function TypeOf(id: nat): Option<EventType> {
    match id
    case 101 => Some(ExecutionSample)
    case 102 => Some(AllocInNewTlab)
    case 103 => Some(AllocOutsideTlab)
    case 104 => Some(MonitorEnter)
    case 105 => Some(ThreadPark)
    case 106 => Some(CpuLoad)
    case 114 => Some(HeapSummary)
    case 115 => Some(MethodTrace)
    case 117 => Some(Window)
    case 118 => Some(LiveObject)
    case 119 => Some(WallClockSample)
    case 120 => Some(Malloc)
    case 121 => Some(Free)
    case 122 => Some(NativeLock)
    case 123 => Some(Span)
    case 124 => Some(UserEvent)
    case 126 => Some(SignalSample)
    case 128 => Some(SignalCaptureStats)
    case _ => None
  }

  function Shape(t: EventType): seq<Kind> {
    match t
    case ExecutionSample => [K64, K32, K32, K32]
    case AllocInNewTlab => [K64, K32, K32, K32, K64, K64]
    case AllocOutsideTlab => [K64, K32, K32, K32, K64]
    case MonitorEnter => [K64, K64, K32, K32, K32, K8, K64]
    case ThreadPark => [K64, K64, K32, K32, K32, K64, K64, K64]
    case CpuLoad => [K64, KFloat, KFloat, KFloat]
    case HeapSummary => [K64, K32, K32, K64, K64, K64, K64, K64, K64]
    case MethodTrace => [K64, K64, K32, K32, K32]
    case Window => [K64, K64, K32]
    case LiveObject => [K64, K32, K32, K32, K64, K64]
    case WallClockSample => [K64, K32, K32, K32, K32, K64]
    case Malloc => [K64, K32, K32, K64, K64]
    case Free => [K64, K32, K32, K64]
    case NativeLock => [K64, K64, K32, K32, K64]
    case Span => [K64, K64, K32, K32]
    case UserEvent => [K64, K32, K32, KText]
    case SignalSample => [K64, K32, K32, K64, K64]
    case SignalCaptureStats => [K64, K32, KText, K64, K64, K64, K64, K64, K64, K64, K64, K64]
  }

  /** Events with a string leave five bytes for their size, the others one. */
  predicate Wide(t: EventType) { t.UserEvent? || t.SignalCaptureStats? }

  function SizeBytes(t: EventType): nat { if Wide(t) then 5 else 1 }

  datatype Event = Event(kind: EventType, items: seq<Item>)

  function KindsOf(xs: seq<Item>): seq<Kind> { seq(|xs|, i requires 0 <= i < |xs| => KindOf(xs[i])) }

  predicate AllFit(xs: seq<Item>) { forall i | 0 <= i < |xs| :: Fits(xs[i]) }

  predicate WellFormed(e: Event) { KindsOf(e.items) == Shape(e.kind) && AllFit(e.items) }

  function Body(e: Event): seq<byte> { Leb128.EncodeUnsigned(Id(e.kind)) + EncodeItems(e.items) }

  /** The size field of an event: it counts itself. A one-byte size keeps eight bits only. */
  function SizeField(t: EventType, size: nat): (b: seq<byte>)
    ensures |b| == SizeBytes(t)
  {
    if Wide(t) then ProtobufFormat.Padded(size, 5) else [U8(size)]
  }

  function EncodeEvent(e: Event): seq<byte> { SizeField(e.kind, SizeBytes(e.kind) + |Body(e)|) + Body(e) }

  function EncodeAll(es: seq<Event>): seq<byte> { if es == [] then [] else EncodeEvent(es[0]) + EncodeAll(es[1..]) }

  /** One event that fills `s`. */
  function ReadEvent(s: seq<byte>): Option<Event> {
    var size := ReadInt(s, 0);
    if size.Bad? || size.value != |s| then None
    else
      var id := ReadInt(s, size.next);
      if id.Bad? || TypeOf(id.value).None? then None
      else
        var items := ReadItems(Shape(TypeOf(id.value).value), s, id.next);
        if items.None? then None else Some(Event(TypeOf(id.value).value, items.value))
  }

  /** A chunk's events: each is found by the size of the one before. */
  function ReadAll(s: seq<byte>): Option<seq<Event>>
    decreases |s|
  {
    if s == [] then Some([])
    else
      var size := ReadInt(s, 0);
      if size.Bad? || size.value == 0 || size.value > |s| then None
      else
        var first := ReadEvent(s[..size.value]);
        if first.None? then None
        else
          var more := ReadAll(s[size.value..]);
          if more.None? then None else Some([first.value] + more.value)
  }

  // ------------------------------------------------------------------ sizes

  function MaxSize(k: Kind): nat {
    match k
    case K8 => 1
    case K32 => 5
    case K64 => 9
    case KFloat => 4
    case KText => 6 + MAX_TEXT
  }

  function MaxSizes(ks: seq<Kind>): nat { if ks == [] then 0 else MaxSize(ks[0]) + MaxSizes(ks[1..]) }

  lemma ItemSize(x: Item)
    requires Fits(x)
    ensures 1 <= |EncodeItem(x)| <= MaxSize(KindOf(x))
  {
    match x {
      case Int32(n) => Leb128.EncodingsFit(n, 0);
      case Int64(w) => LongSize(w);
      case Text(_, bytes) => Leb128.EncodingsFit(|bytes|, 0);
      case _ =>
    }
    hide EncodeLong;
  }

  lemma {:induction false} ItemsSize(xs: seq<Item>)
    requires AllFit(xs)
    ensures |EncodeItems(xs)| <= MaxSizes(KindsOf(xs))
  {
    if xs != [] {
      ItemSize(xs[0]);
      ItemsSize(xs[1..]);
      assert KindsOf(xs)[1..] == KindsOf(xs[1..]);
      hide EncodeItem, MaxSize, Fits;
    }
  }

  function MaxEventSize(t: EventType): nat { SizeBytes(t) + (if Id(t) < 128 then 1 else 2) + MaxSizes(Shape(t)) }

  lemma EventSize(e: Event)
    requires WellFormed(e)
    ensures SizeBytes(e.kind) + 1 <= |EncodeEvent(e)| <= MaxEventSize(e.kind)
  {
    IdSize(e.kind);
    ItemsSize(e.items);
    hide EncodeItems, MaxSizes, AllFit, Id, Shape, SizeField;
  }

  lemma IdSize(t: EventType)
    ensures |Leb128.EncodeUnsigned(Id(t))| == if Id(t) < 128 then 1 else 2
  {
    assert Leb128.EncodeUnsigned(Id(SignalCaptureStats)) == [128, 1];
  }

  lemma {:induction false} PlainSizes(ks: seq<Kind>)
    requires KText !in ks
    ensures MaxSizes(ks) <= 9 * |ks|
  {
    if ks != [] { PlainSizes(ks[1..]); }
  }

  lemma {:induction false} SizesOfParts(a: seq<Kind>, b: seq<Kind>)
    ensures MaxSizes(a + b) == MaxSizes(a) + MaxSizes(b)
  {
    if a == [] { assert a + b == b; } else {
      assert (a + b)[1..] == a[1..] + b;
      SizesOfParts(a[1..], b);
    }
  }

  /** No event with a one-byte size can outgrow it, and none outgrows what a full buffer keeps in reserve. */
  lemma EventSizesBounded(t: EventType)
    ensures !Wide(t) ==> MaxEventSize(t) <= 83
    ensures MaxEventSize(t) <= 2200
  {
    if Wide(t) {
      var a, b := AroundText(t);
      TextSizes(a, b);
    } else {
      PlainShape(t);
      PlainSizes(Shape(t));
    }
    hide MaxSizes, Shape;
  }

  lemma PlainShape(t: EventType)
    requires !Wide(t)
    ensures |Shape(t)| <= 9 && KText !in Shape(t)
  {
  }

  lemma AroundText(t: EventType) returns (a: seq<Kind>, b: seq<Kind>)
    requires Wide(t)
    ensures Shape(t) == a + ([KText] + b) && |a| + |b| <= 11 && KText !in a && KText !in b
  {
    if t.UserEvent? {
      a, b := [K64, K32, K32], [];
    } else {
      a, b := [K64, K32], [K64, K64, K64, K64, K64, K64, K64, K64, K64];
    }
  }

  lemma TextSizes(a: seq<Kind>, b: seq<Kind>)
    requires |a| + |b| <= 11 && KText !in a && KText !in b
    ensures MaxSizes(a + ([KText] + b)) <= 2153
  {
    SizesOfParts(a, [KText] + b);
    SizesOfParts([KText], b);
    PlainSizes(a);
    PlainSizes(b);
    assert MaxSizes([KText]) == 2054;
    hide MaxSizes;
  }

  // ------------------------------------------------------------------ round trips

  /** `w` stands at `p`. */
  predicate At(s: seq<byte>, p: nat, w: seq<byte>) { p + |w| <= |s| && s[p..p + |w|] == w }

  lemma AtParts(s: seq<byte>, p: nat, a: seq<byte>, b: seq<byte>)
    requires At(s, p, a + b)
    ensures At(s, p, a) && At(s, p + |a|, b)
  {
    var w := a + b;
    assert s[p..p + |a|] == w[..|a|] == a;
    assert s[p + |a|..p + |a| + |b|] == w[|a|..] == b;
  }

  lemma IntReads(s: seq<byte>, p: nat, n: u32)
    requires At(s, p, Leb128.EncodeUnsigned(n))
    ensures ReadInt(s, p) == Read(n, p + |Leb128.EncodeUnsigned(n)|)
  {
    Leb128.EncodingsFit(n, 0);
    UpTo5(s, p, n, 5);
    hide Leb128.EncodeUnsigned;
  }

  lemma UpTo5(s: seq<byte>, p: nat, n: u32, limit: nat)
    requires At(s, p, Leb128.EncodeUnsigned(n)) && |Leb128.EncodeUnsigned(n)| <= limit
    ensures Leb128.Terminated(s, p, limit) && Leb128.Unsigned(s, p, limit) == n && Leb128.Length(s, p, limit) == |Leb128.EncodeUnsigned(n)|
  {
    Leb128.UnsignedRoundTrip(s, p, n, limit);
    hide *;
  }

  lemma TextReads(s: seq<byte>, p: nat, x: Item)
    requires x.Text? && Fits(x) && At(s, p, EncodeItem(x))
    ensures ReadText(s, p) == Got(x, p + |EncodeItem(x)|)
  {
    hide ReadInt, EncodeItem, Leb128.EncodeUnsigned, At;
    TextParts(s, p, x);
    IntReads(s, p + 1, |x.bytes|);
    AtSlice(s, p + 1 + |Leb128.EncodeUnsigned(|x.bytes|)|, x.bytes);
  }

  /** Where the parts of a text stand. */
  lemma TextParts(s: seq<byte>, p: nat, x: Item)
    requires x.Text? && At(s, p, EncodeItem(x))
    ensures var size := Leb128.EncodeUnsigned(|x.bytes|);
            p < |s| && s[p] == x.coding && At(s, p + 1, size) && At(s, p + 1 + |size|, x.bytes)
            && |EncodeItem(x)| == 1 + |size| + |x.bytes|
  {
    hide *;
    var size := Leb128.EncodeUnsigned(|x.bytes|);
    TextIsParts(x);
    AtParts(s, p, [x.coding], size + x.bytes);
    AtParts(s, p + 1, size, x.bytes);
    AtByte(s, p, x.coding);
  }

  lemma TextIsParts(x: Item)
    requires x.Text?
    ensures EncodeItem(x) == [x.coding] + (Leb128.EncodeUnsigned(|x.bytes|) + x.bytes)
  {
    hide Leb128.EncodeUnsigned;
  }

  lemma AtByte(s: seq<byte>, p: nat, b: byte)
    requires At(s, p, [b])
    ensures p < |s| && s[p] == b
  {
    assert s[p..p + 1][0] == s[p];
  }

  lemma AtSlice(s: seq<byte>, p: nat, w: seq<byte>)
    requires At(s, p, w)
    ensures p + |w| <= |s| && s[p..p + |w|] == w
  {
  }

  lemma LongItemReads(s: seq<byte>, p: nat, w: u64)
    requires At(s, p, EncodeLong(w))
    ensures ReadLong(s, p, 0) == Read(w, p + |EncodeLong(w)|)
  {
    RoomIs();
    LongReads(s, p, w, 0);
    hide Long, ReadLong;
  }

  lemma FloatReads(s: seq<byte>, p: nat, bits: u32)
    requires At(s, p, Put32(bits))
    ensures p + 4 <= |s| && Get32(s, p) == bits
  {
    var w := Put32(bits);
    assert Get32(w, 0) == bits;
    assert s[p..p + 4] == w;
    assert s[p] == s[p..p + 4][0] && s[p + 1] == s[p..p + 4][1] && s[p + 2] == s[p..p + 4][2] && s[p + 3] == s[p..p + 4][3];
    hide Put32;
  }

  lemma ItemReads(s: seq<byte>, p: nat, x: Item)
    requires Fits(x) && At(s, p, EncodeItem(x))
    ensures ReadItem(KindOf(x), s, p) == Got(x, p + |EncodeItem(x)|)
  {
    match x {
      case Int8(b) => assert s[p] == s[p..p + 1][0];
      case Int32(n) => IntReads(s, p, n);
      case Int64(w) => LongItemReads(s, p, w);
      case Float(bits) => FloatReads(s, p, bits);
      case Text(_, _) => TextReads(s, p, x);
      case NoText => assert s[p] == s[p..p + 1][0];
    }
    hide ReadInt, EncodeLong, ReadLong, Leb128.EncodeUnsigned;
  }

  lemma {:induction false} ItemsRead(s: seq<byte>, p: nat, xs: seq<Item>)
    requires AllFit(xs) && p <= |s| && s[p..] == EncodeItems(xs)
    ensures ReadItems(KindsOf(xs), s, p) == Some(xs)
    decreases |xs|
  {
    hide *;
    if xs == [] {
      NoItemsRead(s, p);
    } else {
      var w := EncodeItem(xs[0]);
      ItemsParts(xs);
      FirstItem(s, p, w, EncodeItems(xs[1..]));
      ItemReads(s, p, xs[0]);
      ItemsRead(s, p + |w|, xs[1..]);
      ReadItemsStep(s, p, p + |w|, xs);
    }
  }

  lemma NoItemsRead(s: seq<byte>, p: nat)
    requires p <= |s| && s[p..] == EncodeItems([])
    ensures ReadItems(KindsOf([]), s, p) == Some([])
  {
    assert |s[p..]| == |s| - p;
  }

  lemma ItemsParts(xs: seq<Item>)
    requires xs != [] && AllFit(xs)
    ensures EncodeItems(xs) == EncodeItem(xs[0]) + EncodeItems(xs[1..]) && Fits(xs[0]) && AllFit(xs[1..])
  {
    hide EncodeItem, Fits;
  }

  lemma FirstItem(s: seq<byte>, p: nat, w: seq<byte>, rest: seq<byte>)
    requires p <= |s| && s[p..] == w + rest
    ensures At(s, p, w) && s[p + |w|..] == rest
  {
    assert s[p..p + |w|] == s[p..][..|w|];
    assert s[p + |w|..] == s[p..][|w|..];
  }

  lemma ReadItemsStep(s: seq<byte>, p: nat, next: nat, xs: seq<Item>)
    requires xs != [] && ReadItem(KindOf(xs[0]), s, p) == Got(xs[0], next) && ReadItems(KindsOf(xs[1..]), s, next) == Some(xs[1..])
    ensures ReadItems(KindsOf(xs), s, p) == Some(xs)
  {
    hide ReadItem, KindOf;
    assert KindsOf(xs)[1..] == KindsOf(xs[1..]);
    assert xs == [xs[0]] + xs[1..];
  }

  lemma TypeOfId(t: EventType)
    ensures TypeOf(Id(t)) == Some(t) && Id(t) < 0x1_0000_0000
  {
  }

  lemma ShlFive()
    ensures Leb128.Shl(1, 5) == 0x8_0000_0000
  {
    assert Leb128.Shl(128, 4) == Leb128.Shl(0x4000, 3) == Leb128.Shl(0x20_0000, 2) == Leb128.Shl(0x1000_0000, 1);
  }

  /** A size field reads back if the size fits: 127 in one byte, 35 bits in five. */
  lemma SizeReads(s: seq<byte>, t: EventType, size: nat)
    requires At(s, 0, SizeField(t, size)) && (if Wide(t) then size < 0x8_0000_0000 else size < 128)
    ensures ReadInt(s, 0) == Read(size, SizeBytes(t))
  {
    if Wide(t) {
      ShlFive();
      PaddedSize(s, size, 5, 5);
      hide ProtobufFormat.Padded, Leb128.Shl;
    } else {
      assert s[0] == s[0..1][0];
    }
  }

  lemma PaddedSize(s: seq<byte>, size: nat, room: nat, limit: nat)
    requires 0 < room <= limit && size < Leb128.Shl(1, room) && At(s, 0, ProtobufFormat.Padded(size, room))
    ensures Leb128.Terminated(s, 0, limit) && Leb128.Unsigned(s, 0, limit) == size && Leb128.Length(s, 0, limit) == room
  {
    ProtobufFormat.PaddedIs(s, 0, size, room, limit);
    hide *;
  }

  lemma EventSizeReads(e: Event, rest: seq<byte>)
    requires WellFormed(e)
    ensures ReadInt(EncodeEvent(e) + rest, 0) == Read(|EncodeEvent(e)|, SizeBytes(e.kind))
  {
    var s := EncodeEvent(e) + rest;
    var size := SizeField(e.kind, |EncodeEvent(e)|);
    EventSize(e);
    EventSizesBounded(e.kind);
    hide WellFormed, MaxEventSize, Wide, ReadInt, SizeField, Body;
    assert s[0..|size|] == size;
    SizeFits(e.kind, |EncodeEvent(e)|);
    SizeReads(s, e.kind, |EncodeEvent(e)|);
  }

  lemma SizeFits(t: EventType, size: nat)
    requires size <= MaxEventSize(t) && MaxEventSize(t) <= 2200 && (!Wide(t) ==> MaxEventSize(t) <= 83)
    ensures if Wide(t) then size < 0x8_0000_0000 else size < 128
  {
    hide MaxEventSize;
  }

  /** An event reads back as itself. */
  lemma EventReads(e: Event)
    requires WellFormed(e)
    ensures ReadEvent(EncodeEvent(e)) == Some(e)
  {
    hide *;
    var s, n, id := EncodeEvent(e), SizeBytes(e.kind), Leb128.EncodeUnsigned(Id(e.kind));
    assert s + [] == s;
    EventSizeReads(e, []);
    TypeOfId(e.kind);
    EventPlaces(e);
    IntReads(s, n, Id(e.kind));
    ItemsRead(s, n + |id|, e.items);
    ReadEventIs(s, n, n + |id|, e);
  }

  /** Where the parts of an event stand. */
  lemma EventPlaces(e: Event)
    requires WellFormed(e)
    ensures var s, n, id := EncodeEvent(e), SizeBytes(e.kind), Leb128.EncodeUnsigned(Id(e.kind));
            At(s, n, id) && n + |id| <= |s| && s[n + |id|..] == EncodeItems(e.items) && AllFit(e.items) && KindsOf(e.items) == Shape(e.kind)
  {
    hide SizeField, Leb128.EncodeUnsigned, SizeBytes, EncodeItems, Id, Shape, KindsOf, AllFit;
    var s, n, id := EncodeEvent(e), SizeBytes(e.kind), Leb128.EncodeUnsigned(Id(e.kind));
    assert s[n..] == Body(e);
    assert s[n..n + |id|] == s[n..][..|id|] == id;
    assert s[n + |id|..] == s[n..][|id|..] == EncodeItems(e.items);
  }

  lemma ReadEventIs(s: seq<byte>, n: nat, m: nat, e: Event)
    requires ReadInt(s, 0) == Read(|s|, n) && ReadInt(s, n) == Read(Id(e.kind), m) && TypeOf(Id(e.kind)) == Some(e.kind)
    requires ReadItems(Shape(e.kind), s, m) == Some(e.items)
    ensures ReadEvent(s) == Some(e)
  {
    hide ReadInt, Id, TypeOf, Shape, ReadItems;
  }

  /** Any sequence of events reads back as itself: every event is found, none is split or joined. */
  lemma {:induction false} EventsRead(es: seq<Event>)
    requires forall i | 0 <= i < |es| :: WellFormed(es[i])
    ensures ReadAll(EncodeAll(es)) == Some(es)
  {
    if es == [] {
      assert EncodeAll(es) == [];
    } else {
      var first, rest := EncodeEvent(es[0]), EncodeAll(es[1..]);
      EventSizeReads(es[0], rest);
      EventReads(es[0]);
      EventSize(es[0]);
      EventsRead(es[1..]);
      hide *;
      EncodeAllIs(es);
      ReadAllStep(first, rest, SizeBytes(es[0].kind), es);
    }
  }

  lemma EncodeAllIs(es: seq<Event>)
    requires es != []
    ensures EncodeAll(es) == EncodeEvent(es[0]) + EncodeAll(es[1..])
  {
    hide EncodeEvent;
  }

  lemma ReadAllStep(first: seq<byte>, rest: seq<byte>, n: nat, es: seq<Event>)
    requires es != [] && 0 < |first| && ReadInt(first + rest, 0) == Read(|first|, n)
    requires ReadEvent(first) == Some(es[0]) && ReadAll(rest) == Some(es[1..])
    ensures ReadAll(first + rest) == Some(es)
  {
    hide ReadEvent, ReadInt;
    assert (first + rest)[..|first|] == first && (first + rest)[|first|..] == rest;
    assert es == [es[0]] + es[1..];
  }

  lemma {:induction false} EncodeAppend(es: seq<Event>, e: Event)
    ensures EncodeAll(es + [e]) == EncodeAll(es) + EncodeEvent(e)
  {
    if es == [] {
      assert es + [e] == [e] && [e][1..] == [];
      assert EncodeAll([e]) == EncodeEvent(e) + EncodeAll([]);
    } else {
      assert (es + [e])[1..] == es[1..] + [e];
      EncodeAppend(es[1..], e);
    }
    hide EncodeEvent;
  }
}

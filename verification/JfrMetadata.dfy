/** The fields of events as the recording's metadata declares them, against what is written. */
module JfrMetadata {
  import opened Bytes
  import opened JfrFormat
  import opened JfrEvents
  import Leb128

  datatype FieldType =
    | ByteField | IntField | LongField | FloatField | StringField | ThreadField | StackTraceField | ClassField | ThreadStateField
    | MethodField | GcWhenField | UserEventTypeField | VirtualSpaceField

  /** The value itself, or its index in a constant pool. */
  datatype Field = Plain(ty: FieldType) | Pooled(ty: FieldType)

  function VirtualSpace(): seq<Field> {
    [Plain(LongField), Plain(LongField), Plain(LongField), Plain(LongField), Plain(LongField)]
  }

  /** src/jfrMetadata.cpp */
  function Declared(t: EventType): seq<Field> {
    match t
    case ExecutionSample => [Plain(LongField), Pooled(ThreadField), Pooled(StackTraceField), Pooled(ThreadStateField)]
    case AllocInNewTlab => [Plain(LongField), Pooled(ThreadField), Pooled(StackTraceField), Pooled(ClassField), Plain(LongField), Plain(LongField)]
    case AllocOutsideTlab => [Plain(LongField), Pooled(ThreadField), Pooled(StackTraceField), Pooled(ClassField), Plain(LongField)]
    case MonitorEnter => [Plain(LongField), Plain(LongField), Pooled(ThreadField), Pooled(StackTraceField), Pooled(ClassField), Pooled(ThreadField), Plain(LongField)]
    case ThreadPark => [Plain(LongField), Plain(LongField), Pooled(ThreadField), Pooled(StackTraceField), Pooled(ClassField), Plain(LongField), Plain(LongField), Plain(LongField)]
    case CpuLoad => [Plain(LongField), Plain(FloatField), Plain(FloatField), Plain(FloatField)]
    case HeapSummary => [Plain(LongField), Plain(IntField), Pooled(GcWhenField), Plain(VirtualSpaceField), Plain(LongField)]
    case MethodTrace => [Plain(LongField), Plain(LongField), Pooled(ThreadField), Pooled(StackTraceField), Pooled(MethodField)]
    case Window => [Plain(LongField), Plain(LongField), Pooled(ThreadField)]
    case LiveObject => [Plain(LongField), Pooled(ThreadField), Pooled(StackTraceField), Pooled(ClassField), Plain(LongField), Plain(LongField)]
    case WallClockSample => [Plain(LongField), Pooled(ThreadField), Pooled(StackTraceField), Pooled(ThreadStateField), Plain(IntField), Plain(LongField)]
    case Malloc => [Plain(LongField), Pooled(ThreadField), Pooled(StackTraceField), Plain(LongField), Plain(LongField)]
    case Free => [Plain(LongField), Pooled(ThreadField), Pooled(StackTraceField), Plain(LongField)]
    case NativeLock => [Plain(LongField), Plain(LongField), Pooled(ThreadField), Pooled(StackTraceField), Plain(LongField)]
    case Span => [Plain(LongField), Plain(LongField), Pooled(ThreadField), Pooled(StringField)]
    case UserEvent => [Plain(LongField), Pooled(ThreadField), Pooled(UserEventTypeField), Plain(StringField)]
    case SignalSample => [Plain(LongField), Pooled(ThreadField), Pooled(StackTraceField), Plain(LongField), Plain(LongField)]
    case SignalCaptureStats => [Plain(LongField), Plain(IntField), Plain(StringField), Plain(LongField), Plain(LongField), Plain(LongField), Plain(LongField), Plain(LongField), Plain(LongField), Plain(LongField), Plain(LongField), Plain(LongField)]
  }

  /** How a reader takes a field of a type without fields of its own: pool indices are compressed integers. */
  function WireKind(f: Field): Kind {
    if f.Pooled? then K32
    else
      match f.ty
      case ByteField => K8
      case LongField => K64
      case FloatField => KFloat
      case StringField => KText
      case _ => K32
  }

  /** A struct that is not in a pool stands with its fields in the event. */
  function WireKinds(fs: seq<Field>): seq<Kind> {
    if fs == [] then []
    else if fs[0].ty.VirtualSpaceField? && !fs[0].Pooled? then [K64, K64, K64, K64, K64] + WireKinds(fs[1..])
    else [WireKind(fs[0])] + WireKinds(fs[1..])
  }

  lemma SpaceKinds()
    ensures WireKinds(VirtualSpace()) == [K64, K64, K64, K64, K64]
  {
    var fs := VirtualSpace();
    assert fs[1..][1..][1..][1..][1..] == [];
  }

  /** Fields one by one. */
  lemma {:induction false} PlainKinds(fs: seq<Field>)
    requires forall i | 0 <= i < |fs| :: !fs[i].ty.VirtualSpaceField?
    ensures |WireKinds(fs)| == |fs| && forall i | 0 <= i < |fs| :: WireKinds(fs)[i] == WireKind(fs[i])
  {
    if fs != [] {
      PlainKinds(fs[1..]);
      forall i | 0 <= i < |fs| ensures WireKinds(fs)[i] == WireKind(fs[i]) { if i > 0 { assert fs[1..][i - 1] == fs[i]; } }
    }
  }

  /** The owner of a monitor is not known: one zero byte stands for it. */
  function Written(t: EventType): seq<Kind> { if t.MonitorEnter? then Shape(t)[5 := K32] else Shape(t) }

  lemma SamplesMatch(t: EventType)
    requires t.ExecutionSample? || t.WallClockSample? || t.SignalSample? || t.CpuLoad? || t.UserEvent?
    ensures WireKinds(Declared(t)) == Written(t)
  {
    PlainKinds(Declared(t));
    hide WireKinds;
  }

  function Longs(n: nat): seq<Field> { if n == 0 then [] else [Plain(LongField)] + Longs(n - 1) }

  lemma {:induction false} LongKinds(n: nat)
    ensures |WireKinds(Longs(n))| == n && forall i | 0 <= i < n :: WireKinds(Longs(n))[i] == K64
  {
    if n > 0 {
      LongKinds(n - 1);
      assert Longs(n)[1..] == Longs(n - 1);
    }
  }

  lemma NineLongs()
    ensures Longs(9) == [Plain(LongField), Plain(LongField), Plain(LongField), Plain(LongField), Plain(LongField), Plain(LongField), Plain(LongField), Plain(LongField), Plain(LongField)]
  {
    assert Longs(3) == [Plain(LongField), Plain(LongField), Plain(LongField)];
    assert Longs(6) == [Plain(LongField), Plain(LongField), Plain(LongField)] + Longs(3);
    assert Longs(9) == [Plain(LongField), Plain(LongField), Plain(LongField)] + Longs(6);
  }

  lemma KindsCons(f: Field, fs: seq<Field>)
    requires !f.ty.VirtualSpaceField?
    ensures WireKinds([f] + fs) == [WireKind(f)] + WireKinds(fs)
  {
    assert ([f] + fs)[1..] == fs;
  }

  lemma StatisticsDeclared()
    ensures Declared(SignalCaptureStats) == [Plain(LongField)] + ([Plain(IntField)] + ([Plain(StringField)] + Longs(9)))
  {
    NineLongs();
    hide Longs;
  }

  lemma StatisticsWritten(ks: seq<Kind>)
    requires |ks| == 9 && forall i | 0 <= i < 9 :: ks[i] == K64
    ensures Written(SignalCaptureStats) == [K64] + ([K32] + ([KText] + ks))
  {
    assert ks == [K64, K64, K64, K64, K64, K64, K64, K64, K64];
  }

  lemma StatisticsMatch()
    ensures WireKinds(Declared(SignalCaptureStats)) == Written(SignalCaptureStats)
  {
    hide Declared, Written, WireKinds, Longs;
    StatisticsDeclared();
    LongKinds(9);
    StatisticsWritten(WireKinds(Longs(9)));
    KindsCons(Plain(StringField), Longs(9));
    KindsCons(Plain(IntField), [Plain(StringField)] + Longs(9));
    KindsCons(Plain(LongField), [Plain(IntField)] + ([Plain(StringField)] + Longs(9)));
  }

  lemma AllocationsMatch(t: EventType)
    requires t.AllocInNewTlab? || t.AllocOutsideTlab? || t.LiveObject? || t.Malloc? || t.Free? || t.Window? || t.Span?
    ensures WireKinds(Declared(t)) == Written(t)
  {
    PlainKinds(Declared(t));
    hide WireKinds;
  }

  lemma DurationsMatch(t: EventType)
    requires t.MonitorEnter? || t.ThreadPark? || t.MethodTrace? || t.NativeLock?
    ensures WireKinds(Declared(t)) == Written(t)
  {
    PlainKinds(Declared(t));
    hide WireKinds;
  }

  lemma HeapMatches()
    ensures WireKinds(Declared(HeapSummary)) == Written(HeapSummary)
  {
    var fs := Declared(HeapSummary);
    assert fs[1..][1..][1..][1..][1..] == [];
    assert WireKinds(fs[1..][1..][1..][1..]) == [K64];
    assert WireKinds(fs[1..][1..][1..]) == [K64, K64, K64, K64, K64] + [K64];
  }

  /** Events are written as the metadata declares them, so any reader that follows the metadata finds each field. */
  lemma EventsMatchMetadata(t: EventType)
    ensures WireKinds(Declared(t)) == Written(t)
  {
    hide *;
    match t
    case HeapSummary => HeapMatches();
    case ExecutionSample => SamplesMatch(t);
    case WallClockSample => SamplesMatch(t);
    case SignalSample => SamplesMatch(t);
    case CpuLoad => SamplesMatch(t);
    case SignalCaptureStats => StatisticsMatch();
    case UserEvent => SamplesMatch(t);
    case MonitorEnter => DurationsMatch(t);
    case ThreadPark => DurationsMatch(t);
    case MethodTrace => DurationsMatch(t);
    case NativeLock => DurationsMatch(t);
    case _ => AllocationsMatch(t);
  }

  /** A byte below 128 is the same number when it is read as a compressed integer. */
  lemma SmallByteReads(s: seq<byte>, p: nat)
    requires p < |s| && s[p] < 128
    ensures ReadItem(K32, s, p) == Got(Int32(s[p]), p + 1) && ReadItem(K8, s, p) == Got(Int8(s[p]), p + 1)
  {
    assert Leb128.EncodeUnsigned(s[p]) == [s[p]];
    assert s[p..p + 1] == [s[p]];
    IntReads(s, p, s[p]);
  }
}

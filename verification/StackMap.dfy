/** StackMapTable attributes: their meaning (section 4.7.4 of the Java Virtual Machine Specification). */
module StackMap {
  import opened Bytes

  const ITEM_DOUBLE: byte := 3
  const ITEM_LONG: byte := 4

  datatype VType = Simple(tag: byte) | Object(class_: u16) | Uninitialized(offset: u16)

  function Slots(v: VType): nat { if v == Simple(ITEM_LONG) || v == Simple(ITEM_DOUBLE) then 2 else 1 }

  datatype Frame = Frame(offset: int, locals: seq<VType>, stack: seq<VType>, full: bool)

  /** Decoder state between frames: next byte, offset of the last frame, locals of the last frame. */
  datatype Cursor = Cursor(pos: nat, offset: int, locals: seq<VType>)

  function ReadType(b: seq<byte>, pos: nat): (r: Option<(VType, nat)>)
    ensures r.Some? ==> pos < r.value.1 <= |b|
  {
    if pos >= |b| || b[pos] > 8 then None
    else if b[pos] < 7 then Some((Simple(b[pos]), pos + 1))
    else if pos + 3 > |b| then None
    else
      var v := Get16(b, pos + 1);
      Some((if b[pos] == 7 then Object(v) else Uninitialized(v), pos + 3))
  }

  function ReadTypes(b: seq<byte>, pos: nat, n: nat): (r: Option<(seq<VType>, nat)>)
    ensures r.Some? ==> |r.value.0| == n && pos <= r.value.1 && (r.value.1 <= |b| || n == 0)
    decreases n
  {
    if n == 0 then Some(([], pos))
    else
      match ReadType(b, pos)
      case None => None
      case Some((v, p)) =>
        match ReadTypes(b, p, n - 1)
        case None => None
        case Some((vs, q)) => Some(([v] + vs, q))
  }

  /** One frame. */
  function ReadFrame(b: seq<byte>, c: Cursor): (r: Option<(Frame, Cursor)>) {
    if c.pos >= |b| then None
    else if b[c.pos] < 64 then ReadSame(c, c.pos + 1, b[c.pos])
    else if b[c.pos] < 128 then ReadOneItem(b, c, c.pos + 1, b[c.pos] - 64)
    else if b[c.pos] < 247 || c.pos + 3 > |b| then None
    else ReadExtended(b, c, b[c.pos], Get16(b, c.pos + 1), c.pos + 3)
  }

  function Next(c: Cursor, pos: nat, delta: nat, locals: seq<VType>, stack: seq<VType>, full: bool): (Frame, Cursor) {
    var o := c.offset + delta + 1;
    (Frame(o, locals, stack, full), Cursor(pos, o, locals))
  }

  function ReadSame(c: Cursor, pos: nat, delta: nat): Option<(Frame, Cursor)> {
    Some(Next(c, pos, delta, c.locals, [], false))
  }

  function ReadOneItem(b: seq<byte>, c: Cursor, pos: nat, delta: nat): Option<(Frame, Cursor)> {
    match ReadType(b, pos)
    case None => None
    case Some((v, p)) => Some(Next(c, p, delta, c.locals, [v], false))
  }

  function ReadExtended(b: seq<byte>, c: Cursor, tag: byte, delta: nat, pos: nat): Option<(Frame, Cursor)>
    requires 247 <= tag
  {
    if tag == 247 then ReadOneItem(b, c, pos, delta)
    else if tag < 251 then
      (if 251 - tag > |c.locals| then None
       else Some(Next(c, pos, delta, c.locals[..|c.locals| - (251 - tag)], [], false)))
    else if tag == 251 then ReadSame(c, pos, delta)
    else if tag < 255 then
      (match ReadTypes(b, pos, tag - 251)
       case None => None
       case Some((vs, p)) => Some(Next(c, p, delta, c.locals + vs, [], false)))
    else ReadFull(b, c, delta, pos)
  }

  function ReadFull(b: seq<byte>, c: Cursor, delta: nat, pos: nat): Option<(Frame, Cursor)> {
    if pos + 2 > |b| then None
    else
      match ReadTypes(b, pos + 2, Get16(b, pos))
      case None => None
      case Some((locals, p)) =>
        if p + 2 > |b| then None
        else
          match ReadTypes(b, p + 2, Get16(b, p))
          case None => None
          case Some((stack, q)) => Some(Next(c, q, delta, locals, stack, true))
  }

  /** `n` frames in a row. */
  function ReadFrames(b: seq<byte>, c: Cursor, n: nat): (r: Option<(seq<Frame>, Cursor)>)
    ensures r.Some? ==> |r.value.0| == n
    decreases n
  {
    if n == 0 then Some(([], c))
    else
      match ReadFrame(b, c)
      case None => None
      case Some((f, c')) =>
        match ReadFrames(b, c', n - 1)
        case None => None
        case Some((fs, c'')) => Some(([f] + fs, c''))
  }

  // -------------------------------------------------- what rewriting must achieve

  /** How many leading locals make up exactly `slots` slots, if that is possible. */
  function Split(ls: seq<VType>, slots: nat): (r: Option<nat>)
    ensures r.Some? ==> r.value <= |ls|
  {
    if slots == 0 then Some(0)
    else if ls == [] || Slots(ls[0]) > slots then None
    else
      match Split(ls[1..], slots - Slots(ls[0]))
      case None => None
      case Some(k) => Some(k + 1)
  }

  /** `v` after its code moved. */
  function MovedType(v: VType, table: seq<u16>): VType {
    match v
    case Uninitialized(o) => if o < |table| && o + table[o] <= 0xFFFF then Uninitialized(o + table[o]) else v
    case _ => v
  }

  function MovedTypes(vs: seq<VType>, table: seq<u16>): (r: seq<VType>)
    ensures |r| == |vs|
  {
    seq(|vs|, k requires 0 <= k < |vs| => MovedType(vs[k], table))
  }

  /** The locals with a long inserted after the first `k`. */
  function LongAt(ls: seq<VType>, k: nat, table: seq<u16>): (r: seq<VType>)
    requires k <= |ls|
    ensures |r| == |ls| + 1
  {
    var m := MovedTypes(ls, table);
    m[..k] + [Simple(ITEM_LONG)] + m[k..]
  }

  /** The locals with a long inserted after the first `slots` slots. */
  function WithLong(ls: seq<VType>, slots: nat, table: seq<u16>): seq<VType>
    requires Split(ls, slots).Some?
  {
    LongAt(ls, Split(ls, slots).value, table)
  }

  function MovedFrame(f: Frame, slots: nat, table: seq<u16>): Frame
    requires Split(f.locals, slots).Some? && 0 <= f.offset < |table|
  {
    Frame(f.offset + table[f.offset], WithLong(f.locals, slots, table), MovedTypes(f.stack, table), f.full)
  }

  /** The relocation table covers what the frames mention. */
  predicate TypesCovered(vs: seq<VType>, table: seq<u16>) {
    forall k | 0 <= k < |vs| :: vs[k].Uninitialized? ==> vs[k].offset < |table| && vs[k].offset + table[vs[k].offset] <= 0xFFFF
  }

  predicate FrameCovered(f: Frame, table: seq<u16>) {
    && 0 <= f.offset < |table| && f.offset + table[f.offset] <= 0xFFFF
    && TypesCovered(f.locals, table) && TypesCovered(f.stack, table)
  }

  /** Images of the frames lie after offset 7 and grow. */
  ghost predicate Relocatable(fs: seq<Frame>, table: seq<u16>) {
    && (forall k | 0 <= k < |fs| :: FrameCovered(fs[k], table) && 7 < fs[k].offset + table[fs[k].offset])
    && (forall k | 0 < k < |fs| :: fs[k - 1].offset + table[fs[k - 1].offset] < fs[k].offset + table[fs[k].offset])
  }

  // ------------------------------------------------------------- reading what was written

  lemma TypeExtends(b: seq<byte>, more: seq<byte>, pos: nat)
    requires ReadType(b, pos).Some?
    ensures ReadType(b + more, pos) == ReadType(b, pos)
  {
  }

  lemma {:induction false} TypesExtend(b: seq<byte>, more: seq<byte>, pos: nat, n: nat)
    requires ReadTypes(b, pos, n).Some?
    ensures ReadTypes(b + more, pos, n) == ReadTypes(b, pos, n)
    decreases n
  {
    hide ReadType;
    if n > 0 {
      TypeExtends(b, more, pos);
      TypesExtend(b, more, ReadType(b, pos).value.1, n - 1);
    }
  }

  lemma FrameExtends(b: seq<byte>, more: seq<byte>, c: Cursor)
    requires ReadFrame(b, c).Some?
    ensures ReadFrame(b + more, c) == ReadFrame(b, c)
  {
    hide ReadType, ReadTypes;
    var t, b' := b[c.pos], b + more;
    if 64 <= t < 128 {
      TypeExtends(b, more, c.pos + 1);
    } else if t >= 247 {
      var p := c.pos + 3;
      assert Get16(b', c.pos + 1) == Get16(b, c.pos + 1);
      if t == 247 {
        TypeExtends(b, more, p);
      } else if 252 <= t < 255 {
        TypesExtend(b, more, p, t - 251);
      } else if t == 255 {
        assert Get16(b', p) == Get16(b, p);
        TypesExtend(b, more, p + 2, Get16(b, p));
        var q := ReadTypes(b, p + 2, Get16(b, p)).value.1;
        assert Get16(b', q) == Get16(b, q);
        TypesExtend(b, more, q + 2, Get16(b, q));
      }
    }
  }

  lemma {:induction false} FramesExtend(b: seq<byte>, more: seq<byte>, c: Cursor, n: nat)
    requires ReadFrames(b, c, n).Some?
    ensures ReadFrames(b + more, c, n) == ReadFrames(b, c, n)
    decreases n
  {
    hide ReadFrame;
    if n > 0 {
      FrameExtends(b, more, c);
      FramesExtend(b, more, ReadFrame(b, c).value.1, n - 1);
    }
  }

  /** Reading one frame more. */
  lemma {:induction false} FramesSnoc(b: seq<byte>, c: Cursor, n: nat)
    requires ReadFrames(b, c, n).Some?
    ensures ReadFrames(b, c, n + 1) == match ReadFrame(b, ReadFrames(b, c, n).value.1)
                                       case None => None
                                       case Some((f, c')) => Some((ReadFrames(b, c, n).value.0 + [f], c'))
    decreases n
  {
    hide ReadFrame;
    if n == 0 {
      assert ReadFrames(b, c, 0) == Some(([], c));
      if ReadFrame(b, c).Some? {
        assert ReadFrames(b, ReadFrame(b, c).value.1, 0) == Some(([], ReadFrame(b, c).value.1));
        assert [ReadFrame(b, c).value.0] + [] == [] + [ReadFrame(b, c).value.0];
      }
    } else {
      var (f0, c0) := ReadFrame(b, c).value;
      FramesSnoc(b, c0, n - 1);
      var (fs, cn) := ReadFrames(b, c0, n - 1).value;
      if ReadFrame(b, cn).Some? {
        assert [f0] + (fs + [ReadFrame(b, cn).value.0]) == ([f0] + fs) + [ReadFrame(b, cn).value.0];
      }
    }
  }

  lemma {:induction false} FramesPrefix(b: seq<byte>, c: Cursor, k: nat, n: nat)
    requires k <= n && ReadFrames(b, c, n).Some?
    ensures ReadFrames(b, c, k).Some? && ReadFrames(b, c, k).value.0 == ReadFrames(b, c, n).value.0[..k]
    decreases k
  {
    hide ReadFrame;
    if k > 0 {
      FramesPrefix(b, ReadFrame(b, c).value.1, k - 1, n - 1);
    }
  }

  lemma {:induction false} TypesSnoc(b: seq<byte>, pos: nat, n: nat)
    requires ReadTypes(b, pos, n).Some?
    ensures ReadTypes(b, pos, n + 1) == match ReadType(b, ReadTypes(b, pos, n).value.1)
                                        case None => None
                                        case Some((v, q)) => Some((ReadTypes(b, pos, n).value.0 + [v], q))
    decreases n
  {
    hide ReadType;
    if n == 0 {
      assert ReadTypes(b, pos, 0) == Some(([], pos));
      if ReadType(b, pos).Some? {
        assert ReadTypes(b, ReadType(b, pos).value.1, 0) == Some(([], ReadType(b, pos).value.1));
        assert [ReadType(b, pos).value.0] + [] == [] + [ReadType(b, pos).value.0];
      }
    } else {
      var (v0, p0) := ReadType(b, pos).value;
      TypesSnoc(b, p0, n - 1);
      var (vs, pn) := ReadTypes(b, p0, n - 1).value;
      if ReadType(b, pn).Some? {
        assert [v0] + (vs + [ReadType(b, pn).value.0]) == ([v0] + vs) + [ReadType(b, pn).value.0];
      }
    }
  }

  lemma {:induction false} TypesPrefix(b: seq<byte>, pos: nat, k: nat, n: nat)
    requires k <= n && ReadTypes(b, pos, n).Some?
    ensures ReadTypes(b, pos, k).Some? && ReadTypes(b, pos, k).value.0 == ReadTypes(b, pos, n).value.0[..k]
    ensures k < n ==> ReadType(b, ReadTypes(b, pos, k).value.1).Some?
                      && ReadType(b, ReadTypes(b, pos, k).value.1).value.0 == ReadTypes(b, pos, n).value.0[k]
    decreases k
  {
    hide ReadType;
    if k > 0 {
      TypesPrefix(b, ReadType(b, pos).value.1, k - 1, n - 1);
    }
  }

  lemma {:induction false} TypesAppend(b: seq<byte>, pos: nat, k: nat, n: nat)
    requires ReadTypes(b, pos, k).Some? && ReadTypes(b, ReadTypes(b, pos, k).value.1, n).Some?
    ensures ReadTypes(b, pos, k + n) == Some((ReadTypes(b, pos, k).value.0 + ReadTypes(b, ReadTypes(b, pos, k).value.1, n).value.0,
                                              ReadTypes(b, ReadTypes(b, pos, k).value.1, n).value.1))
    decreases k
  {
    hide ReadType;
    if k > 0 {
      var (v, p) := ReadType(b, pos).value;
      TypesAppend(b, p, k - 1, n);
      var (vs, q) := ReadTypes(b, p, k - 1).value;
      assert [v] + (vs + ReadTypes(b, q, n).value.0) == ([v] + vs) + ReadTypes(b, q, n).value.0;
    } else {
      assert [] + ReadTypes(b, pos, n).value.0 == ReadTypes(b, pos, n).value.0;
    }
  }

  lemma {:induction false} TypesSuffix(b: seq<byte>, pos: nat, k: nat, n: nat)
    requires k <= n && ReadTypes(b, pos, n).Some?
    ensures ReadTypes(b, pos, k).Some?
    ensures ReadTypes(b, ReadTypes(b, pos, k).value.1, n - k) == Some((ReadTypes(b, pos, n).value.0[k..], ReadTypes(b, pos, n).value.1))
    decreases k
  {
    hide ReadType;
    if k > 0 {
      var (v, p) := ReadType(b, pos).value;
      TypesSuffix(b, p, k - 1, n - 1);
      assert ([v] + ReadTypes(b, p, n - 1).value.0)[k..] == ReadTypes(b, p, n - 1).value.0[k - 1..];
    }
  }
}

/** `rewriteStackMapTable` and `rewriteVerificationTypeInfo` of src/instrument.cpp, for a traced method. */
module StackMapRewriter {
  import opened Bytes
  import opened StackMap
  import opened StackMapFrames

  /** Full frames whose locals the 16-bit count can still count with one more. */
  predicate Countable(f: Frame) { f.full ==> |f.locals| <= 65534 }

  ghost predicate Extends(a: seq<byte>, b: seq<byte>) { |a| <= |b| && b[..|a|] == a }

  /** `b` continues `a` with the encoding of `vs`, and nothing more. */
  ghost predicate WroteTypes(a: seq<byte>, b: seq<byte>, vs: seq<VType>) {
    Extends(a, b) && ReadTypes(b, |a|, |vs|) == Some((vs, |b|))
  }

  lemma WroteNone(a: seq<byte>)
    ensures WroteTypes(a, a, [])
  {
  }

  lemma {:induction false} WroteOneMore(a: seq<byte>, b: seq<byte>, c: seq<byte>, vs: seq<VType>, v: VType)
    requires WroteTypes(a, b, vs) && Extends(b, c) && ReadType(c, |b|) == Some((v, |c|))
    ensures WroteTypes(a, c, vs + [v])
  {
    hide ReadType;
    assert c == b + c[|b|..];
    TypesExtend(b, c[|b|..], |a|, |vs|);
    TypesSnoc(c, |a|, |vs|);
    assert c[..|a|] == c[..|b|][..|a|];
  }

  lemma {:induction false} WroteBoth(a: seq<byte>, b: seq<byte>, c: seq<byte>, vs: seq<VType>, ws: seq<VType>)
    requires WroteTypes(a, b, vs) && WroteTypes(b, c, ws)
    ensures WroteTypes(a, c, vs + ws)
  {
    assert c == b + c[|b|..];
    TypesExtend(b, c[|b|..], |a|, |vs|);
    TypesAppend(c, |a|, |vs|, |ws|);
    assert c[..|a|] == c[..|b|][..|a|];
  }

  /** `b` continues `a` with the frame `f`, rewritten: behind locals `now`, that stand for those before `f`. */
  ghost predicate Wrote(a: seq<byte>, b: seq<byte>, c: Cursor, f: Frame, newOffset: int, now: seq<VType>, newLocal: byte, table: seq<u16>)
    requires |now| == |c.locals| + 1 && 0 <= f.offset < |table|
  {
    var g := FrameWith(f, NextLocals(now, c.locals, f, newLocal, table), table);
    ReadFrame(b, Cursor(|a|, newOffset, now)) == Some((g, Cursor(|b|, g.offset, g.locals)))
  }

  class TableRewriter {
    const src: seq<byte>
    var pos: nat
    var dst: seq<byte>

    constructor (table: seq<byte>)
      ensures src == table && pos == 0 && dst == []
    {
      src, pos, dst := table, 0, [];
    }

    method RewriteVerificationTypeInfo(table: seq<u16>) returns (tag: byte)
      requires ReadType(src, pos).Some? && TypesCovered([ReadType(src, pos).value.0], table)
      modifies this
      ensures var (v, p) := old(ReadType(src, pos)).value;
              && pos == p
              && Extends(old(dst), dst)
              && ReadType(dst, |old(dst)|) == Some((MovedType(v, table), |dst|))
              && (Slots(v) == if tag == ITEM_LONG || tag == ITEM_DOUBLE then 2 else 1)
    {
      ghost var v := ReadType(src, pos).value.0;
      assert [v][0] == v;
      tag := src[pos];
      ghost var a := dst;
      dst := dst + [tag];
      if tag >= 7 {
        var offset := Get16(src, pos + 1);
        if tag == 8 {
          offset := U16(offset + table[offset]);
        }
        dst := dst + Put16(offset);
        assert dst[|a| + 1..|a| + 3] == Put16(offset);
        assert Get16(dst, |a| + 1) == Get16(Put16(offset), 0) by { hide Put16; }
        pos := pos + 3;
      } else {
        pos := pos + 1;
      }
    }

    /** Rewrites `n` verification types. */
    method RewriteTypes(n: nat, table: seq<u16>)
      requires ReadTypes(src, pos, n).Some? && TypesCovered(ReadTypes(src, pos, n).value.0, table)
      modifies this
      ensures pos == old(ReadTypes(src, pos, n)).value.1
      ensures WroteTypes(old(dst), dst, MovedTypes(old(ReadTypes(src, pos, n)).value.0, table))
    {
      hide ReadType, ReadTypes, WroteTypes, MovedType;
      ghost var start, a := pos, dst;
      ghost var vs := ReadTypes(src, pos, n).value.0;
      ghost var moved := MovedTypes(vs, table);
      WroteNone(a);
      TypesPrefix(src, start, 0, n);
      ReadNone(src, start);
      var j := 0;
      while j < n
        invariant j <= n && ReadTypes(src, start, j).Some? && pos == ReadTypes(src, start, j).value.1
        invariant WroteTypes(a, dst, moved[..j])
      {
        TypesPrefix(src, start, j, n);
        TypesSnoc(src, start, j);
        ghost var b := dst;
        assert TypesCovered([vs[j]], table);
        var tag := RewriteVerificationTypeInfo(table);
        WroteOneMore(a, b, dst, moved[..j], moved[j]);
        assert moved[..j + 1] == moved[..j] + [moved[j]];
        j := j + 1;
      }
      assert moved[..n] == moved;
    }

    /** The locals of a full frame, with the new variable after the parameters. */
    method RewriteFullLocals(n: nat, table: seq<u16>, newLocal: byte) returns (ok: bool)
      requires ReadTypes(src, pos, n).Some? && TypesCovered(ReadTypes(src, pos, n).value.0, table)
      modifies this
      ensures Extends(old(dst), dst)
      ensures var ls := old(ReadTypes(src, pos, n)).value.0;
              && ok == ByteSplit(ls, newLocal, 0).Some?
              && (ok ==> WroteTypes(old(dst), dst, LongAt(ls, ByteSplit(ls, newLocal, 0).value, table)) && pos == old(ReadTypes(src, pos, n)).value.1)
    {
      hide ReadType, ReadTypes, WroteTypes, MovedType, ByteSplit, TypesCovered, Extends;
      ghost var start, a := pos, dst;
      ghost var ls := ReadTypes(src, pos, n).value.0;
      ghost var moved := MovedTypes(ls, table);
      var j, count := RewriteParameters(n, table, newLocal);
      WroteExtends(a, dst, moved[..j]);
      if count != newLocal {
        return false;
      }
      ghost var c := dst;
      dst := dst + [ITEM_LONG];
      LongWritten(c);
      WroteOneMore(a, c, dst, moved[..j], Simple(ITEM_LONG));
      ghost var d := dst;
      TypesSuffix(src, start, j, n);
      CoveredRest(ls, j, table);
      RewriteTypes(n - j, table);
      assert MovedTypes(ls[j..], table) == moved[j..];
      WroteBoth(a, d, dst, moved[..j] + [Simple(ITEM_LONG)], moved[j..]);
      WroteExtends(a, dst, LongAt(ls, j, table));
      ok := true;
    }

    /** Leading locals of a full frame, until they make up `newLocal` slots. */
    method RewriteParameters(n: nat, table: seq<u16>, newLocal: byte) returns (j: nat, count: byte)
      requires ReadTypes(src, pos, n).Some? && TypesCovered(ReadTypes(src, pos, n).value.0, table)
      modifies this
      ensures var ls := old(ReadTypes(src, pos, n)).value.0;
              && j <= n && WroteTypes(old(dst), dst, MovedTypes(ls, table)[..j])
              && old(ReadTypes(src, pos, j)).Some? && pos == old(ReadTypes(src, pos, j)).value.1
              && ByteSplit(ls, newLocal, 0) == if count == newLocal then Some(j) else None
    {
      hide ReadType, ReadTypes, WroteTypes, MovedType, ByteSplit, Extends;
      ghost var start, a := pos, dst;
      ghost var ls := ReadTypes(src, pos, n).value.0;
      ghost var moved := MovedTypes(ls, table);
      WroteNone(a);
      TypesPrefix(src, start, 0, n);
      ReadNone(src, start);
      assert ls[0..] == ls;
      j := 0;
      count := 0;
      while j < n && count < newLocal
        invariant j <= n && ReadTypes(src, start, j).Some? && pos == ReadTypes(src, start, j).value.1
        invariant WroteTypes(a, dst, moved[..j])
        invariant Counted(ls, newLocal, j, count)
      {
        TypesPrefix(src, start, j, n);
        TypesSnoc(src, start, j);
        ghost var b := dst;
        assert TypesCovered([ls[j]], table);
        CountedOn(ls, newLocal, j, count);
        var tag := RewriteVerificationTypeInfo(table);
        WroteOneMore(a, b, dst, moved[..j], moved[j]);
        assert moved[..j + 1] == moved[..j] + [moved[j]];
        count := U8(count + if tag == ITEM_LONG || tag == ITEM_DOUBLE then 2 else 1);
        j := j + 1;
      }
      CounterStep(ls[j..], newLocal, count);
    }

    /** Advances both frame offsets; returns the distance to write. */
    static method UpdateCurrentFrame(oldOffset: int, newOffset: int, delta: u16, table: seq<u16>)
      returns (oldOffset': int, newOffset': int, delta': u16)
      requires 0 <= oldOffset + delta + 1 < |table|
      ensures oldOffset' == oldOffset + delta + 1 && newOffset' == oldOffset' + table[oldOffset']
      ensures newOffset < newOffset' <= 0xFFFF && newOffset >= -1 ==> newOffset + delta' + 1 == newOffset'
    {
      oldOffset' := oldOffset + delta + 1;
      newOffset' := oldOffset' + table[oldOffset'];
      delta' := U16(newOffset' - newOffset - 1);
    }

    /** One frame of the source. */
    ghost predicate At(c: Cursor)
      reads this
    {
      c.pos == pos && ReadFrame(src, c).Some?
    }

    /** Type byte of a short frame, or its long form once the distance outgrew six bits. */
    method RewriteShortHeader(newOffset: int, oldOffset: int, table: seq<u16>) returns (oldOffset': int, newOffset': int)
      requires pos < |src| && src[pos] < 128 && -1 <= newOffset && 0 <= oldOffset + src[pos] % 64 + 1 < |table|
      requires var o := oldOffset + src[pos] % 64 + 1; newOffset < o + table[o] <= 0xFFFF
      modifies this
      ensures pos == old(pos) + 1 && oldOffset' == oldOffset + src[old(pos)] % 64 + 1 && newOffset' == oldOffset' + table[oldOffset']
      ensures Extends(old(dst), dst) && ShortHeader(old(dst), dst, src[old(pos)] > 63, newOffset' - newOffset - 1)
    {
      var frameType, frameIndex := src[pos], |dst|;
      pos := pos + 1;
      dst := dst + [frameType];
      var delta: u16;
      oldOffset', newOffset', delta := UpdateCurrentFrame(oldOffset, newOffset, frameType % 64, table);
      if delta <= 63 {
        dst := dst[frameIndex := frameType / 64 * 64 + delta];
      } else {
        dst := dst + Put16(delta);
        dst := dst[frameIndex := if frameType > 63 then 247 else 251];
        assert dst[frameIndex + 1..frameIndex + 3] == Put16(delta);
        DeltaWritten(dst, frameIndex + 1, delta);
      }
    }

    /** same_frame and same_locals_1_stack_item_frame, which may outgrow their one-byte form. */
    method RewriteShortFrame(ghost c: Cursor, ghost now: seq<VType>, newOffset: int, newLocal: byte, oldOffset: int, table: seq<u16>)
      returns (oldOffset': int, newOffset': int)
      requires At(c) && src[pos] < 128 && c.offset == oldOffset && -1 <= newOffset && |now| == |c.locals| + 1
      requires FrameCovered(ReadFrame(src, c).value.0, table)
      requires var o := ReadFrame(src, c).value.0.offset; newOffset < o + table[o]
      modifies this
      ensures var (f, c') := ReadFrame(src, c).value;
              && pos == c'.pos && oldOffset' == f.offset && newOffset' == f.offset + table[f.offset]
              && Extends(old(dst), dst) && Wrote(old(dst), dst, c, f, newOffset, now, newLocal, table)
    {
      hide ReadType, MovedType, Extends, ShortHeader, TypesCovered, MovedTypes;
      ghost var a := dst;
      ghost var f := ReadFrame(src, c).value.0;
      var frameType := src[pos];
      oldOffset', newOffset' := RewriteShortHeader(newOffset, oldOffset, table);
      ghost var b := dst;
      assert NextLocals(now, c.locals, f, newLocal, table) == now;
      if frameType > 63 {
        OneCovered(f.stack, table);
        var tag := RewriteVerificationTypeInfo(table);
        OneMoved(f.stack, table);
      } else {
        NoneMoved(table);
        ExtendsSelf(b);
      }
      ShortRead(a, b, dst, frameType > 63, newOffset' - newOffset - 1, MovedTypes(f.stack, table), newOffset, now);
    }

    /** Type byte and distance, common to all frames with an explicit distance. */
    method RewriteHeader(newOffset: int, oldOffset: int, table: seq<u16>) returns (oldOffset': int, newOffset': int)
      requires pos + 3 <= |src| && -1 <= newOffset && 0 <= oldOffset + Get16(src, pos + 1) + 1 < |table|
      requires var o := oldOffset + Get16(src, pos + 1) + 1; newOffset < o + table[o] <= 0xFFFF
      modifies this
      ensures pos == old(pos) + 3 && oldOffset' == oldOffset + Get16(src, old(pos) + 1) + 1 && newOffset' == oldOffset' + table[oldOffset']
      ensures Extends(old(dst), dst) && |dst| == |old(dst)| + 3 && dst[|old(dst)|] == src[old(pos)]
      ensures newOffset + Get16(dst, |old(dst)| + 1) + 1 == newOffset'
    {
      var delta: u16;
      dst := dst + [src[pos]];
      oldOffset', newOffset', delta := UpdateCurrentFrame(oldOffset, newOffset, Get16(src, pos + 1), table);
      dst := dst + Put16(delta);
      assert dst[|old(dst)| + 1..|old(dst)| + 3] == Put16(delta);
      DeltaWritten(dst, |old(dst)| + 1, delta);
      pos := pos + 3;
    }

    /** Frames with an explicit distance, except full frames. */
    method RewriteExtendedFrame(ghost c: Cursor, ghost now: seq<VType>, newOffset: int, newLocal: byte, oldOffset: int, table: seq<u16>)
      returns (oldOffset': int, newOffset': int)
      requires At(c) && 247 <= src[pos] < 255 && c.offset == oldOffset && -1 <= newOffset && |now| == |c.locals| + 1
      requires FrameCovered(ReadFrame(src, c).value.0, table)
      requires var o := ReadFrame(src, c).value.0.offset; newOffset < o + table[o]
      modifies this
      ensures var (f, c') := ReadFrame(src, c).value;
              && pos == c'.pos && oldOffset' == f.offset && newOffset' == f.offset + table[f.offset]
              && Extends(old(dst), dst) && Wrote(old(dst), dst, c, f, newOffset, now, newLocal, table)
    {
      hide ReadType, ReadTypes, MovedType, MovedTypes, Put16, TypesCovered, Get16;
      ghost var a := dst;
      ghost var f := ReadFrame(src, c).value.0;
      var frameType := src[pos];
      oldOffset', newOffset' := RewriteHeader(newOffset, oldOffset, table);
      ghost var b := dst;
      if frameType == 247 {
        OneCovered(f.stack, table);
        var tag := RewriteVerificationTypeInfo(table);
        HeaderKept(a, b, dst);
        OneMoved(f.stack, table);
        assert NextLocals(now, c.locals, f, newLocal, table) == now;
      } else if frameType <= 251 {
        NoneMoved(table);
        assert frameType == 251 ==> NextLocals(now, c.locals, f, newLocal, table) == now;
      } else {
        AppendCovered(c.locals, f.locals, table);
        var count := frameType - 251;
        RewriteTypes(count, table);
        HeaderKept(a, b, dst);
        NoneMoved(table);
        assert f.locals[|c.locals|..] == ReadTypes(src, c.pos + 3, count).value.0;
      }
    }

    /** Full frames; refused when the parameters do not end on a boundary between locals. */
    method RewriteFullFrame(ghost c: Cursor, ghost now: seq<VType>, newOffset: int, newLocal: byte, oldOffset: int, table: seq<u16>)
      returns (ok: bool, oldOffset': int, newOffset': int)
      requires At(c) && src[pos] == 255 && c.offset == oldOffset && -1 <= newOffset && |now| == |c.locals| + 1
      requires FrameCovered(ReadFrame(src, c).value.0, table) && Countable(ReadFrame(src, c).value.0)
      requires var o := ReadFrame(src, c).value.0.offset; newOffset < o + table[o]
      modifies this
      ensures var (f, c') := ReadFrame(src, c).value;
              && ok == ByteSplit(f.locals, newLocal, 0).Some?
              && (ok ==>
                    && pos == c'.pos && oldOffset' == f.offset && newOffset' == f.offset + table[f.offset]
                    && Extends(old(dst), dst) && Wrote(old(dst), dst, c, f, newOffset, now, newLocal, table))
    {
      hide ReadType, ReadTypes, MovedType, MovedTypes, Put16, ByteSplit, LongAt, TypesCovered, Get16;
      ghost var a := dst;
      ghost var f := ReadFrame(src, c).value.0;
      oldOffset', newOffset' := RewriteHeader(newOffset, oldOffset, table);
      ghost var b := dst;
      var count := Get16(src, pos);
      dst := dst + Put16(U16(count + 1));
      CountWritten(b, dst, count + 1);
      ghost var d := dst;
      pos := pos + 2;
      ok := RewriteFullLocals(count, table, newLocal);
      if !ok {
        return;
      }
      ghost var e := dst;
      var items := Get16(src, pos);
      dst := dst + Put16(items);
      CountWritten(e, dst, items);
      ghost var g := dst;
      pos := pos + 2;
      RewriteTypes(items, table);
      FullWritten(a, b, d, e, g, dst, NextLocals(now, c.locals, f, newLocal, table), MovedTypes(f.stack, table));
    }

    /** One frame, whatever its kind. */
    method RewriteFrame(ghost c: Cursor, ghost now: seq<VType>, newOffset: int, newLocal: byte, oldOffset: int, table: seq<u16>)
      returns (ok: bool, oldOffset': int, newOffset': int)
      requires At(c) && c.offset == oldOffset && -1 <= newOffset && |now| == |c.locals| + 1
      requires FrameCovered(ReadFrame(src, c).value.0, table) && Countable(ReadFrame(src, c).value.0)
      requires var o := ReadFrame(src, c).value.0.offset; newOffset < o + table[o]
      modifies this
      ensures var (f, c') := ReadFrame(src, c).value;
              && ok == (f.full ==> ByteSplit(f.locals, newLocal, 0).Some?)
              && (ok ==>
                    && pos == c'.pos && oldOffset' == f.offset && newOffset' == f.offset + table[f.offset]
                    && Extends(old(dst), dst) && Wrote(old(dst), dst, c, f, newOffset, now, newLocal, table))
    {
      FullKind(src, c);
      hide ReadFrame, Wrote, Extends, FrameCovered, Countable, ByteSplit;
      if src[pos] <= 127 {
        oldOffset', newOffset' := RewriteShortFrame(c, now, newOffset, newLocal, oldOffset, table);
        ok := true;
      } else if src[pos] < 255 {
        oldOffset', newOffset' := RewriteExtendedFrame(c, now, newOffset, newLocal, oldOffset, table);
        ok := true;
      } else {
        ok, oldOffset', newOffset' := RewriteFullFrame(c, now, newOffset, newLocal, oldOffset, table);
      }
    }

    /**
     The whole table. It gains a frame that introduces the new variable at offset 7, and every old frame reappears at its
     relocated offset. The variable stands after the parameters in all of them exactly if no frame cuts into the parameters.
     */
    method RewriteStackMapTable(table: seq<u16>, newLocal: byte, ghost params: seq<VType>) returns (ok: bool)
      requires pos == 0 && dst == [] && |src| >= 2 && Get16(src, 0) <= 65534 && ParamsEnd(params, newLocal)
      requires ReadFrames(src, Cursor(2, -1, params), Get16(src, 0)).Some?
      requires var fs := ReadFrames(src, Cursor(2, -1, params), Get16(src, 0)).value.0;
               Relocatable(fs, table) && forall k | 0 <= k < |fs| :: Countable(fs[k])
      modifies this
      ensures var fs := ReadFrames(src, Cursor(2, -1, params), Get16(src, 0)).value.0;
              && (ok <==> forall k | 0 <= k < |fs| :: fs[k].full ==> ByteSplit(fs[k].locals, newLocal, 0).Some?)
              && (ok ==>
                    && |dst| >= 2 && Get16(dst, 0) == Get16(src, 0) + 1
                    && ReadFrames(dst, Cursor(2, -1, params), Get16(dst, 0)).Some?
                    && var gs := ReadFrames(dst, Cursor(2, -1, params), Get16(dst, 0)).value.0;
                       && gs == [FirstFrame(params)] + Rewritten(fs, params, newLocal, table)
                       && (AllSplit(fs, newLocal) ==> gs == [FirstFrame(params)] + MovedFrames(fs, newLocal, table))
                       && (AllHaveLong(gs, newLocal) <==> AllSplit(fs, newLocal)))
    {
      hide ReadFrame, ReadFrames, Wrote, Extends, FrameCovered, Countable, Split, ByteSplit, Rewritten, NewLocals, AllSplit, Get16, Put16, ParamsEnd,
           MovedFrames, FirstFrame, Progress, AllHaveLong, Relocatable;
      ghost var start := Cursor(2, -1, params);
      var n := Get16(src, 0);
      ghost var fs := ReadFrames(src, start, n).value.0;
      pos := 2;
      dst := dst + Put16(U16(n + 1));
      dst := dst + [252] + Put16(7) + [ITEM_LONG];
      ProgressStarts(src, dst, params, fs, newLocal, table);
      var oldOffset, newOffset := -1, 7;
      var i := 0;
      while i < n
        invariant i <= n && Progress(src, dst, params, fs, i, pos, oldOffset, newOffset, newLocal, table)
        invariant forall k | 0 <= k < i :: fs[k].full ==> ByteSplit(fs[k].locals, newLocal, 0).Some?
      {
        ghost var a, before := dst, newOffset;
        ProgressAt(src, dst, params, fs, i, n, pos, oldOffset, newOffset, newLocal, table);
        ghost var c := ReadFrames(src, start, i).value.1;
        ok, oldOffset, newOffset := RewriteFrame(c, NewLocals(fs[..i], params, newLocal, table), newOffset, newLocal, oldOffset, table);
        if !ok {
          return;
        }
        ProgressOn(src, a, dst, params, fs, i, n, c, before, newOffset, newLocal, table);
        i := i + 1;
      }
      ok := true;
      TableRead(src, dst, params, fs, pos, oldOffset, newOffset, newLocal, table);
    }
  }

  /** The frame that introduces the new variable. */
  function FirstFrame(params: seq<VType>): Frame { Frame(7, params + [Simple(ITEM_LONG)], [], false) }

  ghost predicate Progress(src: seq<byte>, out: seq<byte>, params: seq<VType>, fs: seq<Frame>, i: nat, pos: nat,
                           oldOffset: int, newOffset: int, newLocal: byte, table: seq<u16>)
    requires i <= |fs| && Relocatable(fs, table)
  {
    var r := ReadFrames(src, Cursor(2, -1, params), i);
    && |src| >= 2 && |out| >= 2 && Get16(out, 0) == Get16(src, 0) + 1
    && r.Some? && r.value.0 == fs[..i] && r.value.1 == Cursor(pos, oldOffset, OldLocals(fs[..i], params))
    && newOffset == (if i == 0 then 7 else fs[i - 1].offset + table[fs[i - 1].offset])
    && ReadFrames(out, Cursor(2, -1, params), i + 1)
         == Some(([FirstFrame(params)] + Rewritten(fs[..i], params, newLocal, table),
                  Cursor(|out|, newOffset, NewLocals(fs[..i], params, newLocal, table))))
  }

  /** The finished table. */
  lemma TableRead(src: seq<byte>, out: seq<byte>, params: seq<VType>, fs: seq<Frame>, pos: nat, oldOffset: int, newOffset: int, newLocal: byte, table: seq<u16>)
    requires |src| >= 2 && Relocatable(fs, table) && ParamsEnd(params, newLocal) && |fs| == Get16(src, 0)
    requires Progress(src, out, params, fs, |fs|, pos, oldOffset, newOffset, newLocal, table)
    requires forall k | 0 <= k < |fs| :: fs[k].full ==> ByteSplit(fs[k].locals, newLocal, 0).Some?
    ensures |out| >= 2 && Get16(out, 0) == Get16(src, 0) + 1 && ReadFrames(out, Cursor(2, -1, params), Get16(out, 0)).Some?
    ensures var gs := ReadFrames(out, Cursor(2, -1, params), Get16(out, 0)).value.0;
            && gs == [FirstFrame(params)] + Rewritten(fs, params, newLocal, table)
            && (AllSplit(fs, newLocal) ==> gs == [FirstFrame(params)] + MovedFrames(fs, newLocal, table))
            && (AllHaveLong(gs, newLocal) <==> AllSplit(fs, newLocal))
  {
    hide ReadFrames, Get16, Rewritten, NewLocals, ByteSplit, ParamsEnd, Following, AllSplit, MovedFrames, AllHaveLong, FirstFrame;
    assert fs[..|fs|] == fs;
    FramesFollow(src, Cursor(2, -1, params), |fs|);
    if AllSplit(fs, newLocal) { RewrittenMoves(fs, params, newLocal, table); }
    FirstHasLong(params, Rewritten(fs, params, newLocal, table), newLocal);
    if AllHaveLong(Rewritten(fs, params, newLocal, table), newLocal) { LongNeedsParameters(fs, params, newLocal, table); }
  }

  lemma FirstHasLong(params: seq<VType>, fs: seq<Frame>, newLocal: byte)
    requires ParamsEnd(params, newLocal)
    ensures AllHaveLong([FirstFrame(params)] + fs, newLocal) <==> AllHaveLong(fs, newLocal)
  {
    hide Split;
    var gs := [FirstFrame(params)] + fs;
    SplitPrefix(params, [Simple(ITEM_LONG)], newLocal);
    assert HasLong(gs[0].locals, newLocal);
    hide HasLong;
    forall k | 0 <= k < |fs| ensures gs[k + 1] == fs[k] {}
    if AllHaveLong(gs, newLocal) {
      forall k | 0 <= k < |fs| ensures HasLong(fs[k].locals, newLocal) { assert HasLong(gs[k + 1].locals, newLocal); }
    }
  }

  lemma {:induction false} FullKind(b: seq<byte>, c: Cursor)
    requires ReadFrame(b, c).Some?
    ensures c.pos < |b| && (b[c.pos] < 128 || 247 <= b[c.pos]) && (ReadFrame(b, c).value.0.full <==> b[c.pos] == 255)
    ensures ReadFrame(b, c).value.1.offset == ReadFrame(b, c).value.0.offset
    ensures ReadFrame(b, c).value.1.locals == ReadFrame(b, c).value.0.locals
  {
    hide ReadType, ReadTypes;
  }

  lemma {:induction false} FirstRead(out: seq<byte>, params: seq<VType>)
    requires |out| == 6 && out[2] == 252 && Get16(out, 3) == 7 && out[5] == ITEM_LONG
    ensures ReadFrame(out, Cursor(2, -1, params)) == Some((FirstFrame(params), Cursor(6, 7, params + [Simple(ITEM_LONG)])))
  {
    assert ReadType(out, 5) == Some((Simple(ITEM_LONG), 6));
    ReadNone(out, 6);
    assert [Simple(ITEM_LONG)] + [] == [Simple(ITEM_LONG)];
    assert ReadTypes(out, 5, 1) == Some(([Simple(ITEM_LONG)], 6));
    hide ReadType, ReadTypes, Get16;
  }

  lemma {:induction false} ProgressStarts(src: seq<byte>, out: seq<byte>, params: seq<VType>, fs: seq<Frame>, newLocal: byte, table: seq<u16>)
    requires |src| >= 2 && Get16(src, 0) <= 65534 && Relocatable(fs, table)
    requires out == Put16(U16(Get16(src, 0) + 1)) + [252] + Put16(7) + [ITEM_LONG]
    ensures Progress(src, out, params, fs, 0, 2, -1, 7, newLocal, table)
  {
    hide ReadFrame, Put16, Relocatable, FirstFrame;
    assert out[0..2] == Put16(U16(Get16(src, 0) + 1));
    DeltaWritten(out, 0, U16(Get16(src, 0) + 1));
    assert out[3..5] == Put16(7);
    DeltaWritten(out, 3, 7);
    FirstRead(out, params);
    assert ReadFrames(src, Cursor(2, -1, params), 0) == Some(([], Cursor(2, -1, params)));
    assert fs[..0] == [];
    var c := Cursor(6, 7, params + [Simple(ITEM_LONG)]);
    assert ReadFrames(out, c, 0) == Some(([], c));
    assert ReadFrames(out, Cursor(2, -1, params), 1) == Some(([FirstFrame(params)] + [], c));
  }

  lemma {:induction false} ProgressAt(src: seq<byte>, out: seq<byte>, params: seq<VType>, fs: seq<Frame>, i: nat, n: nat, pos: nat,
                                      oldOffset: int, newOffset: int, newLocal: byte, table: seq<u16>)
    requires i < n && ReadFrames(src, Cursor(2, -1, params), n).Some? && fs == ReadFrames(src, Cursor(2, -1, params), n).value.0
    requires Relocatable(fs, table) && Progress(src, out, params, fs, i, pos, oldOffset, newOffset, newLocal, table)
    ensures ReadFrames(src, Cursor(2, -1, params), i).Some?
    ensures var c := ReadFrames(src, Cursor(2, -1, params), i).value.1;
            && c == Cursor(pos, oldOffset, OldLocals(fs[..i], params)) && ReadFrame(src, c).Some? && ReadFrame(src, c).value.0 == fs[i]
            && FrameCovered(fs[i], table) && -1 <= newOffset < fs[i].offset + table[fs[i].offset]
  {
    hide ReadFrame, ReadFrames, Rewritten, NewLocals;
    FramesPrefix(src, Cursor(2, -1, params), i + 1, n);
    FramesSnoc(src, Cursor(2, -1, params), i);
    assert fs[..i + 1][i] == fs[i];
  }

  lemma {:induction false} ProgressOn(src: seq<byte>, a: seq<byte>, out: seq<byte>, params: seq<VType>, fs: seq<Frame>, i: nat, n: nat,
                                      c: Cursor, before: int, newOffset: int, newLocal: byte, table: seq<u16>)
    requires i < n && ReadFrames(src, Cursor(2, -1, params), n).Some? && fs == ReadFrames(src, Cursor(2, -1, params), n).value.0
    requires Relocatable(fs, table) && Progress(src, a, params, fs, i, c.pos, c.offset, before, newLocal, table)
    requires c == ReadFrames(src, Cursor(2, -1, params), i).value.1 && c.locals == OldLocals(fs[..i], params)
    requires ReadFrame(src, c).Some? && ReadFrame(src, c).value.0 == fs[i]
    requires newOffset == fs[i].offset + table[fs[i].offset]
    requires Extends(a, out) && Wrote(a, out, c, fs[i], before, NewLocals(fs[..i], params, newLocal, table), newLocal, table)
    ensures Progress(src, out, params, fs, i + 1, ReadFrame(src, c).value.1.pos, fs[i].offset, newOffset, newLocal, table)
  {
    hide ReadFrame, ReadFrames, Rewritten, NewLocals, FirstFrame, Get16, Relocatable, Wrote, Extends, OldLocals;
    FrameAt(fs, i, table);
    SourceOn(src, params, fs, i, c);
    Get16Kept(a, out, 0);
    OutputOn(a, out, params, fs, i, c, before, newLocal, table);
  }

  lemma FrameAt(fs: seq<Frame>, i: nat, table: seq<u16>)
    requires Relocatable(fs, table) && i < |fs|
    ensures 0 <= fs[i].offset < |table| && Relocatable(fs[..i], table) && Relocatable(fs[..i + 1], table)
    ensures forall k | 0 <= k < |fs| :: 0 <= fs[k].offset < |table|
  {
    hide TypesCovered;
  }

  lemma SourceOn(src: seq<byte>, params: seq<VType>, fs: seq<Frame>, i: nat, c: Cursor)
    requires i < |fs| && ReadFrames(src, Cursor(2, -1, params), i) == Some((fs[..i], c))
    requires ReadFrame(src, c).Some? && ReadFrame(src, c).value.0 == fs[i]
    ensures ReadFrames(src, Cursor(2, -1, params), i + 1)
              == Some((fs[..i + 1], Cursor(ReadFrame(src, c).value.1.pos, fs[i].offset, OldLocals(fs[..i + 1], params))))
  {
    hide ReadFrame, ReadFrames;
    FramesSnoc(src, Cursor(2, -1, params), i);
    FullKind(src, c);
    assert fs[..i + 1] == fs[..i] + [fs[i]];
  }

  lemma OutputOn(a: seq<byte>, out: seq<byte>, params: seq<VType>, fs: seq<Frame>, i: nat, c: Cursor, before: int, newLocal: byte, table: seq<u16>)
    requires i < |fs| && (forall k | 0 <= k < |fs| :: 0 <= fs[k].offset < |table|) && c.locals == OldLocals(fs[..i], params)
    requires ReadFrames(a, Cursor(2, -1, params), i + 1)
               == Some(([FirstFrame(params)] + Rewritten(fs[..i], params, newLocal, table),
                        Cursor(|a|, before, NewLocals(fs[..i], params, newLocal, table))))
    requires Extends(a, out) && Wrote(a, out, c, fs[i], before, NewLocals(fs[..i], params, newLocal, table), newLocal, table)
    ensures ReadFrames(out, Cursor(2, -1, params), i + 2)
              == Some(([FirstFrame(params)] + Rewritten(fs[..i + 1], params, newLocal, table),
                       Cursor(|out|, fs[i].offset + table[fs[i].offset], NewLocals(fs[..i + 1], params, newLocal, table))))
  {
    hide ReadFrame, ReadFrames, Rewritten, NewLocals, NextLocals, FirstFrame, MovedTypes, OldLocals;
    var start := Cursor(2, -1, params);
    assert out == a + out[|a|..];
    FramesExtend(a, out[|a|..], start, i + 1);
    FramesSnoc(out, start, i + 1);
    RewrittenSnoc(fs, i, params, newLocal, table);
    var rs, g := Rewritten(fs[..i], params, newLocal, table), FrameWith(fs[i], NewLocals(fs[..i + 1], params, newLocal, table), table);
    assert [FirstFrame(params)] + (rs + [g]) == ([FirstFrame(params)] + rs) + [g];
  }

  lemma CountWritten(b: seq<byte>, d: seq<byte>, n: nat)
    requires n <= 0xFFFF && d == b + Put16(U16(n))
    ensures Extends(b, d) && |d| == |b| + 2 && Get16(d, |b|) == n
  {
    assert d[|b|..|b| + 2] == Put16(U16(n));
    DeltaWritten(d, |b|, U16(n));
  }

  lemma Get16Kept(a: seq<byte>, b: seq<byte>, p: nat)
    requires Extends(a, b) && p + 2 <= |a|
    ensures p + 2 <= |b| && Get16(b, p) == Get16(a, p)
  {
    assert b[p] == b[..|a|][p] && b[p + 1] == b[..|a|][p + 1];
  }

  /** The pieces of a full frame read back. */
  lemma {:induction false} FullWritten(a: seq<byte>, b: seq<byte>, d: seq<byte>, e: seq<byte>, g: seq<byte>, h: seq<byte>, ls: seq<VType>, vs: seq<VType>)
    requires Extends(a, b) && |b| == |a| + 3 && Extends(b, d) && |d| == |b| + 2 && Get16(d, |b|) == |ls|
    requires WroteTypes(d, e, ls) && Extends(e, g) && |g| == |e| + 2 && Get16(g, |e|) == |vs| && WroteTypes(g, h, vs)
    ensures Extends(a, h) && |b| + 2 <= |e| <= |g| <= |h| && h[|a|] == b[|a|] && Get16(h, |a| + 1) == Get16(b, |a| + 1)
    ensures Get16(h, |b|) == |ls| && ReadTypes(h, |b| + 2, |ls|) == Some((ls, |e|))
    ensures |e| + 2 <= |h| && Get16(h, |e|) == |vs| && ReadTypes(h, |e| + 2, |vs|) == Some((vs, |h|))
  {
    hide *;
    WroteExtends(d, e, ls);
    WroteExtends(g, h, vs);
    ExtendsTrans(d, e, g);
    ExtendsTrans(d, g, h);
    ExtendsTrans(e, g, h);
    ExtendsTrans(b, d, h);
    HeaderKept(a, b, h);
    Get16Kept(d, h, |b|);
    Get16Kept(g, h, |e|);
    TypesKept(e, h, |d|, |ls|);
  }

  lemma {:induction false} TypesKept(a: seq<byte>, b: seq<byte>, pos: nat, n: nat)
    requires Extends(a, b) && ReadTypes(a, pos, n).Some?
    ensures ReadTypes(b, pos, n) == ReadTypes(a, pos, n)
  {
    hide ReadTypes;
    assert b == a + b[|a|..];
    TypesExtend(a, b[|a|..], pos, n);
  }

  lemma ExtendsSelf(a: seq<byte>)
    ensures Extends(a, a)
  {
  }

  lemma ExtendsTrans(a: seq<byte>, b: seq<byte>, c: seq<byte>)
    requires Extends(a, b) && Extends(b, c)
    ensures Extends(a, c) && |a| <= |b| <= |c|
  {
    assert c[..|a|] == c[..|b|][..|a|];
  }

  /** `b` continues `a` with the header of a same-locals frame, with or without a stack item. */
  ghost predicate ShortHeader(a: seq<byte>, b: seq<byte>, item: bool, delta: int) {
    if 0 <= delta <= 63 then |b| == |a| + 1 && b[|a|] == (if item then 64 else 0) + delta
    else |b| == |a| + 3 && b[|a|] == (if item then 247 else 251) && Get16(b, |a| + 1) == delta
  }

  lemma {:induction false} ShortRead(a: seq<byte>, h: seq<byte>, b: seq<byte>, item: bool, delta: int, stack: seq<VType>, offset: int, ls: seq<VType>)
    requires Extends(a, h) && ShortHeader(a, h, item, delta) && Extends(h, b) && 0 <= delta <= 0xFFFF
    requires if item then |stack| == 1 && ReadType(b, |h|) == Some((stack[0], |b|)) else b == h && stack == []
    ensures Extends(a, b)
    ensures ReadFrame(b, Cursor(|a|, offset, ls)) == Some((Frame(offset + delta + 1, ls, stack, false), Cursor(|b|, offset + delta + 1, ls)))
  {
    hide ReadType;
    ExtendsTrans(a, h, b);
    assert b[|a|] == b[..|h|][|a|];
    if delta > 63 { Get16Kept(h, b, |a| + 1); }
    if item { assert stack == [stack[0]]; }
  }

  lemma HeaderKept(a: seq<byte>, b: seq<byte>, c: seq<byte>)
    requires Extends(a, b) && |b| == |a| + 3 && Extends(b, c)
    ensures Extends(a, c) && c[|a|] == b[|a|] && Get16(c, |a| + 1) == Get16(b, |a| + 1)
  {
    assert c[|a|] == c[..|b|][|a|] && c[|a| + 1] == c[..|b|][|a| + 1] && c[|a| + 2] == c[..|b|][|a| + 2];
    assert c[..|a|] == c[..|b|][..|a|];
  }

  lemma OneCovered(vs: seq<VType>, table: seq<u16>)
    requires TypesCovered(vs, table) && |vs| == 1
    ensures TypesCovered([vs[0]], table)
  {
  }

  lemma OneMoved(vs: seq<VType>, table: seq<u16>)
    requires |vs| == 1
    ensures MovedTypes(vs, table) == [MovedType(vs[0], table)]
  {
  }

  lemma NoneMoved(table: seq<u16>)
    ensures MovedTypes([], table) == []
  {
  }

  lemma AppendCovered(ls: seq<VType>, all: seq<VType>, table: seq<u16>)
    requires |ls| <= |all| && all[..|ls|] == ls && TypesCovered(all, table)
    ensures TypesCovered(all[|ls|..], table)
  {
  }

  lemma DeltaWritten(b: seq<byte>, p: nat, delta: u16)
    requires p + 2 <= |b| && b[p..p + 2] == Put16(delta)
    ensures Get16(b, p) == delta
  {
    hide Put16;
    assert Get16(b, p) == Get16(b[p..p + 2], 0);
  }

  /** `j` locals of `ls` have brought the counter to `count`. */
  ghost predicate Counted(ls: seq<VType>, newLocal: byte, j: nat, count: byte)
    requires j <= |ls|
  {
    ByteSplit(ls, newLocal, 0) == Later(ByteSplit(ls[j..], newLocal, count), j)
  }

  lemma {:induction false} CountedOn(ls: seq<VType>, newLocal: byte, j: nat, count: byte)
    requires j < |ls| && count < newLocal && Counted(ls, newLocal, j, count)
    ensures Counted(ls, newLocal, j + 1, U8(count + Slots(ls[j])))
  {
    hide ByteSplit;
    CounterStep(ls[j..], newLocal, count);
    assert ls[j..][1..] == ls[j + 1..];
  }

  lemma CoveredRest(ls: seq<VType>, j: nat, table: seq<u16>)
    requires j <= |ls| && TypesCovered(ls, table)
    ensures TypesCovered(ls[j..], table)
  {
  }

  lemma LongWritten(a: seq<byte>)
    ensures Extends(a, a + [ITEM_LONG]) && ReadType(a + [ITEM_LONG], |a|) == Some((Simple(ITEM_LONG), |a| + 1))
  {
  }

  lemma WroteExtends(a: seq<byte>, b: seq<byte>, vs: seq<VType>)
    requires WroteTypes(a, b, vs)
    ensures Extends(a, b) && |a| <= |b| && ReadTypes(b, |a|, |vs|) == Some((vs, |b|))
  {
  }

  lemma ReadNone(b: seq<byte>, pos: nat)
    ensures ReadTypes(b, pos, 0) == Some(([], pos))
  {
  }
}

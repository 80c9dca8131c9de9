/** `BytecodeRewriter` of src/instrument.cpp: the two scans over a method's code. */
module Rewriter {
  import opened Bytes
  import opened Jvm
  import opened Opcodes
  import opened Layout
  import opened Emission
  import opened Patching

  datatype Result = Ok | MethodTooLarge | JumpOverflow

  const MAX_CODE_LENGTH: nat := 65534

  class BytecodeRewriter {
    var dst: seq<byte>

    constructor ()
      ensures dst == []
    {
      dst := [];
    }

    /** Collects the positions of the jump distances of the instruction at `i`. */
    method CollectJumps(code: seq<byte>, i: u16, before: seq<nat>) returns (jumps: seq<nat>)
      requires |code| <= MAX_CODE_LENGTH && SwitchShape(code, i)
      ensures jumps == before + Packed(i, Sites(code, i))
    {
      hide Sites, Packed, Pack, SwitchBase, TableCount, PairCount, TableSites, LookupSites, AlignUp4, Get32;
      jumps := before;
      var op := code[i];
      if IsNarrowJump(op) || IsWideJump(op) {
        OneSite(code, i);
        jumps := jumps + [Pack(i, i + 1)];
      } else if op == TABLESWITCH {
        var d := AlignUp4(i);
        SwitchOperands(code, i);
        jumps := CollectTable(i, d, TableCount(code, d), before);
      } else if op == LOOKUPSWITCH {
        var d := AlignUp4(i);
        SwitchOperands(code, i);
        jumps := CollectPairs(i, d, U16(Get32(code, d + 4)), before);
      } else {
        NoSite(code, i);
      }
    }

    method CollectTable(i: u16, d: u16, n: nat, before: seq<nat>) returns (jumps: seq<nat>)
      ensures jumps == before + Packed(i, [d] + TableSites(d + 12, n))
    {
      jumps := before + [Pack(i, d)];
      var c := 0;
      while c < n
        invariant 0 <= c <= n
        invariant jumps == before + Packed(i, [d] + TableSites(d + 12, c))
      {
        jumps := jumps + [Pack(i, d + 12 + c * 4)];
        c := c + 1;
      }
    }

    method CollectPairs(i: u16, d: u16, n: nat, before: seq<nat>) returns (jumps: seq<nat>)
      ensures jumps == before + Packed(i, [d] + LookupSites(d + 12, n))
    {
      jumps := before + [Pack(i, d)];
      var c := 0;
      while c < n
        invariant 0 <= c <= n
        invariant jumps == before + Packed(i, [d] + LookupSites(d + 12, c))
      {
        jumps := jumps + [Pack(i, d + 12 + c * 8)];
        c := c + 1;
      }
    }

    method PutEntryCode(newLocal: byte, p: Probe)
      modifies this`dst
      ensures dst == old(dst) + EntryCode(newLocal, p)
    {
      dst := dst + [INVOKESTATIC] + Put16(p.nanoTime) + [LSTORE, newLocal] + [NOP, NOP] + [NOP];
    }

    method PutExitCode(newLocal: byte, p: Probe)
      modifies this`dst
      ensures dst == old(dst) + ExitCode(newLocal, p)
    {
      dst := dst + [LLOAD, newLocal];
      if p.latency > 0 {
        dst := dst + [LDC2_W] + Put16(p.latencyConst);
      } else {
        dst := dst + [NOP, NOP, NOP];
      }
      dst := dst + [INVOKESTATIC] + Put16(if p.latency == 0 then p.recordExit0 else p.recordExit);
    }

    /** `iload_0` to `astore_3`, just copied to the end of `dst`. */
    method MoveImplicitLocal(op: byte, newLocal: byte, ghost p: Probe) returns (grown: nat)
      requires HasImplicitLocal(op) && LocalIndex(op) >= newLocal
      requires |dst| >= 1 && dst[|dst| - 1] == op
      modifies this`dst
      ensures dst == old(dst[..|dst| - 1]) + EmitRaw([op], newLocal, p)
      ensures grown == GrowthOf(op, newLocal)
    {
      grown := 0;
      var base := if op <= ALOAD_3 then ILOAD_0 else ISTORE_0;
      var index: int := (op - base) % 4;
      assert index == LocalIndex(op);
      index := index + 2;
      if index <= 3 {
        dst := dst[|dst| - 1 := op + 2];
      } else {
        dst := dst[|dst| - 1 := base - (ILOAD_0 - ILOAD) + (op - base) / 4];
        dst := dst + [index, NOP, NOP, NOP];
        grown := 4;
      }
    }

    /** A `wide` instruction, just copied to the end of `dst`. */
    method MoveWideLocal(raw: seq<byte>, newLocal: byte, ghost p: Probe)
      requires |raw| >= 4 && raw[0] == WIDE
      requires |dst| >= |raw| && dst[|dst| - |raw|..] == raw
      modifies this`dst
      ensures dst == old(dst[..|dst| - |raw|]) + EmitRaw(raw, newLocal, p)
    {
      var bc := |raw|;
      ghost var before := dst[..|dst| - bc];
      assert dst == before + raw;
      var back := bc - 2;
      var index := Get16(raw, bc - back);
      if index >= newLocal {
        dst := Splice(dst, |dst| - back, Put16(U16(index + 2)));
        assert dst[..|before|] == before;
        assert dst[|before|..] == EmitRaw(raw, newLocal, p);
      }
    }

    /** Moves the local of the instruction `raw`, just copied to the end of `dst`. */
    method MoveLocal(raw: seq<byte>, newLocal: byte, ghost p: Probe) returns (grown: nat)
      requires LocalShape(raw) && !IsReturn(raw[0])
      requires |dst| >= |raw| && dst[|dst| - |raw|..] == raw
      modifies this`dst
      ensures dst == old(dst[..|dst| - |raw|]) + EmitRaw(raw, newLocal, p)
      ensures grown == GrowthOf(raw[0], newLocal)
    {
      var op := raw[0];
      var bc := |raw|;
      grown := 0;
      ghost var before := dst[..|dst| - bc];
      assert dst == before + raw;
      if ILOAD <= op <= ALOAD || ISTORE <= op <= ASTORE {
        var index := raw[bc - 1];
        if index >= newLocal {
          dst := dst[|dst| - 1 := U8(index + 2)];
        }
        assert dst[|before|..] == EmitRaw(raw, newLocal, p);
      } else if ILOAD_0 <= op <= ALOAD_3 || ISTORE_0 <= op <= ASTORE_3 {
        assert raw == [op];
        if LocalIndex(op) >= newLocal {
          grown := MoveImplicitLocal(op, newLocal, p);
        }
      } else if op == IINC {
        var index := raw[bc - 2];
        if index >= newLocal {
          dst := dst[|dst| - 2 := U8(index + 2)];
        }
        assert dst[|before|..] == EmitRaw(raw, newLocal, p);
      } else if op == WIDE {
        MoveWideLocal(raw, newLocal, p);
      }
    }

    /** First scan: copy the code, growing it, and note where every instruction and jump went. */
    method FirstScan(code: seq<byte>, newLocal: byte, p: Probe, relocation: array<u16>)
      returns (jumps: seq<nat>, current: u16)
      requires |code| <= MAX_CODE_LENGTH && Walks(code, 0) && relocation.Length == |code| + 1
      modifies this`dst, relocation
      ensures dst == old(dst) + EntryCode(newLocal, p) + Emit(code, newLocal, p, 0)
      ensures jumps == Jumps(code, 0)
      ensures forall s: nat | s < |code| && IsStart(code, s) :: relocation[s] == U16(Shift(code, newLocal, s))
      ensures current == U16(Shift(code, newLocal, |code|))
    {
      hide *;
      current := 8;
      PutEntryCode(newLocal, p);
      ghost var start := dst;
      jumps := [];
      var i: u16 := 0;
      ScannedFromStart(code, newLocal, p, start, relocation[..]);
      while i < |code|
        invariant i <= |code| && Scanned(code, newLocal, p, i, start, dst, jumps, current, relocation[..])
        decreases |code| - i
      {
        ScannedOnward(code, newLocal, p, i, start, dst, jumps, current, relocation[..]);
        i, jumps, current := ScanInstruction(code, newLocal, p, relocation, i, jumps, current);
      }
      ScannedToEnd(code, newLocal, p, start, dst, jumps, current, relocation[..]);
    }

    /** One turn of the first scan. */
    method ScanInstruction(code: seq<byte>, newLocal: byte, p: Probe, relocation: array<u16>, i: u16, jumps: seq<nat>, current: u16)
      returns (next: u16, jumps': seq<nat>, current': u16)
      requires |code| <= MAX_CODE_LENGTH && Decode(code, i).Some? && SwitchShape(code, i) && relocation.Length == |code| + 1
      modifies this`dst, relocation
      ensures next == i + Decode(code, i).value.len
      ensures dst == old(dst) + EmitRaw(Raw(code, i), newLocal, p)
      ensures jumps' == jumps + Packed(i, Sites(code, i))
      ensures current' == U16(current + Growth(code, newLocal, i))
      ensures relocation[..] == old(relocation[..])[i := current]
    {
      hide Decode, InstructionBytes, EmitRaw, Raw, Sites, Growth, SwitchShape, Packed;
      jumps' := CollectJumps(code, i, jumps);
      relocation[i] := current;
      var grown := CopyInstruction(code, newLocal, p, i);
      next := i + InstructionBytes(code, i);
      current' := U16(current + grown);
    }

    /** Relocates one jump of the copied code, unless its distance no longer fits. */
    method FixJump(code: seq<byte>, newLocal: byte, at: nat, jump: nat, relocation: array<u16>) returns (fits: bool)
      requires |code| <= MAX_CODE_LENGTH && Walks(code, 0)
      requires relocation.Length == |code| + 1 && TableOk(code, newLocal, relocation[..])
      requires |code| + Shift(code, newLocal, |code|) <= MAX_CODE_LENGTH
      requires JumpSite(code, Base(jump), Site(jump))
      requires |dst| == at + |code| + Shift(code, newLocal, |code|)
      requires 0 <= Image(code, newLocal, Base(jump)) < |dst| - at
      requires dst[at + Image(code, newLocal, Base(jump))] == code[Base(jump)]
      modifies this`dst
      ensures fits == Fits(code, newLocal, Base(jump), Site(jump))
      ensures |dst| == old(|dst|)
      ensures fits ==> SiteDone(code, newLocal, at, dst, Base(jump), Site(jump))
      ensures forall q | 0 <= q < |dst| && !Covers(code, newLocal, Base(jump), Site(jump), q - at) :: dst[q] == old(dst)[q]
    {
      hide Decode, Shift, IsStart, JumpSite, TableOk, Walks, Image, NewSite, NewDistance, SiteDone, Splice, Put16, Put32, Get16, Get32, U16, S16, S32;
      var base := jump % 0x1_0000;
      var site := jump / 0x1_0000;
      JumpArithmetic(code, newLocal, base, site, relocation[..]);
      NoWrap(base + relocation[base]);
      NoWrap(site + relocation[base]);
      NoWrap(base + OldDistance(code, base, site));
      SixteenBit(NewDistance(code, newLocal, base, site));
      var newBase := U16(base + relocation[base]);
      var narrow := IsNarrowJump(dst[at + newBase]);
      var oldOffset := if narrow then S16(Get16(code, site)) else S32(Get32(code, site));
      var target := U16(base + oldOffset);
      var newOffset: int := target as int + relocation[target] - newBase;
      var newSite := U16(site + relocation[base]);
      if narrow {
        if newOffset != S16(U16(newOffset)) {
          return false;
        }
        dst := Splice(dst, at + newSite, Put16(U16(newOffset)));
      } else {
        dst := Splice(dst, at + newSite, Put32(U32(newOffset)));
      }
      fits := true;
      SiteWritten(code, newLocal, at, dst, base, site);
    }

    /** Second scan: relocate the jumps of the copied code, in order, until one no longer fits. */
    method FixJumps(code: seq<byte>, newLocal: byte, ghost p: Probe, ghost start: seq<byte>, at: nat, jumps: seq<nat>, relocation: array<u16>)
      returns (res: Result)
      requires WellFormed(code) && jumps == Jumps(code, 0) && GoodJumps(code, newLocal, jumps) && at == |start|
      requires relocation.Length == |code| + 1
      requires jumps != [] ==> TableOk(code, newLocal, relocation[..]) && |code| + Shift(code, newLocal, |code|) <= MAX_CODE_LENGTH
      requires dst == start + EntryCode(newLocal, p) + Emit(code, newLocal, p, 0)
      modifies this`dst
      ensures res == Ok || res == JumpOverflow
      ensures res == Ok <==> forall j | 0 <= j < |jumps| :: Fits(code, newLocal, Base(jumps[j]), Site(jumps[j]))
      ensures res == Ok ==> Patched(code, newLocal, at, old(dst), dst, jumps, |jumps|)
      ensures jumps == [] ==> dst == old(dst)
    {
      hide Decode, Jumps, Emit, EntryCode, Shift, IsStart, TableOk, Base, Site, Walks, TargetsOk, SiteDone, Fits, OldDistance, Patched;
      var k := 0;
      ghost var first := dst;
      PatchedStart(code, newLocal, at, dst, jumps);
      while k < |jumps|
        invariant k <= |jumps| && Patched(code, newLocal, at, first, dst, jumps, k) && (k == 0 ==> dst == first)
        invariant forall j | 0 <= j < k :: Fits(code, newLocal, Base(jumps[j]), Site(jumps[j]))
      {
        ghost var before := dst;
        JumpAt(code, newLocal, jumps, k);
        OpcodeInPlace(code, newLocal, p, start, dst, k, Base(jumps[k]));
        var fits := FixJump(code, newLocal, at, jumps[k], relocation);
        if !fits {
          return JumpOverflow;
        }
        PatchedOnward(code, newLocal, at, first, before, dst, jumps, k);
        k := k + 1;
      }
      res := Ok;
    }

    /**
     Rewrites the code of a method into `dst`. Where the 16-bit relocation counter wraps, the size check goes by the wrapped
     value; code that passes it nevertheless must have no jumps, for which the second scan would use wrapped entries.
     */
    method RewriteCodeForLatency(code: seq<byte>, newLocal: byte, p: Probe, relocation: array<u16>) returns (res: Result)
      requires WellFormed(code) && relocation.Length == |code| + 1
      requires SizeCheckSound(code, newLocal) || Jumps(code, 0) == []
      modifies this`dst, relocation
      ensures res == MethodTooLarge <==> U16(Shift(code, newLocal, |code|)) > MAX_CODE_LENGTH - |code|
      ensures SizeCheckSound(code, newLocal) ==> (res == MethodTooLarge <==> Image(code, newLocal, |code|) > MAX_CODE_LENGTH)
      ensures res != MethodTooLarge ==> (res == Ok <==> AllFit(code, newLocal))
      ensures res == Ok && SizeCheckSound(code, newLocal) ==>
                && TableOk(code, newLocal, relocation[..]) && relocation[|code|] == Shift(code, newLocal, |code|)
                && |old(dst)| <= |dst| && dst[..|old(dst)|] == old(dst)
                && Copied(code, newLocal, p, dst[|old(dst)|..])
      ensures res == Ok && !SizeCheckSound(code, newLocal) ==>
                && relocation[|code|] == U16(Shift(code, newLocal, |code|)) && dst == old(dst) + EntryCode(newLocal, p) + Emit(code, newLocal, p, 0)
                && forall s: nat | s < |code| && IsStart(code, s) :: relocation[s] == U16(Shift(code, newLocal, s))
    {
      hide Decode, Jumps, Emit, EntryCode, IsStart, Base, Site, Walks, TargetsOk, SiteDone, Fits, OldDistance, GoodJumps,
           GrowthBetween, Copied, Patched;
      var at := |dst|;
      ghost var start := dst;
      var jumps, current := FirstScan(code, newLocal, p, relocation);
      if current > MAX_CODE_LENGTH - |code| {
        return MethodTooLarge;
      }
      JumpsFit(code, newLocal);
      if Shift(code, newLocal, |code|) <= 0xFFFF { NoWrapBefore(code, newLocal); }
      res := FixJumps(code, newLocal, p, start, at, jumps, relocation);
      if res == JumpOverflow {
        return;
      }
      if Shift(code, newLocal, |code|) <= 0xFFFF { ScansCopy(code, newLocal, p, start, dst); }
      relocation[|code|] := current;
    }

    /** Copies the instruction at `i`, with the exit code in front and its local moved. */
    method CopyInstruction(code: seq<byte>, newLocal: byte, p: Probe, i: u16) returns (grown: nat)
      requires |code| <= MAX_CODE_LENGTH && Decode(code, i).Some?
      modifies this`dst
      ensures dst == old(dst) + EmitRaw(Raw(code, i), newLocal, p)
      ensures grown == Growth(code, newLocal, i)
    {
      var raw := code[i..i + InstructionBytes(code, i)];
      assert raw == Raw(code, i);
      if IsReturn(code[i]) {
        PutExitCode(newLocal, p);
        dst := dst + raw;
        grown := 8;
      } else {
        dst := dst + raw;
        grown := MoveLocal(raw, newLocal, p);
      }
    }
  }

  /** The size check on the 16-bit counter says what a check on the size would say. */
  ghost predicate SizeCheckSound(code: seq<byte>, newLocal: nat) {
    var shift := Shift(code, newLocal, |code|);
    shift <= 0xFFFF || U16(shift) > MAX_CODE_LENGTH - |code|
  }

  /** Every narrow jump still reaches its target. */
  ghost predicate AllFit(code: seq<byte>, newLocal: nat)
    requires WellFormed(code)
  {
    GoodJumpsFrom(code, newLocal, 0);
    forall j | 0 <= j < |Jumps(code, 0)| :: Fits(code, newLocal, Base(Jumps(code, 0)[j]), Site(Jumps(code, 0)[j]))
  }

  lemma JumpsFit(code: seq<byte>, newLocal: nat)
    requires WellFormed(code)
    ensures GoodJumps(code, newLocal, Jumps(code, 0))
    ensures AllFit(code, newLocal) <==>
            forall j | 0 <= j < |Jumps(code, 0)| :: Fits(code, newLocal, Base(Jumps(code, 0)[j]), Site(Jumps(code, 0)[j]))
  {
    GoodJumpsFrom(code, newLocal, 0);
  }

  lemma NoWrapBefore(code: seq<byte>, newLocal: nat)
    requires WellFormed(code) && Shift(code, newLocal, |code|) <= 0xFFFF
    ensures forall s: nat | s < |code| && IsStart(code, s) :: U16(Shift(code, newLocal, s)) == Shift(code, newLocal, s)
    ensures U16(Shift(code, newLocal, |code|)) == Shift(code, newLocal, |code|)
  {
    hide Decode, TargetsOk, Shift;
    EndIsStart(code, 0);
    forall s: nat | s < |code| && IsStart(code, s)
      ensures U16(Shift(code, newLocal, s)) == Shift(code, newLocal, s)
    {
      ShiftMonotone(code, newLocal, s, |code|);
    }
  }

  /** The first scan has dealt with everything before `i`. */
  ghost predicate Scanned(code: seq<byte>, newLocal: byte, p: Probe, i: nat, start: seq<byte>,
                          out: seq<byte>, jumps: seq<nat>, current: u16, table: seq<u16>)
    requires |code| <= MAX_CODE_LENGTH && Walks(code, 0) && |table| == |code| + 1
  {
    && Walks(code, i) && IsStart(code, i)
    && out + Emit(code, newLocal, p, i) == start + Emit(code, newLocal, p, 0)
    && jumps + Jumps(code, i) == Jumps(code, 0)
    && current == U16(Shift(code, newLocal, i))
    && forall s: nat | s < i && s < |code| && IsStart(code, s) :: table[s] == U16(Shift(code, newLocal, s))
  }

  lemma ScannedFromStart(code: seq<byte>, newLocal: byte, p: Probe, start: seq<byte>, table: seq<u16>)
    requires |code| <= MAX_CODE_LENGTH && Walks(code, 0) && |table| == |code| + 1
    ensures Scanned(code, newLocal, p, 0, start, start, [], 8, table)
  {
    hide Decode;
  }

  lemma ScannedToEnd(code: seq<byte>, newLocal: byte, p: Probe, start: seq<byte>,
                     out: seq<byte>, jumps: seq<nat>, current: u16, table: seq<u16>)
    requires |code| <= MAX_CODE_LENGTH && Walks(code, 0) && |table| == |code| + 1
    requires Scanned(code, newLocal, p, |code|, start, out, jumps, current, table)
    ensures out == start + Emit(code, newLocal, p, 0)
    ensures jumps == Jumps(code, 0)
    ensures forall s: nat | s < |code| && IsStart(code, s) :: table[s] == U16(Shift(code, newLocal, s))
    ensures current == U16(Shift(code, newLocal, |code|))
  {
    hide Decode;
    assert Emit(code, newLocal, p, |code|) == [] && Jumps(code, |code|) == [];
  }

  lemma ScannedOnward(code: seq<byte>, newLocal: byte, p: Probe, i: nat, start: seq<byte>,
                      out: seq<byte>, jumps: seq<nat>, current: u16, table: seq<u16>)
    requires |code| <= MAX_CODE_LENGTH && Walks(code, 0) && |table| == |code| + 1 && i < |code|
    requires Scanned(code, newLocal, p, i, start, out, jumps, current, table)
    ensures Decode(code, i).Some? && SwitchShape(code, i)
    ensures Scanned(code, newLocal, p, i + Decode(code, i).value.len, start,
                    out + EmitRaw(Raw(code, i), newLocal, p), jumps + Packed(i, Sites(code, i)),
                    U16(current + Growth(code, newLocal, i)), table[i := current])
  {
    hide Decode, EmitRaw, Raw, Sites, SwitchShape, Growth, Shift, IsStart, U16, Packed;
    DecodedSwitchShape(code, i);
    ShiftStep(code, newLocal, i);
    AheadOf(code, i);
    WrapAdd(Shift(code, newLocal, i), Growth(code, newLocal, i));
    var next := i + Decode(code, i).value.len;
    Reassociate(out, EmitRaw(Raw(code, i), newLocal, p), Emit(code, newLocal, p, next));
    Reassociate(jumps, Packed(i, Sites(code, i)), Jumps(code, next));
  }

  lemma Reassociate<T>(a: seq<T>, b: seq<T>, c: seq<T>)
    ensures (a + b) + c == a + (b + c)
  {
  }

  /** Where and how many the operands of a switch are, in 16-bit arithmetic. */
  lemma SwitchOperands(code: seq<byte>, i: u16)
    requires |code| <= MAX_CODE_LENGTH && SwitchShape(code, i) && (code[i] == TABLESWITCH || code[i] == LOOKUPSWITCH)
    ensures AlignUp4(i) == SwitchBase(i)
    ensures code[i] == TABLESWITCH ==> Sites(code, i) == [SwitchBase(i)] + TableSites(SwitchBase(i) + 12, TableCount(code, SwitchBase(i)))
    ensures code[i] == LOOKUPSWITCH ==> U16(Get32(code, SwitchBase(i) + 4)) == PairCount(code, SwitchBase(i))
    ensures code[i] == LOOKUPSWITCH ==> Sites(code, i) == [SwitchBase(i)] + LookupSites(SwitchBase(i) + 12, PairCount(code, SwitchBase(i)))
  {
    hide Get32;
  }

  lemma OneSite(code: seq<byte>, i: u16)
    requires SwitchShape(code, i) && (IsNarrowJump(code[i]) || IsWideJump(code[i]))
    ensures Packed(i, Sites(code, i)) == [Pack(i, i + 1)]
  {
    hide SwitchShape, Pack;
  }

  lemma NoSite(code: seq<byte>, i: u16)
    requires SwitchShape(code, i) && !IsNarrowJump(code[i]) && !IsWideJump(code[i]) && code[i] != TABLESWITCH && code[i] != LOOKUPSWITCH
    ensures Packed(i, Sites(code, i)) == []
  {
    hide SwitchShape, Pack;
  }

  lemma NoWrap(x: int)
    requires 0 <= x < 0x1_0000
    ensures U16(x) == x
  {
  }

  lemma SixteenBit(x: int)
    ensures x == S16(U16(x)) <==> -0x8000 <= x < 0x8000
  {
  }

  lemma WrapAdd(a: int, b: int)
    ensures U16(U16(a) + b) == U16(a + b)
  {
  }

  /** No instruction starts strictly inside the instruction at `i`. */
  lemma AheadOf(code: seq<byte>, i: nat)
    requires IsStart(code, i) && Decode(code, i).Some?
    ensures forall s: nat | IsStart(code, s) && s < i + Decode(code, i).value.len :: s <= i
  {
    forall s: nat | IsStart(code, s) && s < i + Decode(code, i).value.len
      ensures s <= i
    {
      if i < s {
        ReachesOrder(code, 0, 0, i, s);
      }
    }
  }
}

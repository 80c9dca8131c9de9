/** `rewriteCode` of src/instrument.cpp for a traced method, and the limits of its 8- and 16-bit counters. */
module CodeAttribute {
  import opened Bytes
  import opened Jvm
  import opened Opcodes
  import opened Layout
  import opened Emission
  import opened Patching
  import opened Preservation
  import opened Rewriter
  import opened Simulation
  import opened StackMap

  /** What the rewriter demands of a method besides well-formed code. */
  ghost predicate Rewritable(m: Method, newLocal: byte) {
    && WellFormed(m.code) && HandlersOk(m.code, m.handlers)
    && m.maxStack <= 65531 && newLocal <= m.maxLocals <= 65533
    && SizeCheckSound(m.code, newLocal)
    && forall i: nat | i < |m.code| && IsStart(m.code, i) && Decode(m.code, i).Some? ::
         OperandFits(Raw(m.code, i), newLocal) && NoStraddle(Decode(m.code, i).value.instr, newLocal)
  }

  /** Relocates the exception table. */
  method RewriteHandlers(code: seq<byte>, newLocal: byte, hs: seq<Handler>, table: seq<u16>) returns (moved: seq<Handler>)
    requires WellFormed(code) && HandlersOk(code, hs)
    requires TableOk(code, newLocal, table) && table[|code|] == Shift(code, newLocal, |code|)
    requires Image(code, newLocal, |code|) <= MAX_CODE_LENGTH
    ensures moved == MovedHandlers(code, newLocal, hs)
  {
    hide Decode, IsStart, Shift, TargetsOk, Walks;
    moved := [];
    var i := 0;
    while i < |hs|
      invariant i <= |hs| && moved == MovedHandlers(code, newLocal, hs)[..i]
    {
      var h := hs[i];
      assert h in hs;
      PcMoved(code, newLocal, table, h.start);
      PcMoved(code, newLocal, table, h.end);
      PcMoved(code, newLocal, table, h.handler);
      moved := moved + [Handler(U16(h.start + table[h.start]), U16(h.end + table[h.end]), U16(h.handler + table[h.handler]), h.catchType)];
      i := i + 1;
    }
  }

  lemma PcMoved(code: seq<byte>, newLocal: byte, table: seq<u16>, pc: int)
    requires WellFormed(code) && 0 <= pc && IsStart(code, pc)
    requires TableOk(code, newLocal, table) && table[|code|] == Shift(code, newLocal, |code|)
    requires Image(code, newLocal, |code|) <= MAX_CODE_LENGTH
    ensures pc <= |code| && U16(pc + table[pc]) == Image(code, newLocal, pc)
  {
    hide Decode, Shift, TargetsOk, U16;
    WalksOn(code, 0, pc);
    EndIsStart(code, 0);
    ShiftMonotone(code, newLocal, pc, |code|);
    NoWrap(pc + table[pc]);
  }

  /**
   Rewrites a traced method. When it succeeds, the result is a rewriting in the sense of
   `Rewritten`, so it behaves as the original; it fails only when the code no longer fits.
   */
  method RewriteCode(m: Method, newLocal: byte, p: Probe) returns (res: Result, out: Method)
    requires Rewritable(m, newLocal)
    ensures res == MethodTooLarge <==> Image(m.code, newLocal, |m.code|) > MAX_CODE_LENGTH
    ensures res != MethodTooLarge ==> (res == Ok <==> AllFit(m.code, newLocal))
    ensures res == Ok ==> Rewritten(Rewrite(m, out, newLocal, p)) && out.maxLocals == m.maxLocals + 2
  {
    hide Decode, WellFormed, Shift, AllFit, Copied, HandlersOk, OperandFits, Raw, TableOk;
    out := m;
    var rewriter := new BytecodeRewriter();
    var relocation := new u16[|m.code| + 1];
    res := rewriter.RewriteCodeForLatency(m.code, newLocal, p, relocation);
    if res != Ok {
      return;
    }
    var code := rewriter.dst;
    assert rewriter.dst[0..] == code;
    var handlers := RewriteHandlers(m.code, newLocal, m.handlers, relocation[..]);
    out := Method(code, handlers, U16(m.maxStack + 4), U16(m.maxLocals + 2));
  }

  // ------------------------------------------------ where the counters give out

  /** The length written for the new code is its length exactly when the 16-bit counter did not wrap. */
  lemma WrittenLengthExact(code: seq<byte>, newLocal: byte, p: Probe)
    requires WellFormed(code)
    ensures |code| + U16(Shift(code, newLocal, |code|)) == |EntryCode(newLocal, p) + Emit(code, newLocal, p, 0)|
       <==> Shift(code, newLocal, |code|) <= 0xFFFF
  {
    hide Decode, TargetsOk;
    EmitLength(code, newLocal, p, 0);
  }

  /** The size check is right exactly when the counter did not wrap, or wrapped to a value that is refused as well. */
  lemma SizeCheckExact(code: seq<byte>, newLocal: byte)
    requires WellFormed(code)
    ensures (U16(Shift(code, newLocal, |code|)) > MAX_CODE_LENGTH - |code| <==> Image(code, newLocal, |code|) > MAX_CODE_LENGTH)
       <==> SizeCheckSound(code, newLocal)
  {
    hide WellFormed, Shift;
  }

  function Returns(n: nat): (r: seq<byte>)
    ensures |r| == n
  {
    seq(n, _ => RETURN)
  }

  lemma ReturnDecoded(n: nat, i: nat)
    requires i < n
    ensures Decode(Returns(n), i) == Some(Decoded(Return(RETURN), 1))
  {
    DecodeSlice(Returns(n), i, [RETURN]);
  }

  lemma {:induction false} ReturnsLayout(n: nat, i: nat)
    requires i <= n
    ensures Walks(Returns(n), i) && GrowthBetween(Returns(n), 0, i, n) == 8 * (n - i)
    decreases n - i
  {
    hide Decode;
    if i < n {
      ReturnDecoded(n, i);
      ReturnsLayout(n, i + 1);
    }
  }

  /** Methods of 8192 to 14562 returns pass the size check although their code outgrew the limit. */
  lemma TooLargeAccepted(n: nat)
    requires 8192 <= n <= 14562
    ensures WellFormed(Returns(n)) && !SizeCheckSound(Returns(n), 0)
    ensures !(U16(Shift(Returns(n), 0, n)) > MAX_CODE_LENGTH - n) && Image(Returns(n), 0, n) > MAX_CODE_LENGTH
  {
    hide Decode;
    var code := Returns(n);
    ReturnsLayout(n, 0);
    forall i: nat | i < |code| && IsStart(code, i) && Decode(code, i).Some?
      ensures TargetsOk(code, Targets(Decode(code, i).value.instr))
    {
      ReturnDecoded(n, i);
    }
  }

  /** A one-byte local operand names the moved variable exactly when it is at most 253 or does not move. */
  lemma OneByteOperandExact(raw: seq<byte>, newLocal: byte, p: Probe, pc: nat, at: nat, code: seq<byte>)
    requires 0 < |raw| == OpcodeLength(raw[0])
    requires ILOAD <= raw[0] <= ALOAD || ISTORE <= raw[0] <= ASTORE || raw[0] == IINC
    ensures var copy := EmitRaw(raw, newLocal, p);
            && |copy| == OpcodeLength(copy[0])
            && (DecodePlain(copy, at) == Some(MovedInstr(code, newLocal, DecodePlain(raw, pc).value)) <==> OperandFits(raw, newLocal))
  {
    hide Image;
  }

  // ------------------------------------------------ stack maps of a rewritten method

  ghost predicate TypesOk(code: seq<byte>, vs: seq<VType>) {
    forall k | 0 <= k < |vs| :: vs[k].Uninitialized? ==> vs[k].offset < |code| && IsStart(code, vs[k].offset)
  }

  /** Frames as verification admits them: at instructions, in order, naming instructions. */
  ghost predicate FramesOk(code: seq<byte>, fs: seq<Frame>) {
    && (forall k | 0 <= k < |fs| ::
          && 0 <= fs[k].offset < |code| && IsStart(code, fs[k].offset)
          && TypesOk(code, fs[k].locals) && TypesOk(code, fs[k].stack))
    && (forall k | 0 < k < |fs| :: fs[k - 1].offset < fs[k].offset)
  }

  /** The relocation table of a rewritten method moves its frames and their types to their images. */
  lemma FramesMoveToImages(code: seq<byte>, newLocal: byte, table: seq<u16>, fs: seq<Frame>)
    requires WellFormed(code) && TableOk(code, newLocal, table) && Image(code, newLocal, |code|) <= MAX_CODE_LENGTH
    requires FramesOk(code, fs)
    ensures Relocatable(fs, table)
    ensures forall k | 0 <= k < |fs| :: fs[k].offset + table[fs[k].offset] == Image(code, newLocal, fs[k].offset)
  {
    hide Decode, IsStart, Shift, TargetsOk, Walks;
    forall k | 0 <= k < |fs|
      ensures FrameCovered(fs[k], table) && 7 < fs[k].offset + table[fs[k].offset] == Image(code, newLocal, fs[k].offset)
    {
      PcCovered(code, newLocal, table, fs[k].offset);
      TypesMove(code, newLocal, table, fs[k].locals);
      TypesMove(code, newLocal, table, fs[k].stack);
    }
    forall k | 0 < k < |fs|
      ensures Image(code, newLocal, fs[k - 1].offset) < Image(code, newLocal, fs[k].offset)
    {
      ShiftMonotone(code, newLocal, fs[k - 1].offset, fs[k].offset);
    }
  }

  lemma PcCovered(code: seq<byte>, newLocal: byte, table: seq<u16>, pc: int)
    requires WellFormed(code) && TableOk(code, newLocal, table) && Image(code, newLocal, |code|) <= MAX_CODE_LENGTH
    requires 0 <= pc < |code| && IsStart(code, pc)
    ensures 7 < pc + table[pc] == Image(code, newLocal, pc) <= 0xFFFF
  {
    hide Decode, TargetsOk;
    EndIsStart(code, 0);
    ShiftMonotone(code, newLocal, pc, |code|);
  }

  lemma TypesMove(code: seq<byte>, newLocal: byte, table: seq<u16>, vs: seq<VType>)
    requires WellFormed(code) && TableOk(code, newLocal, table) && Image(code, newLocal, |code|) <= MAX_CODE_LENGTH
    requires TypesOk(code, vs)
    ensures TypesCovered(vs, table)
  {
    hide Decode, IsStart, Shift, TargetsOk, Walks, TableOk;
    TableLength(code, newLocal, table);
    forall k | 0 <= k < |vs| && vs[k].Uninitialized?
      ensures vs[k].offset < |table| && vs[k].offset + table[vs[k].offset] <= 0xFFFF
    {
      PcCovered(code, newLocal, table, vs[k].offset);
    }
  }

  lemma TableLength(code: seq<byte>, newLocal: byte, table: seq<u16>)
    requires TableOk(code, newLocal, table)
    ensures |table| == |code| + 1
  {
  }
}

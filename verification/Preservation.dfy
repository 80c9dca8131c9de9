/**
 Rewritten code decodes to the original instructions: same operation, locals moved past the new
 variable, targets moved to their images, timing code in front of every return.
 */
module Preservation {
  import opened Bytes
  import opened Jvm
  import opened Opcodes
  import opened Layout
  import opened Emission
  import opened Patching

  /** Number of a local after two slots were inserted at `newLocal`. */
  function MovedSlot(slot: nat, newLocal: nat): nat { if slot >= newLocal then slot + 2 else slot }

  function MovedTargets(code: seq<byte>, newLocal: nat, ts: seq<int>): (r: seq<int>)
    ensures |r| == |ts|
  {
    seq(|ts|, k requires 0 <= k < |ts| => Image(code, newLocal, ts[k]))
  }

  /** The instruction that must take the place of `i`. */
  function MovedInstr(code: seq<byte>, newLocal: nat, i: Instr): Instr {
    match i
    case Load(k, s) => Load(k, MovedSlot(s, newLocal))
    case Store(k, s) => Store(k, MovedSlot(s, newLocal))
    case Inc(s, d) => Inc(MovedSlot(s, newLocal), d)
    case Branch(op, t) => Branch(op, Image(code, newLocal, t))
    case Switch(d, ks, ts) => Switch(Image(code, newLocal, d), ks, MovedTargets(code, newLocal, ts))
    case Return(op) => i
    case Other(_) => i
  }

  /** The moved number of a local still fits the operand that holds it. */
  predicate OperandFits(raw: seq<byte>, newLocal: nat)
    requires LocalShape(raw)
  {
    var op := raw[0];
    && (ILOAD <= op <= ALOAD || ISTORE <= op <= ASTORE || op == IINC ==> raw[1] >= newLocal ==> raw[1] <= 253)
    && (op == WIDE ==> Get16(raw, 2) >= newLocal ==> Get16(raw, 2) <= 65533)
  }

  /** A code array that continues with the whole instruction `b` at `a` decodes to `b`. */
  lemma DecodeSlice(out: seq<byte>, a: nat, b: seq<byte>)
    requires 0 < |b| == OpcodeLength(b[0]) && a + |b| <= |out| && out[a..a + |b|] == b
    ensures Decode(out, a) == match DecodePlain(b, a) case None => None case Some(i) => Some(Decoded(i, |b|))
  {
    assert out[a] == b[0];
    hide DecodePlain;
  }

  lemma ImplicitLoad(op: byte, newLocal: byte, p: Probe, pc: nat, at: nat, code: seq<byte>)
    requires ILOAD_0 <= op <= ALOAD_3
    ensures var copy := EmitRaw([op], newLocal, p);
            var n := if Outgrows(op, newLocal) then 2 else 1;
            && n <= |copy| && n == OpcodeLength(copy[0])
            && DecodePlain([op], pc).Some?
            && DecodePlain(copy[..n], at) == Some(MovedInstr(code, newLocal, DecodePlain([op], pc).value))
            && (Outgrows(op, newLocal) ==> copy[2..] == [NOP, NOP, NOP])
  {
    hide Get16, Get32, S16, S32, S8, Image, Splice, ExitCode;
  }

  lemma ImplicitStore(op: byte, newLocal: byte, p: Probe, pc: nat, at: nat, code: seq<byte>)
    requires ISTORE_0 <= op <= ASTORE_3
    ensures var copy := EmitRaw([op], newLocal, p);
            var n := if Outgrows(op, newLocal) then 2 else 1;
            && n <= |copy| && n == OpcodeLength(copy[0])
            && DecodePlain([op], pc).Some?
            && DecodePlain(copy[..n], at) == Some(MovedInstr(code, newLocal, DecodePlain([op], pc).value))
            && (Outgrows(op, newLocal) ==> copy[2..] == [NOP, NOP, NOP])
  {
    hide Get16, Get32, S16, S32, S8, Image, Splice, ExitCode;
  }

  /** Loads and stores in all their one-byte forms, `iinc`, and everything copied verbatim. */
  lemma PlainMoved(raw: seq<byte>, newLocal: byte, p: Probe, pc: nat, at: nat, code: seq<byte>)
    requires 0 < |raw| == OpcodeLength(raw[0]) && LocalShape(raw) && OperandFits(raw, newLocal)
    requires !IsReturn(raw[0]) && !IsNarrowJump(raw[0]) && !IsWideJump(raw[0]) && raw[0] != RET
    ensures var copy := EmitRaw(raw, newLocal, p);
            var n := if Outgrows(raw[0], newLocal) then 2 else |raw|;
            && n <= |copy| && n == OpcodeLength(copy[0])
            && DecodePlain(raw, pc).Some?
            && DecodePlain(copy[..n], at) == Some(MovedInstr(code, newLocal, DecodePlain(raw, pc).value))
            && (Outgrows(raw[0], newLocal) ==> copy[2..] == [NOP, NOP, NOP])
  {
    hide Get16, Get32, S16, S32, Image, Splice;
    if HasImplicitLocal(raw[0]) {
      assert raw == [raw[0]];
      if raw[0] <= ALOAD_3 {
        ImplicitLoad(raw[0], newLocal, p, pc, at, code);
      } else {
        ImplicitStore(raw[0], newLocal, p, pc, at, code);
      }
    } else {
      var copy := EmitRaw(raw, newLocal, p);
      assert copy[..|raw|] == copy;
    }
  }

  /** What stands in the new code for the instruction at `i`, if it is not a return. */
  ghost predicate Stands(code: seq<byte>, newLocal: nat, out: seq<byte>, i: nat)
    requires i < |code| && Decode(code, i).Some?
  {
    var d := Decode(code, i).value;
    var a := Image(code, newLocal, i);
    var n := if Outgrows(code[i], newLocal) then 2 else d.len;
    && Decode(out, a) == Some(Decoded(MovedInstr(code, newLocal, d.instr), n))
    && (Outgrows(code[i], newLocal) ==>
          IsNop(out, a + 2) && IsNop(out, a + 3) && IsNop(out, a + 4))
  }

  predicate IsNop(out: seq<byte>, a: int) { Decode(out, a) == Some(Decoded(Other([0]), 1)) }

  lemma NopDecodes(out: seq<byte>, a: nat)
    requires a < |out| && out[a] == NOP
    ensures IsNop(out, a)
  {
    DecodeSlice(out, a, [NOP]);
  }

  /** Without distances of its own, an instruction is copied as the first scan left it. */
  lemma CopyInPlace(code: seq<byte>, newLocal: byte, p: Probe, out: seq<byte>, i: nat)
    requires WellFormed(code) && i < |code| && IsStart(code, i) && Decode(code, i).Some?
    requires InstrCopied(code, newLocal, p, out, i)
    requires !IsNarrowJump(code[i]) && !IsWideJump(code[i]) && code[i] != TABLESWITCH && code[i] != LOOKUPSWITCH
    ensures var copy := EmitRaw(Raw(code, i), newLocal, p);
            var a := Image(code, newLocal, i);
            0 <= a && a + |copy| <= |out| && out[a..a + |copy|] == copy
  {
    hide Decode, TargetsOk, EmitRaw, IsStart, Shift, Raw;
    DecodedSwitchShape(code, i);
    assert Sites(code, i) == [];
  }

  lemma RawDecodes(code: seq<byte>, i: nat)
    requires Decode(code, i).Some? && code[i] != WIDE && code[i] != TABLESWITCH && code[i] != LOOKUPSWITCH
    ensures |Raw(code, i)| == OpcodeLength(code[i]) && code[i] != RET && code[i] != JSR && code[i] != JSR_W
    ensures DecodePlain(Raw(code, i), i) == Some(Decode(code, i).value.instr)
  {
  }

  lemma PlainStands(code: seq<byte>, newLocal: byte, p: Probe, out: seq<byte>, i: nat)
    requires WellFormed(code) && i < |code| && IsStart(code, i) && Decode(code, i).Some?
    requires InstrCopied(code, newLocal, p, out, i) && OperandFits(Raw(code, i), newLocal)
    requires !IsReturn(code[i]) && !IsNarrowJump(code[i]) && !IsWideJump(code[i])
    requires code[i] != WIDE && code[i] != TABLESWITCH && code[i] != LOOKUPSWITCH
    ensures Stands(code, newLocal, out, i)
  {
    hide Decode, DecodePlain, EmitRaw, IsStart, Shift, Raw, OpcodeLength, OperandFits, IsNop, InstrCopied, WellFormed, LocalShape;
    var raw := Raw(code, i);
    RawDecodes(code, i);
    var a := Image(code, newLocal, i);
    CopyInPlace(code, newLocal, p, out, i);
    var copy := EmitRaw(raw, newLocal, p);
    PlainMoved(raw, newLocal, p, i, a, code);
    var n := if Outgrows(raw[0], newLocal) then 2 else |raw|;
    assert out[a..a + n] == copy[..n];
    DecodeSlice(out, a, copy[..n]);
    if Outgrows(raw[0], newLocal) {
      assert out[a + 2..a + 5] == copy[2..5] == [NOP, NOP, NOP];
      NopDecodes(out, a + 2);
      NopDecodes(out, a + 3);
      NopDecodes(out, a + 4);
    }
  }

  lemma WideStands(code: seq<byte>, newLocal: byte, p: Probe, out: seq<byte>, i: nat)
    requires WellFormed(code) && i < |code| && IsStart(code, i) && Decode(code, i).Some?
    requires InstrCopied(code, newLocal, p, out, i) && OperandFits(Raw(code, i), newLocal)
    requires code[i] == WIDE
    ensures Stands(code, newLocal, out, i)
  {
    hide InstrCopied, WellFormed, IsStart, Shift;
    var raw, a := Raw(code, i), Image(code, newLocal, i);
    CopyInPlace(code, newLocal, p, out, i);
    var copy := EmitRaw(raw, newLocal, p);
    WideMoved(code, raw, newLocal, p, i, out, a);
  }

  lemma WideMoved(code: seq<byte>, raw: seq<byte>, newLocal: byte, p: Probe, i: nat, out: seq<byte>, a: nat)
    requires DecodeWide(code, i).Some? && code[i] == WIDE && raw == code[i..i + DecodeWide(code, i).value.len] && LocalShape(raw)
    requires OperandFits(raw, newLocal)
    requires a + |raw| <= |out| && |EmitRaw(raw, newLocal, p)| == |raw| && out[a..a + |raw|] == EmitRaw(raw, newLocal, p)
    ensures DecodeWide(out, a) == Some(Decoded(MovedInstr(code, newLocal, DecodeWide(code, i).value.instr), |raw|)) && out[a] == WIDE
  {
    hide S16, Image, Splice, Put16;
    var copy := EmitRaw(raw, newLocal, p);
    assert out[a] == copy[0] && out[a + 1] == copy[1];
    assert Get16(out, a + 2) == Get16(copy, 2);
    assert Get16(raw, 2) == Get16(code, i + 2);
    if Get16(raw, 2) >= newLocal {
      var w := Put16(U16(Get16(raw, 2) + 2));
      assert copy[2..4] == w;
      assert Get16(copy, 2) == Get16(w, 0) == Get16(raw, 2) + 2;
    }
    if |raw| == 6 {
      assert Get16(out, a + 4) == Get16(copy, 4) == Get16(raw, 4) == Get16(code, i + 4);
    }
  }

  /** A jump: the opcode is where it was, and the distance now leads to the image of the target. */
  lemma BranchStands(code: seq<byte>, newLocal: byte, p: Probe, out: seq<byte>, i: nat)
    requires WellFormed(code) && i < |code| && IsStart(code, i) && Decode(code, i).Some?
    requires InstrCopied(code, newLocal, p, out, i) && (IsNarrowJump(code[i]) || IsWideJump(code[i]))
    ensures Stands(code, newLocal, out, i)
  {
    hide Decode, Raw, IsStart, Shift, TargetsOk, S16, S32, Get16, Get32, EmitRaw;
    DecodedSwitchShape(code, i);
    var raw, a := Raw(code, i), Image(code, newLocal, i);
    JumpDecodes(code, i);
    JumpVerbatim(raw, newLocal, p);
    assert Sites(code, i) == [i + 1];
    assert Sites(code, i)[0] == i + 1;
    assert SiteDone(code, newLocal, 0, out, i, i + 1);
    assert out[a + 0] == raw[0];
    JumpAt(out, a, code[i]);
  }

  lemma JumpVerbatim(raw: seq<byte>, newLocal: byte, p: Probe)
    requires LocalShape(raw) && (IsNarrowJump(raw[0]) || IsWideJump(raw[0]))
    ensures EmitRaw(raw, newLocal, p) == raw
  {
  }

  /** What a jump opcode at `a` decodes to. */
  lemma JumpAt(out: seq<byte>, a: nat, op: byte)
    requires (IsNarrowJump(op) || IsWideJump(op)) && op != JSR && op != JSR_W
    requires a + 1 + SiteWidth(op) <= |out| && out[a] == op
    ensures Decode(out, a) == Some(Decoded(Branch(op, a + if IsNarrowJump(op) then S16(Get16(out, a + 1)) else S32(Get32(out, a + 1))), 1 + SiteWidth(op)))
  {
    hide Decode, S16, S32;
    var b := out[a..a + 1 + SiteWidth(op)];
    DecodeSlice(out, a, b);
    if IsNarrowJump(op) {
      assert Get16(b, 1) == Get16(out, a + 1);
    } else {
      assert Get32(b, 1) == Get32(out, a + 1);
    }
  }

  lemma JumpDecodes(code: seq<byte>, i: nat)
    requires Decode(code, i).Some? && (IsNarrowJump(code[i]) || IsWideJump(code[i]))
    ensures i + 1 + SiteWidth(code[i]) <= |code| && Decode(code, i).value.len == 1 + SiteWidth(code[i])
    ensures Decode(code, i).value.instr == Branch(code[i], i + OldDistance(code, i, i + 1))
    ensures code[i] != JSR && code[i] != JSR_W
  {
    RawDecodes(code, i);
    hide Decode, S16, S32, Get16, Get32, DecodePlain;
    JumpAt(code, i, code[i]);
  }

  /** Four bytes of a switch that are not a distance are copied. */
  lemma SwitchField(code: seq<byte>, newLocal: byte, p: Probe, out: seq<byte>, i: nat, x: nat)
    requires WellFormed(code) && i < |code| && IsStart(code, i) && Decode(code, i).Some? && SwitchShape(code, i)
    requires InstrCopied(code, newLocal, p, out, i) && (code[i] == TABLESWITCH || code[i] == LOOKUPSWITCH)
    requires x + 4 <= Decode(code, i).value.len
    requires forall k | 0 <= k < |Sites(code, i)| :: Sites(code, i)[k] + 4 <= i + x || i + x + 4 <= Sites(code, i)[k]
    ensures 0 <= Image(code, newLocal, i) && Image(code, newLocal, i) + x + 4 <= |out|
    ensures Get32(out, Image(code, newLocal, i) + x) == Get32(code, i + x)
  {
    hide Decode, IsStart, Shift, TargetsOk, Sites, SwitchShape, InstrCopied;
    SwitchByte(code, newLocal, p, out, i, x);
    SwitchByte(code, newLocal, p, out, i, x + 1);
    SwitchByte(code, newLocal, p, out, i, x + 2);
    SwitchByte(code, newLocal, p, out, i, x + 3);
  }

  lemma SwitchByte(code: seq<byte>, newLocal: byte, p: Probe, out: seq<byte>, i: nat, x: nat)
    requires WellFormed(code) && i < |code| && IsStart(code, i) && Decode(code, i).Some? && SwitchShape(code, i)
    requires InstrCopied(code, newLocal, p, out, i) && (code[i] == TABLESWITCH || code[i] == LOOKUPSWITCH)
    requires x < Decode(code, i).value.len
    requires forall k | 0 <= k < |Sites(code, i)| :: Sites(code, i)[k] + 4 <= i + x || i + x < Sites(code, i)[k]
    ensures 0 <= Image(code, newLocal, i) && Image(code, newLocal, i) + x < |out|
    ensures out[Image(code, newLocal, i) + x] == code[i + x]
  {
    hide Decode, IsStart, Shift, TargetsOk, SiteDone, Sites, SwitchShape, JumpSite;
    var a := Image(code, newLocal, i);
    var copy := EmitRaw(Raw(code, i), newLocal, p);
    assert copy == Raw(code, i);
    assert forall k | 0 <= k < |Sites(code, i)| :: !Covers(code, newLocal, i, Sites(code, i)[k], a + x);
  }

  /** Distance number `k` of a switch leads to the image of its target. */
  lemma SwitchTargetMoved(code: seq<byte>, newLocal: byte, p: Probe, out: seq<byte>, i: nat, k: nat)
    requires WellFormed(code) && i < |code| && IsStart(code, i) && Decode(code, i).Some? && SwitchShape(code, i)
    requires InstrCopied(code, newLocal, p, out, i) && (code[i] == TABLESWITCH || code[i] == LOOKUPSWITCH)
    requires k < |Sites(code, i)| == |Targets(Decode(code, i).value.instr)|
    ensures var q := Sites(code, i)[k] + Shift(code, newLocal, i);
            q + 4 <= |out|
            && Image(code, newLocal, i) + S32(Get32(out, q)) == Image(code, newLocal, Targets(Decode(code, i).value.instr)[k])
  {
    hide Decode, IsStart, Shift, TargetsOk, Sites, SwitchShape, S32, Get32, InstrCopied, Walks, SitesMatch, Targets;
    SitesAreTargets(code, i);
    SiteAt(code, i, Sites(code, i), Targets(Decode(code, i).value.instr), Decode(code, i).value.len, k);
    SiteCopied(code, newLocal, p, out, i, k);
  }

  lemma SiteAt(code: seq<byte>, i: nat, sites: seq<nat>, targets: seq<int>, len: nat, k: nat)
    requires i + len <= |code| && len > 0 && SitesMatch(code, i, sites, targets, len) && k < |sites|
    ensures |sites| == |targets| && sites[k] + SiteWidth(code[i]) <= |code| && i + OldDistance(code, i, sites[k]) == targets[k]
  {
    hide OldDistance, SiteWidth;
  }

  lemma SiteCopied(code: seq<byte>, newLocal: byte, p: Probe, out: seq<byte>, i: nat, k: nat)
    requires WellFormed(code) && i < |code| && IsStart(code, i) && Decode(code, i).Some? && SwitchShape(code, i)
    requires InstrCopied(code, newLocal, p, out, i) && k < |Sites(code, i)|
    ensures JumpSite(code, i, Sites(code, i)[k]) && SiteDone(code, newLocal, 0, out, i, Sites(code, i)[k])
  {
    hide Decode, IsStart, Shift, TargetsOk, Sites, SwitchShape, EmitRaw, Raw, JumpSite, SiteDone, Walks;
  }

  lemma TableRebuilt(code: seq<byte>, newLocal: nat, i: nat, out: seq<byte>, sh: nat)
    requires DecodeTable(code, i).Some? && sh % 4 == 0 && Image(code, newLocal, i) == i + sh
    requires i + sh + DecodeTable(code, i).value.len <= |out|
    requires var d := SwitchBase(i); Get32(out, d + sh + 4) == Get32(code, d + 4) && Get32(out, d + sh + 8) == Get32(code, d + 8)
    requires var d := SwitchBase(i); i + sh + S32(Get32(out, d + sh)) == Image(code, newLocal, i + S32(Get32(code, d)))
    requires var d := SwitchBase(i);
             forall k | 0 <= k < |DecodeTable(code, i).value.instr.targets| ::
               i + sh + S32(Get32(out, d + sh + 12 + 4 * k)) == Image(code, newLocal, DecodeTable(code, i).value.instr.targets[k])
    ensures DecodeTable(out, i + sh) == Some(Decoded(MovedInstr(code, newLocal, DecodeTable(code, i).value.instr), DecodeTable(code, i).value.len))
  {
    hide S32, Get32, Image;
    assert SwitchBase(i + sh) == SwitchBase(i) + sh;
    assert DecodeTable(out, i + sh).value.instr == MovedInstr(code, newLocal, DecodeTable(code, i).value.instr);
  }

  lemma LookupRebuilt(code: seq<byte>, newLocal: nat, i: nat, out: seq<byte>, sh: nat)
    requires DecodeLookup(code, i).Some? && sh % 4 == 0 && Image(code, newLocal, i) == i + sh
    requires i + sh + DecodeLookup(code, i).value.len <= |out|
    requires var d := SwitchBase(i); Get32(out, d + sh + 4) == Get32(code, d + 4)
    requires var d := SwitchBase(i); i + sh + S32(Get32(out, d + sh)) == Image(code, newLocal, i + S32(Get32(code, d)))
    requires var d := SwitchBase(i);
             forall k | 0 <= k < |DecodeLookup(code, i).value.instr.targets| ::
               && i + sh + S32(Get32(out, d + sh + 12 + 8 * k)) == Image(code, newLocal, DecodeLookup(code, i).value.instr.targets[k])
               && S32(Get32(out, d + sh + 8 + 8 * k)) == DecodeLookup(code, i).value.instr.keys[k]
    ensures DecodeLookup(out, i + sh) == Some(Decoded(MovedInstr(code, newLocal, DecodeLookup(code, i).value.instr), DecodeLookup(code, i).value.len))
  {
    hide S32, Get32, Image;
    assert SwitchBase(i + sh) == SwitchBase(i) + sh;
    assert DecodeLookup(out, i + sh).value.instr == MovedInstr(code, newLocal, DecodeLookup(code, i).value.instr);
  }

  lemma TableStands(code: seq<byte>, newLocal: byte, p: Probe, out: seq<byte>, i: nat)
    requires WellFormed(code) && i < |code| && IsStart(code, i) && Decode(code, i).Some?
    requires InstrCopied(code, newLocal, p, out, i) && code[i] == TABLESWITCH
    ensures Stands(code, newLocal, out, i)
  {
    hide InstrCopied, IsStart, Shift, S32, Get32, TargetsOk, Walks, DecodeTable, Sites, Targets;
    DecodedSwitchShape(code, i);
    var a, d, sh := Image(code, newLocal, i), SwitchBase(i), Shift(code, newLocal, i);
    ShiftMonotone(code, newLocal, i, i);
    SwitchOpcode(code, newLocal, p, out, i);
    TableSitesAre(code, i);
    TableInstr(code, i);
    SwitchField(code, newLocal, p, out, i, d + 4 - i);
    SwitchField(code, newLocal, p, out, i, d + 8 - i);
    SwitchTargetMoved(code, newLocal, p, out, i, 0);
    forall k | 0 <= k < |DecodeTable(code, i).value.instr.targets|
      ensures a + S32(Get32(out, d + sh + 12 + 4 * k)) == Image(code, newLocal, DecodeTable(code, i).value.instr.targets[k])
    {
      SwitchTargetMoved(code, newLocal, p, out, i, k + 1);
    }
    TableRebuilt(code, newLocal, i, out, sh);
  }

  lemma TableInstr(code: seq<byte>, i: nat)
    requires i < |code| && Decode(code, i).Some? && code[i] == TABLESWITCH && SwitchShape(code, i)
    ensures var x := DecodeTable(code, i); var d := SwitchBase(i);
            && x.Some? && x.value.instr.Switch? && x == Decode(code, i) && i + x.value.len == d + 12 + 4 * TableCount(code, d)
            && |x.value.instr.targets| == TableCount(code, d)
            && Targets(x.value.instr) == [x.value.instr.default_] + x.value.instr.targets
            && x.value.instr.default_ == i + S32(Get32(code, d))
  {
    hide S32, Get32;
  }

  lemma SwitchOpcode(code: seq<byte>, newLocal: byte, p: Probe, out: seq<byte>, i: nat)
    requires WellFormed(code) && i < |code| && IsStart(code, i) && Decode(code, i).Some? && SwitchShape(code, i)
    requires InstrCopied(code, newLocal, p, out, i) && (code[i] == TABLESWITCH || code[i] == LOOKUPSWITCH)
    ensures var a := Image(code, newLocal, i); 0 <= a && a + Decode(code, i).value.len <= |out| && out[a] == code[i]
  {
    hide Decode, IsStart, Shift, TargetsOk, SiteDone, JumpSite;
    var a := Image(code, newLocal, i);
    assert EmitRaw(Raw(code, i), newLocal, p) == Raw(code, i);
    assert forall k | 0 <= k < |Sites(code, i)| :: !Covers(code, newLocal, i, Sites(code, i)[k], a + 0);
    assert out[a + 0] == Raw(code, i)[0];
  }

  lemma KeyMoved(code: seq<byte>, newLocal: byte, p: Probe, out: seq<byte>, i: nat, k: nat)
    requires WellFormed(code) && i < |code| && IsStart(code, i) && Decode(code, i).Some? && SwitchShape(code, i)
    requires InstrCopied(code, newLocal, p, out, i) && code[i] == LOOKUPSWITCH && k < PairCount(code, SwitchBase(i))
    ensures var q := SwitchBase(i) + Shift(code, newLocal, i) + 8 + 8 * k;
            q + 4 <= |out| && Get32(out, q) == Get32(code, SwitchBase(i) + 8 + 8 * k)
  {
    hide Decode, InstrCopied, IsStart, Shift, S32, Get32, TargetsOk, Walks, SwitchBase, PairCount;
    LookupLength(code, i);
    SwitchField(code, newLocal, p, out, i, SwitchBase(i) + 8 + 8 * k - i);
  }

  lemma LookupLength(code: seq<byte>, i: nat)
    requires Decode(code, i).Some? && code[i] == LOOKUPSWITCH && SwitchShape(code, i)
    ensures Decode(code, i).value.len == SwitchBase(i) + 8 + 8 * PairCount(code, SwitchBase(i)) - i
    ensures i < SwitchBase(i)
  {
    hide S32, Get32;
  }

  lemma LookupStands(code: seq<byte>, newLocal: byte, p: Probe, out: seq<byte>, i: nat)
    requires WellFormed(code) && i < |code| && IsStart(code, i) && Decode(code, i).Some?
    requires InstrCopied(code, newLocal, p, out, i) && code[i] == LOOKUPSWITCH
    ensures Stands(code, newLocal, out, i)
  {
    hide InstrCopied, IsStart, Shift, S32, Get32, TargetsOk, Walks, DecodeLookup, Sites, Targets;
    DecodedSwitchShape(code, i);
    var a, d, sh := Image(code, newLocal, i), SwitchBase(i), Shift(code, newLocal, i);
    ShiftMonotone(code, newLocal, i, i);
    SwitchOpcode(code, newLocal, p, out, i);
    LookupLength(code, i);
    LookupSitesAre(code, i);
    LookupInstr(code, i);
    SwitchField(code, newLocal, p, out, i, d + 4 - i);
    PairMoved(code, newLocal, p, out, i, 0);
    forall k | 0 <= k < |DecodeLookup(code, i).value.instr.targets|
      ensures a + S32(Get32(out, d + sh + 12 + 8 * k)) == Image(code, newLocal, DecodeLookup(code, i).value.instr.targets[k])
      ensures S32(Get32(out, d + sh + 8 + 8 * k)) == DecodeLookup(code, i).value.instr.keys[k]
    {
      PairMoved(code, newLocal, p, out, i, k + 1);
    }
    LookupRebuilt(code, newLocal, i, out, sh);
  }

  /** The default target of a `lookupswitch`, or its pair `k - 1`. */
  lemma PairMoved(code: seq<byte>, newLocal: byte, p: Probe, out: seq<byte>, i: nat, k: nat)
    requires WellFormed(code) && i < |code| && IsStart(code, i) && Decode(code, i).Some? && SwitchShape(code, i)
    requires InstrCopied(code, newLocal, p, out, i) && code[i] == LOOKUPSWITCH && k <= PairCount(code, SwitchBase(i))
    ensures var a, q := Image(code, newLocal, i), SwitchBase(i) + Shift(code, newLocal, i); var x := DecodeLookup(code, i);
            && x.Some? && x.value.instr.Switch? && x == Decode(code, i)
            && |x.value.instr.targets| == |x.value.instr.keys| == PairCount(code, SwitchBase(i)) && q + (if k == 0 then 4 else 8 + 8 * k) <= |out|
            && (k == 0 ==> a + S32(Get32(out, q)) == Image(code, newLocal, x.value.instr.default_))
            && (k > 0 ==> a + S32(Get32(out, q + 4 + 8 * k)) == Image(code, newLocal, x.value.instr.targets[k - 1])
                          && S32(Get32(out, q + 8 * k)) == x.value.instr.keys[k - 1])
  {
    hide InstrCopied, IsStart, Shift, S32, Get32, TargetsOk, Walks, Sites, Targets, DecodeLookup, Decode;
    LookupSitesAre(code, i);
    LookupInstr(code, i);
    SwitchTargetMoved(code, newLocal, p, out, i, k);
    if k > 0 { KeyMoved(code, newLocal, p, out, i, k - 1); }
  }

  lemma LookupInstr(code: seq<byte>, i: nat)
    requires i < |code| && Decode(code, i).Some? && code[i] == LOOKUPSWITCH && SwitchShape(code, i)
    ensures var x := DecodeLookup(code, i); var d := SwitchBase(i);
            && x.Some? && x.value.instr.Switch? && x == Decode(code, i)
            && |x.value.instr.targets| == |x.value.instr.keys| == PairCount(code, d)
            && Targets(x.value.instr) == [x.value.instr.default_] + x.value.instr.targets
            && x.value.instr.default_ == i + S32(Get32(code, d))
            && forall k | 0 <= k < |x.value.instr.keys| :: x.value.instr.keys[k] == S32(Get32(code, d + 8 + 8 * k))
  {
    hide S32, Get32;
  }

  lemma {:induction false} InstrStands(code: seq<byte>, newLocal: byte, p: Probe, out: seq<byte>, i: nat)
    requires WellFormed(code) && i < |code| && IsStart(code, i) && Decode(code, i).Some?
    requires InstrCopied(code, newLocal, p, out, i) && OperandFits(Raw(code, i), newLocal) && !IsReturn(code[i])
    ensures Stands(code, newLocal, out, i)
  {
    hide *;
    if code[i] == TABLESWITCH {
      TableStands(code, newLocal, p, out, i);
    } else if code[i] == LOOKUPSWITCH {
      LookupStands(code, newLocal, p, out, i);
    } else if code[i] == WIDE {
      WideStands(code, newLocal, p, out, i);
    } else if IsNarrowJump(code[i]) || IsWideJump(code[i]) {
      BranchStands(code, newLocal, p, out, i);
    } else {
      PlainStands(code, newLocal, p, out, i);
    }
  }

  predicate DecodesTo(out: seq<byte>, a: int, i: Instr, n: nat) { Decode(out, a) == Some(Decoded(i, n)) }

  function CallBack(idx: u16): seq<byte> { [184] + Put16(idx) }

  function Constant(idx: u16): seq<byte> { [20] + Put16(idx) }

  /** The timing code in front of a return: read the start time, pass it (and the threshold) on. */
  ghost predicate ReturnStands(code: seq<byte>, newLocal: byte, p: Probe, out: seq<byte>, i: nat)
    requires i < |code|
  {
    ReturnAt(out, Image(code, newLocal, i), newLocal, p, code[i])
  }

  /** The timing code at the entry: store the start time in the new variable. */
  ghost predicate EntryStands(newLocal: byte, p: Probe, out: seq<byte>) {
    && DecodesTo(out, 0, Other(CallBack(p.nanoTime)), 3)
    && DecodesTo(out, 3, Store(1, newLocal), 2)
    && IsNop(out, 5) && IsNop(out, 6) && IsNop(out, 7)
  }

  lemma SliceOf(out: seq<byte>, a: nat, whole: seq<byte>, x: nat, b: seq<byte>)
    requires a + |whole| <= |out| && out[a..a + |whole|] == whole && x + |b| <= |whole| && whole[x..x + |b|] == b
    ensures out[a + x..a + x + |b|] == b
  {
    forall k | 0 <= k < |b| ensures out[a + x + k] == b[k] {
      assert out[a..a + |whole|][x + k] == whole[x..x + |b|][k];
    }
  }

  /** Three-byte callbacks and constants decode as such. */
  lemma OtherDecodes(out: seq<byte>, a: nat, b: seq<byte>)
    requires |b| == 3 && (b[0] == INVOKESTATIC || b[0] == LDC2_W) && a + 3 <= |out| && out[a..a + 3] == b
    ensures DecodesTo(out, a, Other(b), 3)
  {
    DecodeSlice(out, a, b);
  }

  lemma LocalDecodes(out: seq<byte>, a: nat, op: byte, slot: byte)
    requires (op == LLOAD || op == LSTORE) && a + 2 <= |out| && out[a..a + 2] == [op, slot]
    ensures DecodesTo(out, a, if op == LLOAD then Load(1, slot) else Store(1, slot), 2)
  {
    DecodeSlice(out, a, [op, slot]);
  }

  lemma EntryDecodes(newLocal: byte, p: Probe, out: seq<byte>)
    requires |out| >= 8 && out[..8] == EntryCode(newLocal, p)
    ensures EntryStands(newLocal, p, out)
  {
    hide Decode, IsNop, DecodesTo, Put16;
    var e := EntryCode(newLocal, p);
    assert out[0..8] == e;
    SliceOf(out, 0, e, 0, CallBack(p.nanoTime));
    OtherDecodes(out, 0, CallBack(p.nanoTime));
    SliceOf(out, 0, e, 3, [LSTORE, newLocal]);
    LocalDecodes(out, 3, LSTORE, newLocal);
    assert out[5] == e[5] && out[6] == e[6] && out[7] == e[7];
    NopDecodes(out, 5);
    NopDecodes(out, 6);
    NopDecodes(out, 7);
  }

  lemma ReturnDecodes(code: seq<byte>, newLocal: byte, p: Probe, out: seq<byte>, i: nat)
    requires WellFormed(code) && i < |code| && IsStart(code, i) && Decode(code, i).Some?
    requires InstrCopied(code, newLocal, p, out, i) && IsReturn(code[i])
    ensures ReturnStands(code, newLocal, p, out, i)
  {
    hide Decode, IsNop, DecodesTo, Raw, InstrCopied, WellFormed, IsStart, Shift, EmitRaw, ReturnAt, ExitShape;
    var a, raw := Image(code, newLocal, i), Raw(code, i);
    CopyAtReturn(code, newLocal, p, out, i);
    ExitSlices(raw, newLocal, p);
    ReturnSequence(out, a, EmitRaw(raw, newLocal, p), newLocal, p, code[i]);
  }

  /** `out` decodes, from `a` on, to the timing code and the return `op`. */
  ghost predicate ReturnAt(out: seq<byte>, a: int, newLocal: byte, p: Probe, op: byte) {
    && DecodesTo(out, a, Load(1, newLocal), 2)
    && (if p.latency > 0 then DecodesTo(out, a + 2, Other(Constant(p.latencyConst)), 3)
        else IsNop(out, a + 2) && IsNop(out, a + 3) && IsNop(out, a + 4))
    && DecodesTo(out, a + 5, Other(CallBack(if p.latency == 0 then p.recordExit0 else p.recordExit)), 3)
    && DecodesTo(out, a + 8, Return(op), 1)
  }

  lemma CopyAtReturn(code: seq<byte>, newLocal: byte, p: Probe, out: seq<byte>, i: nat)
    requires WellFormed(code) && i < |code| && IsStart(code, i) && Decode(code, i).Some?
    requires InstrCopied(code, newLocal, p, out, i) && IsReturn(code[i])
    ensures var e := EmitRaw(Raw(code, i), newLocal, p);
            var a := Image(code, newLocal, i);
            0 <= a && a + |e| <= |out| && out[a..a + |e|] == e && Raw(code, i) == [code[i]]
  {
    CopyInPlace(code, newLocal, p, out, i);
  }

  lemma ExitSlices(raw: seq<byte>, newLocal: byte, p: Probe)
    requires LocalShape(raw) && IsReturn(raw[0])
    ensures ExitShape(EmitRaw(raw, newLocal, p), newLocal, p, raw[0])
  {
    hide Put16;
  }

  ghost predicate ExitShape(e: seq<byte>, newLocal: byte, p: Probe, op: byte) {
    && |e| == 9 && e[0..2] == [LLOAD, newLocal]
    && e[2..5] == (if p.latency > 0 then Constant(p.latencyConst) else [NOP, NOP, NOP])
    && e[5..8] == CallBack(if p.latency == 0 then p.recordExit0 else p.recordExit)
    && e[8..9] == [op]
  }

  lemma ReturnSequence(out: seq<byte>, a: nat, e: seq<byte>, newLocal: byte, p: Probe, op: byte)
    requires ExitShape(e, newLocal, p, op) && IsReturn(op) && a + |e| <= |out| && out[a..a + |e|] == e
    ensures ReturnAt(out, a, newLocal, p, op)
  {
    hide Decode, IsNop, DecodesTo, Put16;
    SliceOf(out, a, e, 0, [LLOAD, newLocal]);
    LocalDecodes(out, a, LLOAD, newLocal);
    if p.latency > 0 {
      SliceOf(out, a, e, 2, Constant(p.latencyConst));
      OtherDecodes(out, a + 2, Constant(p.latencyConst));
    } else {
      SliceOf(out, a, e, 2, [NOP, NOP, NOP]);
      NopsDecode(out, a + 2);
    }
    var exit := CallBack(if p.latency == 0 then p.recordExit0 else p.recordExit);
    SliceOf(out, a, e, 5, exit);
    OtherDecodes(out, a + 5, exit);
    SliceOf(out, a, e, 8, [op]);
    ReturnOpcode(out, a + 8, op);
  }

  lemma NopsDecode(out: seq<byte>, a: nat)
    requires a + 3 <= |out| && out[a..a + 3] == [NOP, NOP, NOP]
    ensures IsNop(out, a) && IsNop(out, a + 1) && IsNop(out, a + 2)
  {
    hide IsNop;
    assert out[a..a + 3][0] == out[a..a + 3][1] == out[a..a + 3][2] == NOP;
    NopDecodes(out, a);
    NopDecodes(out, a + 1);
    NopDecodes(out, a + 2);
  }

  lemma ReturnOpcode(out: seq<byte>, a: nat, op: byte)
    requires IsReturn(op) && a < |out| && out[a..a + 1] == [op]
    ensures DecodesTo(out, a, Return(op), 1)
  {
    DecodeSlice(out, a, [op]);
  }
}

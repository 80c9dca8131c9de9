/** The output of the first scan, instruction by instruction, with every C++ word size explicit. */
module Emission {
  import opened Bytes
  import opened Jvm
  import opened Opcodes
  import opened Layout

  /** Constant pool indices of the profiler's callbacks, and the latency threshold being traced. */
  datatype Probe = Probe(nanoTime: u16, recordExit: u16, recordExit0: u16, latencyConst: u16, latency: nat)

  function AlignUp4(i: u16): u16 { U16(i / 4 * 4 + 4) }

  function TableSwitchLength(d: u16, index: u16, l: int, h: int): (r: u16)
    requires index <= d && 0 <= h - l + 1 && d + 12 + 4 * (h - l + 1) <= 65534
    ensures r == d + 12 + 4 * (h - l + 1) - index
  {
    var branches: int := U16(h - l + 1);
    U16(d - index + (3 + branches) * 4)
  }

  function TableSwitchBytes(code: seq<byte>, index: u16): (r: u16)
    requires DecodeTable(code, index).Some? && |code| <= 65534
    ensures r == DecodeTable(code, index).value.len
  {
    var d := AlignUp4(index);
    assert d == SwitchBase(index);
    TableSwitchLength(d, index, S32(Get32(code, d + 4)), S32(Get32(code, d + 8)))
  }

  function LookupSwitchBytes(code: seq<byte>, index: u16): (r: u16)
    requires DecodeLookup(code, index).Some? && |code| <= 65534
    ensures r == DecodeLookup(code, index).value.len
  {
    var d := AlignUp4(index);
    assert d == SwitchBase(index);
    var npairs: int := U16(Get32(code, d + 4));
    assert npairs == S32(Get32(code, d + 4));
    U16(d - index + (npairs + 1) * 8)
  }

  /** Length of the instruction at `index`, in 16-bit arithmetic. */
  function InstructionBytes(code: seq<byte>, index: u16): (r: u16)
    requires Decode(code, index).Some? && |code| <= 65534
    ensures r == Decode(code, index).value.len
  {
    var op := code[index];
    if op == WIDE then
      if code[index + 1] == IINC then 6 else 4
    else if op == TABLESWITCH then TableSwitchBytes(code, index)
    else if op == LOOKUPSWITCH then LookupSwitchBytes(code, index)
    else
      LengthsAgree(op);
      TableLength(op)
  }

  lemma LowRowAgrees(r: nat, k: nat)
    requires r < 9 && k < |LengthRow(r)| && OpcodeLength(10 * r + k) > 0
    ensures LengthRow(r)[k] == OpcodeLength(10 * r + k)
  {
  }

  lemma MiddleRowAgrees(r: nat, k: nat)
    requires 9 <= r < 17 && k < |LengthRow(r)| && OpcodeLength(10 * r + k) > 0
    ensures LengthRow(r)[k] == OpcodeLength(10 * r + k)
  {
  }

  lemma HighRowAgrees(r: nat, k: nat)
    requires 17 <= r <= 20 && k < |LengthRow(r)| && OpcodeLength(10 * r + k) > 0
    ensures LengthRow(r)[k] == OpcodeLength(10 * r + k)
  {
  }

  /** The table of lengths says of every opcode, apart from the three of variable length, what its operands take. */
  lemma LengthsAgree(op: byte)
    requires op <= 201 && OpcodeLength(op) > 0
    ensures TableLength(op) == OpcodeLength(op)
  {
    hide LengthRow, OpcodeLength;
    if op < 90 { LowRowAgrees(op / 10, op % 10); } else if op < 170 { MiddleRowAgrees(op / 10, op % 10); } else { HighRowAgrees(op / 10, op % 10); }
  }

  predicate IsNarrowJump(op: byte) { IFEQ <= op <= JSR || op == IFNULL || op == IFNONNULL || op == GOTO }

  predicate IsWideJump(op: byte) { op == GOTO_W || op == JSR_W }

  /** A one-byte local index after the move; it wraps for the last two indices. */
  function Moved8(index: byte, newLocal: byte): byte {
    if index >= newLocal then U8(index + 2) else index
  }

  function EntryCode(newLocal: byte, p: Probe): (r: seq<byte>)
    ensures |r| == 8
  {
    [INVOKESTATIC] + Put16(p.nanoTime) + [LSTORE, newLocal, NOP, NOP, NOP]
  }

  function ExitCode(newLocal: byte, p: Probe): (r: seq<byte>)
    ensures |r| == 8
  {
    [LLOAD, newLocal]
    + (if p.latency > 0 then [LDC2_W] + Put16(p.latencyConst) else [NOP, NOP, NOP])
    + [INVOKESTATIC] + Put16(if p.latency == 0 then p.recordExit0 else p.recordExit)
  }

  /** `raw` has the length its opcode demands, as far as local variables and returns go. */
  predicate LocalShape(raw: seq<byte>) {
    |raw| > 0
    && (ILOAD <= raw[0] <= ALOAD || ISTORE <= raw[0] <= ASTORE ==> |raw| == 2)
    && (HasImplicitLocal(raw[0]) || IsReturn(raw[0]) ==> |raw| == 1)
    && (raw[0] == IINC ==> |raw| == 3)
    && (raw[0] == WIDE ==> |raw| >= 4)
  }

  /** What the first scan appends for an instruction with the bytes `raw`. */
  function EmitRaw(raw: seq<byte>, newLocal: byte, p: Probe): (r: seq<byte>)
    requires LocalShape(raw)
    ensures |r| == |raw| + GrowthOf(raw[0], newLocal)
  {
    var op := raw[0];
    if IsReturn(op) then ExitCode(newLocal, p) + raw
    else if ILOAD <= op <= ALOAD || ISTORE <= op <= ASTORE then [op, Moved8(raw[1], newLocal)]
    else if HasImplicitLocal(op) && LocalIndex(op) >= newLocal then
      var base := if op <= ALOAD_3 then ILOAD_0 else ISTORE_0;
      if LocalIndex(op) + 2 <= 3 then [op + 2]
      else [base - (ILOAD_0 - ILOAD) + (op - base) / 4, LocalIndex(op) + 2, NOP, NOP, NOP]
    else if op == IINC then [op, Moved8(raw[1], newLocal), raw[2]]
    else if op == WIDE && Get16(raw, 2) >= newLocal then Splice(raw, 2, Put16(U16(Get16(raw, 2) + 2)))
    else raw
  }

  function Raw(code: seq<byte>, i: nat): (r: seq<byte>)
    requires Decode(code, i).Some?
    ensures |r| == Decode(code, i).value.len && r[0] == code[i]
    ensures LocalShape(r)
  {
    code[i..i + Decode(code, i).value.len]
  }

  function Emit(code: seq<byte>, newLocal: byte, p: Probe, i: nat): (r: seq<byte>)
    requires Walks(code, i)
    decreases |code| - i
  {
    if i == |code| then []
    else EmitRaw(Raw(code, i), newLocal, p) + Emit(code, newLocal, p, i + Decode(code, i).value.len)
  }

  function TableCount(code: seq<byte>, d: nat): int
    requires d + 12 <= |code|
  {
    S32(Get32(code, d + 8)) - S32(Get32(code, d + 4)) + 1
  }

  function PairCount(code: seq<byte>, d: nat): int
    requires d + 8 <= |code|
  {
    S32(Get32(code, d + 4))
  }

  /** The operands of a switch at `i` lie within the code. */
  predicate SwitchShape(code: seq<byte>, i: nat) {
    i < |code|
    && (code[i] == TABLESWITCH ==>
          SwitchBase(i) + 12 <= |code| && 0 <= TableCount(code, SwitchBase(i)) <= 0xFFFF
          && SwitchBase(i) + 12 + 4 * TableCount(code, SwitchBase(i)) <= |code|)
    && (code[i] == LOOKUPSWITCH ==>
          SwitchBase(i) + 8 <= |code| && 0 <= PairCount(code, SwitchBase(i)) <= 0xFFFF
          && SwitchBase(i) + 8 + 8 * PairCount(code, SwitchBase(i)) <= |code|)
  }

  lemma DecodedSwitchShape(code: seq<byte>, i: nat)
    requires Decode(code, i).Some? && |code| <= 65534
    ensures SwitchShape(code, i)
  {
  }

  /** Offsets, in the old code, of the jump distances inside the instruction at `i`. */
  function Sites(code: seq<byte>, i: nat): seq<nat>
    requires SwitchShape(code, i)
  {
    var op := code[i];
    var d := SwitchBase(i);
    if IsNarrowJump(op) || IsWideJump(op) then [i + 1]
    else if op == TABLESWITCH then [d] + TableSites(d + 12, TableCount(code, d))
    else if op == LOOKUPSWITCH then [d] + LookupSites(d + 12, PairCount(code, d))
    else []
  }

  function TableSites(first: nat, n: nat): seq<nat> { seq(n, k requires 0 <= k < n => first + 4 * k) }

  function LookupSites(first: nat, n: nat): seq<nat> { seq(n, k requires 0 <= k < n => first + 8 * k) }

  /** A jump as the rewriter packs it: offset of the distance above, pc of the instruction below. */
  function Pack(base: nat, site: nat): nat { site * 0x1_0000 + base }

  function Packed(base: nat, sites: seq<nat>): (r: seq<nat>)
    ensures |r| == |sites|
  {
    seq(|sites|, k requires 0 <= k < |sites| => Pack(base, sites[k]))
  }

  function Jumps(code: seq<byte>, i: nat): seq<nat>
    requires Walks(code, i) && |code| <= 65534
    decreases |code| - i
  {
    if i == |code| then []
    else
      DecodedSwitchShape(code, i);
      Packed(i, Sites(code, i)) + Jumps(code, i + Decode(code, i).value.len)
  }
}

/**
 The bytecode rewriter of src/instrument.cpp: timing code at the entry and before every return of
 a method, locals from `start_time_loc_index` on moved up by two slots, jumps relocated.
 `BytecodeRewriter` is the code; `Layout` says where everything goes.
 */
module Layout {
  import opened Bytes
  import opened Jvm
  import opened Opcodes

  /** The code array is a whole number of decodable instructions from `i` on. */
  predicate Walks(code: seq<byte>, i: nat)
    decreases |code| - i
  {
    i == |code| ||
    (i < |code| && Decode(code, i).Some? && Walks(code, i + Decode(code, i).value.len))
  }

  /** Walking instruction by instruction from `from` arrives at `i`. */
  predicate Reaches(code: seq<byte>, from: nat, i: int)
    decreases |code| - from
  {
    if from >= i || from >= |code| || Decode(code, from).None? then from == i
    else Reaches(code, from + Decode(code, from).value.len, i)
  }

  /** `i` is the pc of an instruction, or the end of the code. */
  predicate IsStart(code: seq<byte>, i: int) { Reaches(code, 0, i) }

  function LocalIndex(op: byte): nat
    requires ILOAD_0 <= op <= ALOAD_3 || ISTORE_0 <= op <= ASTORE_3
  {
    (if op <= ALOAD_3 then op - ILOAD_0 else op - ISTORE_0) % 4
  }

  predicate HasImplicitLocal(op: byte) { ILOAD_0 <= op <= ALOAD_3 || ISTORE_0 <= op <= ASTORE_3 }

  predicate IsReturn(op: byte) { IRETURN <= op <= RETURN }

  /** The short form of this load or store cannot name the moved local. */
  predicate Outgrows(op: byte, newLocal: nat) {
    HasImplicitLocal(op) && LocalIndex(op) >= newLocal && LocalIndex(op) >= 2
  }

  /** Bytes an instruction gains. */
  function GrowthOf(op: byte, newLocal: nat): nat {
    if IsReturn(op) then 8 else if Outgrows(op, newLocal) then 4 else 0
  }

  function Growth(code: seq<byte>, newLocal: nat, i: nat): nat
    requires i < |code|
  {
    GrowthOf(code[i], newLocal)
  }

  function GrowthBetween(code: seq<byte>, newLocal: nat, from: nat, i: int): nat
    decreases |code| - from
  {
    if from >= i || from >= |code| || Decode(code, from).None? then 0
    else Growth(code, newLocal, from) + GrowthBetween(code, newLocal, from + Decode(code, from).value.len, i)
  }

  /** How far the instruction at `i` moves, computed without any word size. */
  function Shift(code: seq<byte>, newLocal: nat, i: int): nat {
    8 + GrowthBetween(code, newLocal, 0, i)
  }

  /** Where the instruction at `i` ends up. */
  function Image(code: seq<byte>, newLocal: nat, i: int): int {
    i + Shift(code, newLocal, i)
  }

  lemma {:induction false} ReachesStep(code: seq<byte>, newLocal: nat, from: nat, i: nat)
    requires Reaches(code, from, i) && Decode(code, i).Some?
    ensures Reaches(code, from, i + Decode(code, i).value.len)
    ensures GrowthBetween(code, newLocal, from, i + Decode(code, i).value.len)
         == GrowthBetween(code, newLocal, from, i) + Growth(code, newLocal, i)
    decreases |code| - from
  {
    hide Decode;
    var next := i + Decode(code, i).value.len;
    if from == i {
      assert Reaches(code, next, next);
      assert GrowthBetween(code, newLocal, next, next) == 0;
    } else {
      ReachesStep(code, newLocal, from + Decode(code, from).value.len, i);
    }
  }

  lemma {:induction false} ReachesOrder(code: seq<byte>, newLocal: nat, from: nat, i: nat, j: nat)
    requires Reaches(code, from, i) && Reaches(code, from, j) && i < j
    ensures i < |code| && Decode(code, i).Some? && i + Decode(code, i).value.len <= j
    ensures GrowthBetween(code, newLocal, from, i) + Growth(code, newLocal, i) <= GrowthBetween(code, newLocal, from, j)
    decreases |code| - from
  {
    hide Decode;
    if from == i {
      if Decode(code, i).Some? && i < |code| {
        ReachesForward(code, i + Decode(code, i).value.len, j);
      }
    } else {
      ReachesOrder(code, newLocal, from + Decode(code, from).value.len, i, j);
    }
  }

  lemma {:induction false} ReachesForward(code: seq<byte>, from: nat, i: int)
    requires Reaches(code, from, i)
    ensures from <= i
    decreases |code| - from
  {
    hide Decode;
    if from != i {
      ReachesForward(code, from + Decode(code, from).value.len, i);
    }
  }

  lemma {:induction false} GrowthAligned(code: seq<byte>, newLocal: nat, from: nat, i: int)
    ensures GrowthBetween(code, newLocal, from, i) % 4 == 0
    decreases |code| - from
  {
    hide Decode;
    if from >= i || from >= |code| || Decode(code, from).None? {
    } else {
      GrowthAligned(code, newLocal, from + Decode(code, from).value.len, i);
    }
  }

  /** A pc that walking from the start reaches still has the rest of the walk ahead of it. */
  lemma {:induction false} WalksOn(code: seq<byte>, from: nat, i: nat)
    requires Walks(code, from) && Reaches(code, from, i)
    ensures Walks(code, i) && i <= |code|
    decreases |code| - from
  {
    hide Decode;
    if from < i {
      WalksOn(code, from + Decode(code, from).value.len, i);
    }
  }

  /** Relocation moves instructions apart, never past each other, and in whole words. */
  lemma ShiftMonotone(code: seq<byte>, newLocal: nat, i: nat, j: nat)
    requires IsStart(code, i) && IsStart(code, j)
    ensures i <= j ==> Shift(code, newLocal, i) <= Shift(code, newLocal, j)
    ensures i < j <==> Image(code, newLocal, i) < Image(code, newLocal, j)
    ensures i < j ==>
              && i < |code| && Decode(code, i).Some?
              && Image(code, newLocal, i) + Decode(code, i).value.len + Growth(code, newLocal, i) <= Image(code, newLocal, j)
    ensures Shift(code, newLocal, i) % 4 == 0
  {
    hide Decode;
    if i < j { ReachesOrder(code, newLocal, 0, i, j); }
    if j < i { ReachesOrder(code, newLocal, 0, j, i); }
    GrowthAligned(code, newLocal, 0, i);
  }

  lemma ShiftStep(code: seq<byte>, newLocal: nat, i: nat)
    requires IsStart(code, i) && Decode(code, i).Some?
    ensures IsStart(code, i + Decode(code, i).value.len)
    ensures Shift(code, newLocal, i + Decode(code, i).value.len)
         == Shift(code, newLocal, i) + Growth(code, newLocal, i)
  {
    ReachesStep(code, newLocal, 0, i);
  }

  /**
   An old pc lies in an exception range, or in the range of a local variable, exactly when its
   image lies in the relocated range.
   */
  lemma RangePreserved(code: seq<byte>, newLocal: nat, start: nat, end: nat, pc: nat)
    requires IsStart(code, start) && IsStart(code, end) && IsStart(code, pc)
    ensures start <= pc < end
       <==> Image(code, newLocal, start) <= Image(code, newLocal, pc) < Image(code, newLocal, end)
  {
    ShiftMonotone(code, newLocal, start, pc);
    ShiftMonotone(code, newLocal, pc, start);
    ShiftMonotone(code, newLocal, pc, end);
  }
}

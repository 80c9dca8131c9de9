/** The opcodes that the rewriter of src/instrument.cpp knows by name, and its table of instruction lengths. */
module Opcodes {
  import opened Bytes

  const NOP: byte := 0
  const LDC2_W: byte := 20
  const ILOAD: byte := 21
  const LLOAD: byte := 22
  const ALOAD: byte := 25
  const ILOAD_0: byte := 26
  const ALOAD_3: byte := 45
  const ISTORE: byte := 54
  const LSTORE: byte := 55
  const ASTORE: byte := 58
  const ISTORE_0: byte := 59
  const ASTORE_3: byte := 78
  const IINC: byte := 132
  const IFEQ: byte := 153
  const GOTO: byte := 167
  const JSR: byte := 168
  const RET: byte := 169
  const TABLESWITCH: byte := 170
  const LOOKUPSWITCH: byte := 171
  const IRETURN: byte := 172
  const RETURN: byte := 177
  const INVOKESTATIC: byte := 184
  const WIDE: byte := 196
  const IFNULL: byte := 198
  const IFNONNULL: byte := 199
  const GOTO_W: byte := 200
  const JSR_W: byte := 201

  /** `JVM_OPCODE_LENGTH_INITIALIZER`, ten opcodes a row; the lengths of the two switches and of `wide` are not used. */
  function LengthRow(r: nat): (row: seq<u16>)
    requires r <= 20
    ensures |row| == if r == 20 then 2 else 10
  {
    match r
    case 0 => [1, 1, 1, 1, 1, 1, 1, 1, 1, 1]
    case 1 => [1, 1, 1, 1, 1, 1, 2, 3, 2, 3]
    case 2 => [3, 2, 2, 2, 2, 2, 1, 1, 1, 1]
    case 3 => [1, 1, 1, 1, 1, 1, 1, 1, 1, 1]
    case 4 => [1, 1, 1, 1, 1, 1, 1, 1, 1, 1]
    case 5 => [1, 1, 1, 1, 2, 2, 2, 2, 2, 1]
    case 6 => [1, 1, 1, 1, 1, 1, 1, 1, 1, 1]
    case 7 => [1, 1, 1, 1, 1, 1, 1, 1, 1, 1]
    case 8 => [1, 1, 1, 1, 1, 1, 1, 1, 1, 1]
    case 9 => [1, 1, 1, 1, 1, 1, 1, 1, 1, 1]
    case 10 => [1, 1, 1, 1, 1, 1, 1, 1, 1, 1]
    case 11 => [1, 1, 1, 1, 1, 1, 1, 1, 1, 1]
    case 12 => [1, 1, 1, 1, 1, 1, 1, 1, 1, 1]
    case 13 => [1, 1, 3, 1, 1, 1, 1, 1, 1, 1]
    case 14 => [1, 1, 1, 1, 1, 1, 1, 1, 1, 1]
    case 15 => [1, 1, 1, 3, 3, 3, 3, 3, 3, 3]
    case 16 => [3, 3, 3, 3, 3, 3, 3, 3, 3, 2]
    case 17 => [99, 99, 1, 1, 1, 1, 1, 1, 3, 3]
    case 18 => [3, 3, 3, 3, 3, 5, 5, 3, 2, 3]
    case 19 => [1, 1, 3, 3, 1, 1, 0, 4, 3, 3]
    case _ => [5, 5]
  }

  /** `OPCODE_LENGTH[opcode]`. */
  function TableLength(op: byte): u16
    requires op <= JSR_W
  {
    LengthRow(op / 10)[op % 10]
  }
}

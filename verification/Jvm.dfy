/**
 The part of the Java Virtual Machine that method instrumentation depends on: decoding an
 instruction out of the code array (section 6.5 of the Java Virtual Machine Specification) and a
 small-step machine over frames. Decoding knows nothing about rewriting, so it is the reference
 against which the rewriter is judged. Everything the rewriter copies verbatim is one
 instruction kind, `Other`, whose effect is a parameter of the machine.
 */
module Jvm {
  import opened Bytes

  /** What follows an opcode: values, constant pool indices, local variable slots, branch offsets. */
  datatype Operands =
    | NoOperands
    | Value8
    | Value16
    | Pool8
    | Pool16
    | Slot8
    | Slot8Value8
    | Offset16
    | Offset32
    | Pool16Count8Zero8
    | Pool16Zero16
    | Pool16Count8
    | Padded
    | Prefix
    | NotDefined

  function OperandsOf(op: byte): Operands {
    if op == 16 || op == 188 then Value8                       // bipush, newarray
    else if op == 17 then Value16                              // sipush
    else if op == 18 then Pool8                                // ldc
    else if op == 19 || op == 20 then Pool16                   // ldc_w, ldc2_w
    else if 21 <= op <= 25 || 54 <= op <= 58 then Slot8        // iload to aload, istore to astore
    else if op == 132 then Slot8Value8                         // iinc
    else if 153 <= op <= 168 || op == 198 || op == 199 then Offset16   // ifeq to jsr, ifnull, ifnonnull
    else if op == 169 then Slot8                               // ret
    else if op == 170 || op == 171 then Padded                 // tableswitch, lookupswitch
    else if 178 <= op <= 184 then Pool16                       // getstatic to invokestatic
    else if op == 185 then Pool16Count8Zero8                   // invokeinterface
    else if op == 186 then Pool16Zero16                        // invokedynamic
    else if op == 187 || op == 189 || op == 192 || op == 193 then Pool16   // new, anewarray, checkcast, instanceof
    else if op == 196 then Prefix                              // wide
    else if op == 197 then Pool16Count8                        // multianewarray
    else if op == 200 || op == 201 then Offset32               // goto_w, jsr_w
    else if op > 201 then NotDefined
    else NoOperands
  }

  /** Length of every instruction whose length its opcode determines (0 for the others). */
  function OpcodeLength(op: byte): nat {
    match OperandsOf(op)
    case NoOperands => 1
    case Value8 => 2
    case Pool8 => 2
    case Slot8 => 2
    case Value16 => 3
    case Pool16 => 3
    case Slot8Value8 => 3
    case Offset16 => 3
    case Pool16Count8 => 4
    case Pool16Count8Zero8 => 5
    case Pool16Zero16 => 5
    case Offset32 => 5
    case Padded => 0
    case Prefix => 0
    case NotDefined => 0
  }

  /** First multiple of 4 after the opcode: where the operands of a switch start. */
  function SwitchBase(pc: nat): nat { pc / 4 * 4 + 4 }

  /** Local variable instructions carry their kind: 0 int, 1 long, 2 float, 3 double, 4 reference. */
  datatype Instr =
    | Load(kind: nat, slot: nat)
    | Store(kind: nat, slot: nat)
    | Inc(slot: nat, delta: int)
    | Branch(op: byte, target: int)
    | Switch(default_: int, keys: seq<int>, targets: seq<int>)
    | Return(op: byte)
    | Other(bytes: seq<byte>)

  datatype Decoded = Decoded(instr: Instr, len: nat)

  /** How many slots a local of this kind occupies. */
  function Width(kind: nat): nat { if kind == 1 || kind == 3 then 2 else 1 }

  /** `ifeq` to `goto`, `ifnull`, `ifnonnull`. */
  predicate IsNarrowBranch(op: byte) { 153 <= op <= 167 || op == 198 || op == 199 }

  /** An instruction whose opcode determines its length; `jsr` and `ret` are not decoded. */
  function DecodePlain(b: seq<byte>, pc: nat): (r: Option<Instr>)
    requires 0 < |b| == OpcodeLength(b[0])
  {
    var op := b[0];
    if 21 <= op <= 25 then Some(Load(op - 21, b[1]))                               // iload to aload
    else if 26 <= op <= 45 then Some(Load((op - 26) / 4, (op - 26) % 4))           // iload_0 to aload_3
    else if 54 <= op <= 58 then Some(Store(op - 54, b[1]))                         // istore to astore
    else if 59 <= op <= 78 then Some(Store((op - 59) / 4, (op - 59) % 4))          // istore_0 to astore_3
    else if op == 132 then Some(Inc(b[1], S8(b[2])))                               // iinc
    else if IsNarrowBranch(op) then Some(Branch(op, pc + S16(Get16(b, 1))))
    else if op == 200 then Some(Branch(op, pc + S32(Get32(b, 1))))                 // goto_w
    else if op == 168 || op == 201 || op == 169 then None                          // jsr, jsr_w, ret
    else if 172 <= op <= 177 then Some(Return(op))                                 // ireturn to return
    else Some(Other(b))
  }

  function DecodeWide(code: seq<byte>, pc: nat): (r: Option<Decoded>)
    ensures r.Some? ==> r.value.len >= 1 && pc + r.value.len <= |code|
  {
    if pc + 4 > |code| then None
    else
      var op := code[pc + 1];
      var slot := Get16(code, pc + 2);
      if 21 <= op <= 25 then Some(Decoded(Load(op - 21, slot), 4))
      else if 54 <= op <= 58 then Some(Decoded(Store(op - 54, slot), 4))
      else if op == 132 && pc + 6 <= |code| then Some(Decoded(Inc(slot, S16(Get16(code, pc + 4))), 6))
      else None
  }

  function DecodeTable(code: seq<byte>, pc: nat): (r: Option<Decoded>)
    ensures r.Some? ==> r.value.len >= 1 && pc + r.value.len <= |code|
  {
    var d := SwitchBase(pc);
    if d + 12 > |code| then None
    else
      var low := S32(Get32(code, d + 4));
      var n := S32(Get32(code, d + 8)) - low + 1;
      if n < 0 || d + 12 + 4 * n > |code| then None
      else Some(Decoded(Switch(pc + S32(Get32(code, d)),
                               seq(n, k requires 0 <= k < n => low + k),
                               seq(n, k requires 0 <= k < n => pc + S32(Get32(code, d + 12 + 4 * k)))),
                        d + 12 + 4 * n - pc))
  }

  function DecodeLookup(code: seq<byte>, pc: nat): (r: Option<Decoded>)
    ensures r.Some? ==> r.value.len >= 1 && pc + r.value.len <= |code|
  {
    var d := SwitchBase(pc);
    if d + 8 > |code| then None
    else
      var n := S32(Get32(code, d + 4));
      if n < 0 || d + 8 + 8 * n > |code| then None
      else Some(Decoded(Switch(pc + S32(Get32(code, d)),
                               seq(n, k requires 0 <= k < n => S32(Get32(code, d + 8 + 8 * k))),
                               seq(n, k requires 0 <= k < n => pc + S32(Get32(code, d + 12 + 8 * k)))),
                        d + 8 + 8 * n - pc))
  }

  function Decode(code: seq<byte>, pc: int): (r: Option<Decoded>)
    ensures r.Some? ==> 0 <= pc && r.value.len >= 1 && pc + r.value.len <= |code|
  {
    if !(0 <= pc < |code|) then None
    else
      var op := code[pc];
      if op == 196 then DecodeWide(code, pc)
      else if op == 170 then DecodeTable(code, pc)
      else if op == 171 then DecodeLookup(code, pc)
      else
        var n := OpcodeLength(op);
        if n == 0 || pc + n > |code| then None
        else
          match DecodePlain(code[pc..pc + n], pc)
          case None => None
          case Some(i) => Some(Decoded(i, n))
  }

  /** Every pc that control may transfer to. */
  function Targets(i: Instr): seq<int> {
    match i
    case Branch(_, t) => [t]
    case Switch(d, _, ts) => [d] + ts
    case _ => []
  }

  // ---------------------------------------------------------------- the machine

  type Word = int

  datatype Handler = Handler(start: int, end: int, handler: int, catchType: nat)

  datatype Method = Method(code: seq<byte>, handlers: seq<Handler>, maxStack: nat, maxLocals: nat)

  datatype Outcome<H> = Next(stack: seq<Word>, heap: H) | Thrown(exc: Word, heap: H)

  /**
   What the machine does not fix: the effect of `Other` instructions, the truth of conditional
   branches, exceptions raised by a return, and which exceptions a catch type covers.
   */
  datatype Env<!H> = Env(
    exec: (seq<byte>, seq<Word>, H) -> Outcome<H>,
    taken: (byte, seq<Word>) -> bool,
    retThrows: (byte, H) -> Option<Word>,
    catches: (Word, H, nat) -> bool)

  /** Two-slot values are two words, on the operand stack as in the locals. */
  datatype State<H> =
    | Running(pc: int, stack: seq<Word>, locals: seq<Word>, heap: H)
    | Returned(result: seq<Word>, heap: H)
    | Uncaught(exc: Word, heap: H)
    | Stuck

  function Popped(op: byte): nat {
    if op == 167 || op == 200 then 0
    else if 159 <= op <= 166 then 2
    else 1
  }

  function ResultWidth(op: byte): nat {
    if op == 177 then 0 else if op == 173 || op == 175 then 2 else 1
  }

  function FindKey(keys: seq<int>, v: Word): (k: nat)
    ensures k <= |keys|
  {
    if keys == [] then 0 else if keys[0] == v then 0 else 1 + FindKey(keys[1..], v)
  }

  function SwitchTarget(i: Instr, v: Word): int
    requires i.Switch? && |i.keys| == |i.targets|
  {
    var k := FindKey(i.keys, v);
    if k < |i.keys| then i.targets[k] else i.default_
  }

  /** First handler, in table order, whose range covers `pc` and whose type covers the exception. */
  function FindHandler<H>(hs: seq<Handler>, env: Env<H>, pc: int, exc: Word, heap: H): Option<int> {
    if hs == [] then None
    else if hs[0].start <= pc < hs[0].end && (env.catches)(exc, heap, hs[0].catchType) then Some(hs[0].handler)
    else FindHandler(hs[1..], env, pc, exc, heap)
  }

  function Throw<H>(m: Method, env: Env<H>, pc: int, locals: seq<Word>, exc: Word, heap: H): State<H> {
    match FindHandler(m.handlers, env, pc, exc, heap)
    case None => Uncaught(exc, heap)
    case Some(h) => if m.maxStack < 1 then Stuck else Running(h, [exc], locals, heap)
  }

  /** Continue at `pc` unless the operand stack has outgrown its declared depth. */
  function Go<H>(m: Method, pc: int, stack: seq<Word>, locals: seq<Word>, heap: H): State<H> {
    if |stack| > m.maxStack then Stuck else Running(pc, stack, locals, heap)
  }

  function Exec<H>(m: Method, env: Env<H>, d: Decoded, s: State<H>): State<H>
    requires s.Running?
    requires d.instr.Switch? ==> |d.instr.keys| == |d.instr.targets|
  {
    var n := |s.stack|;
    match d.instr
    case Load(kind, slot) =>
      if slot + Width(kind) > |s.locals| then Stuck
      else Go(m, s.pc + d.len, s.stack + s.locals[slot..slot + Width(kind)], s.locals, s.heap)
    case Store(kind, slot) =>
      var w := Width(kind);
      if slot + w > |s.locals| || n < w then Stuck
      else Go(m, s.pc + d.len, s.stack[..n - w],
              s.locals[..slot] + s.stack[n - w..] + s.locals[slot + w..], s.heap)
    case Inc(slot, delta) =>
      if slot >= |s.locals| then Stuck
      else Go(m, s.pc + d.len, s.stack, s.locals[slot := s.locals[slot] + delta], s.heap)
    case Branch(op, t) =>
      var w := Popped(op);
      if n < w then Stuck
      else
        var jump := w == 0 || (env.taken)(op, s.stack[n - w..]);
        Go(m, if jump then t else s.pc + d.len, s.stack[..n - w], s.locals, s.heap)
    case Switch(_, _, _) =>
      if n < 1 then Stuck
      else Go(m, SwitchTarget(d.instr, s.stack[n - 1]), s.stack[..n - 1], s.locals, s.heap)
    case Return(op) =>
      var w := ResultWidth(op);
      if n < w then Stuck
      else (match (env.retThrows)(op, s.heap)
            case None => Returned(s.stack[n - w..], s.heap)
            case Some(e) => Throw(m, env, s.pc, s.locals, e, s.heap))
    case Other(b) =>
      match (env.exec)(b, s.stack, s.heap)
      case Next(stack, heap) => Go(m, s.pc + d.len, stack, s.locals, heap)
      case Thrown(e, heap) => Throw(m, env, s.pc, s.locals, e, heap)
  }

  function Step<H>(m: Method, env: Env<H>, s: State<H>): State<H> {
    if !s.Running? then s
    else
      match Decode(m.code, s.pc)
      case None => Stuck
      case Some(d) => Exec(m, env, d, s)
  }

  function Run<H>(m: Method, env: Env<H>, s: State<H>, n: nat): State<H>
    decreases n
  {
    if n == 0 then s else Run(m, env, Step(m, env, s), n - 1)
  }

  lemma {:induction false} RunAdds<H>(m: Method, env: Env<H>, s: State<H>, a: nat, b: nat)
    ensures Run(m, env, s, a + b) == Run(m, env, Run(m, env, s, a), b)
    decreases a
  {
    if a > 0 {
      RunAdds(m, env, Step(m, env, s), a - 1, b);
    }
  }
}

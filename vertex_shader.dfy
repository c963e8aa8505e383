/**
 * The vertex shader interpreter: shader memory, swizzle patterns and float
 * uniforms written by the command processor, and a machine that runs one
 * shader invocation per vertex over a program counter, an eight-entry call
 * stack, sixteen temporary registers and the output vertex.
 *
 * Arithmetic on `float24` is not modelled: a `Float24` value is the term of
 * uninterpreted operations that produced it, so two results are equal when
 * they were computed by the same operations from the same operands.  The
 * bit decoding of instruction and swizzle words is not modelled either: a
 * `Decoder` value maps each word to its decoded fields.
 */
module VertexShader {

  type u32 = x: int | 0 <= x < 0x1_0000_0000

  /** Words of `shader_memory` and of `swizzle_data`. */
  const MEMORY_WORDS: nat := 1024
  /** Vectors of the float uniform bank. */
  const UNIFORM_COUNT: nat := 96
  /** The empty call-stack entry. */
  const INVALID_ADDRESS: u32 := 0xFFFF_FFFF
  /** Entries of `call_stack`. */
  const CALL_STACK_DEPTH: nat := 8
  /** `sizeof(call_stack)`: eight four-byte entries. */
  const CALL_STACK_BYTES: nat := 4 * CALL_STACK_DEPTH
  /** Output registers, each with four entries in the output register table. */
  const OUTPUT_REGISTERS: nat := 7

  datatype Option<T> = None | Some(value: T)

  // ---------------------------------------------------------------------
  // Values
  // ---------------------------------------------------------------------

  /** A `float24` as the operations that computed it. */
  datatype Float24 =
    | FromFloat32(value: real)
    | Sum(a: Float24, b: Float24)
    | Product(a: Float24, b: Float24)
    | Reciprocal(a: Float24)
    | ReciprocalSqrt(a: Float24)

  const ZERO: Float24 := FromFloat32(0.0)

  type Lane = i: int | 0 <= i < 4

  /** `Math::Vec4<float24>`. */
  datatype Vec4 = Vec4(x: Float24, y: Float24, z: Float24, w: Float24)
  {
    /** Component `i`: x, y, z, w for 0 to 3. */
    function At(i: Lane): Float24
    {
      if i == 0 then x else if i == 1 then y else if i == 2 then z else w
    }

    /** The vector with component `i` replaced by `f`. */
    function With(i: Lane, f: Float24): (r: Vec4)
      ensures r.At(i) == f && forall j: Lane :: j != i ==> r.At(j) == At(j)
    {
      if i == 0 then this.(x := f) else if i == 1 then this.(y := f) else if i == 2 then this.(z := f) else this.(w := f)
    }
  }

  const ZERO_VEC: Vec4 := Vec4(ZERO, ZERO, ZERO, ZERO)
  type RegIndex = i: int | 0 <= i < 16
  type UniformIndex = i: int | 0 <= i < 96
  /** `operand_desc_id`, a seven-bit index into the swizzle patterns. */
  type DescIndex = i: int | 0 <= i < 0x80

  /** `src1[i] * float24::FromFloat32(-1)`. */
  function Negated(f: Float24): Float24
  {
    Product(f, FromFloat32(-1.0))
  }

  // ---------------------------------------------------------------------
  // Decoded instructions
  // ---------------------------------------------------------------------

  /** A source operand: the register class and the index within it. */
  datatype SourceRegister =
    | Input(index: RegIndex)
    | Temporary(index: RegIndex)
    | FloatUniform(uniform: UniformIndex)

  datatype OpCode = ADD | DP3 | DP4 | MUL | RCP | RSQ | MOV | END | CALL | NOP | Unhandled(code: nat)

  /**
   * The decoded fields of one instruction word.  `src1` and `src2` are the
   * operands after the operand-inversion of the opcode's subtype is applied.
   */
  datatype Instruction = Instruction(
    opcode: OpCode, src1: SourceRegister, src2: SourceRegister,
    dest: nat, operandDescId: DescIndex, destOffset: nat)

  /** The source lane each destination lane reads. */
  datatype Selector = Selector(x: Lane, y: Lane, z: Lane, w: Lane)
  {
    function At(i: Lane): Lane
    {
      if i == 0 then x else if i == 1 then y else if i == 2 then z else w
    }
  }

  /** `DestComponentEnabled(i)` for the four lanes. */
  datatype Mask = Mask(x: bool, y: bool, z: bool, w: bool)
  {
    function At(i: Lane): bool
    {
      if i == 0 then x else if i == 1 then y else if i == 2 then z else w
    }
  }

  /** A decoded swizzle pattern. */
  datatype Swizzle = Swizzle(negateSrc1: bool, selector1: Selector, selector2: Selector, enabled: Mask)

  datatype Decoder = Decoder(instruction: u32 -> Instruction, swizzle: u32 -> Swizzle)

  /** What an entry of the input register table points at. */
  datatype InputBinding = Attribute(index: RegIndex) | Dummy

  /**
   * How lane `i` of output register `index` finds its output-vertex slot.
   * The code takes the table entry of the register's first lane and steps
   * on by `i`; the table the set-up fills has one entry per lane.
   */
  datatype LaneMapping =
    | FirstEntryPlusLane  // slot `outputs[4*index] + i`, as the code computes it
    | EntryPerLane        // slot `outputs[4*index + i]`, as the table is laid out

  /**
   * What one invocation reads and never writes: the program, the swizzle
   * patterns, the uniforms, the input and output register tables, the
   * attributes of the input vertex, the dummy input register and the way
   * output lanes find their slots.
   */
  datatype Env = Env(
    code: seq<u32>, swizzles: seq<u32>, uniforms: seq<Vec4>, decoder: Decoder,
    inputs: seq<InputBinding>, outputs: seq<nat>, attributes: seq<Vec4>, dummy: Vec4,
    mapping: LaneMapping)
  {
    predicate Valid()
    {
      |code| == MEMORY_WORDS && |swizzles| == MEMORY_WORDS && |uniforms| == UNIFORM_COUNT
      && |inputs| == 16 && |outputs| == 4 * OUTPUT_REGISTERS && |attributes| == 16
    }
  }

  // ---------------------------------------------------------------------
  // The machine, as a value
  // ---------------------------------------------------------------------

  /**
   * The state `ProcessShaderCode` changes.  `pc` indexes `shader_memory`,
   * `sp` indexes `callStack`, and `output` maps float slots of the output
   * vertex to the values written there.
   */
  datatype Machine = Machine(
    pc: nat, callStack: seq<u32>, sp: int, temps: seq<Vec4>,
    output: map<nat, Float24>, maxOffset: u32, maxOpdescId: u32)

  predicate WellFormed(m: Machine)
  {
    |m.callStack| == CALL_STACK_DEPTH && 0 <= m.sp < CALL_STACK_DEPTH && |m.temps| == 16
  }

  /**
   * The call-stack discipline: slot 0 is the permanent empty entry, the
   * slots up to `sp` hold return addresses inside shader memory, and the
   * slots above `sp` are empty.
   */
  predicate StackDiscipline(m: Machine)
  {
    && WellFormed(m)
    && m.callStack[0] == INVALID_ADDRESS
    && (forall j :: 0 < j <= m.sp ==> m.callStack[j] < MEMORY_WORDS)
    && (forall j :: m.sp < j < CALL_STACK_DEPTH ==> m.callStack[j] == INVALID_ADDRESS)
  }

  /** The state `RunShader` sets up before the first instruction. */
  function Initial(mainOffset: nat, temps: seq<Vec4>): (m: Machine)
    requires |temps| == 16
    ensures StackDiscipline(m)
  {
    Machine(mainOffset, seq(CALL_STACK_DEPTH, _ => INVALID_ADDRESS), 0, temps, map[], 0, 0)
  }

  datatype Error =
    | PcOutOfRange
    | NullDestination
    | OutputOutOfRange
    | CallStackOverflow
    | CallStackUnderflow

  datatype StepResult = Next(m: Machine) | Exit(m: Machine) | Fault(error: Error)

  function Max32(a: u32, b: u32): (r: u32)
    ensures r >= a && r >= b && (r == a || r == b)
  {
    if a >= b then a else b
  }

  // ---------------------------------------------------------------------
  // Operands
  // ---------------------------------------------------------------------

  /** The four floats a source register reference points at. */
  function RegisterValue(env: Env, temps: seq<Vec4>, reg: SourceRegister): Vec4
    requires env.Valid() && |temps| == 16
  {
    match reg
    case Input(k) =>
      (match env.inputs[k]
       case Attribute(a) => env.attributes[a]
       case Dummy => env.dummy)
    case Temporary(k) => temps[k]
    case FloatUniform(k) => env.uniforms[k]
  }

  function Selected(v: Vec4, selector: Selector, negate: bool, i: Lane): Float24
  {
    if negate then Negated(v.At(selector.At(i))) else v.At(selector.At(i))
  }

  /** The four lanes picked from `v` by `selector`, each negated when `negate`. */
  function Select(v: Vec4, selector: Selector, negate: bool): Vec4
  {
    Vec4(Selected(v, selector, negate, 0), Selected(v, selector, negate, 1),
         Selected(v, selector, negate, 2), Selected(v, selector, negate, 3))
  }

  function Source1(env: Env, temps: seq<Vec4>, instr: Instruction, sw: Swizzle): Vec4
    requires env.Valid() && |temps| == 16
  {
    Select(RegisterValue(env, temps, instr.src1), sw.selector1, sw.negateSrc1)
  }

  function Source2(env: Env, temps: seq<Vec4>, instr: Instruction, sw: Swizzle): Vec4
    requires env.Valid() && |temps| == 16
  {
    Select(RegisterValue(env, temps, instr.src2), sw.selector2, false)
  }

  // ---------------------------------------------------------------------
  // Arithmetic
  // ---------------------------------------------------------------------

  predicate IsArithmetic(op: OpCode)
  {
    op.ADD? || op.DP3? || op.DP4? || op.MUL? || op.RCP? || op.RSQ? || op.MOV?
  }

  /** `dot` after the first `k` lanes: 0, then `dot + src1[i] * src2[i]` lane by lane. */
  function Dot(src1: Vec4, src2: Vec4, k: nat): Float24
    requires k <= 4
  {
    if k == 0 then ZERO else Sum(Dot(src1, src2, k - 1), Product(src1.At(k - 1), src2.At(k - 1)))
  }

  /** How many lanes the instruction's write loop visits. */
  function LaneCount(op: OpCode): nat
  {
    if op.DP3? then 3 else 4
  }

  /** The value the instruction writes to an enabled lane `i`. */
  function LaneResult(op: OpCode, src1: Vec4, src2: Vec4, i: Lane): Float24
  {
    match op
    case ADD => Sum(src1.At(i), src2.At(i))
    case MUL => Product(src1.At(i), src2.At(i))
    case DP3 => Dot(src1, src2, 3)
    case DP4 => Dot(src1, src2, 4)
    case RCP => Reciprocal(src1.At(i))
    case RSQ => ReciprocalSqrt(src1.At(i))
    case _ => src1.At(i)
  }

  function LaneResults(op: OpCode, src1: Vec4, src2: Vec4): Vec4
  {
    Vec4(LaneResult(op, src1, src2, 0), LaneResult(op, src1, src2, 1),
         LaneResult(op, src1, src2, 2), LaneResult(op, src1, src2, 3))
  }

  // ---------------------------------------------------------------------
  // Destinations
  // ---------------------------------------------------------------------

  datatype Destination = Output(register: nat) | TempDest(temp: RegIndex) | Null

  /** Codes below 0x08 are output registers, 0x10 to 0x1F temporaries, the rest null. */
  function DecodeDest(dest: nat): (d: Destination)
    ensures d.Output? <==> dest < 0x08
    ensures d.TempDest? <==> 0x10 <= dest < 0x20
    ensures d.Output? ==> d.register == dest
    ensures d.TempDest? ==> d.temp == dest - 0x10
  {
    if dest < 0x08 then Output(dest)
    else if dest < 0x10 then Null
    else if dest < 0x20 then TempDest(dest - 0x10)
    else Null
  }

  /**
   * The output-vertex slot lane `lane` of output register `index` goes to,
   * or None when the table entry it needs is past the table.
   */
  function OutputLaneSlot(mapping: LaneMapping, outputs: seq<nat>, index: nat, lane: Lane): Option<nat>
  {
    match mapping
    case FirstEntryPlusLane => if 4 * index < |outputs| then Some(outputs[4 * index] + lane) else None
    case EntryPerLane => if 4 * index + lane < |outputs| then Some(outputs[4 * index + lane]) else None
  }

  /** Lane `i` is written: the loop reaches it and the write mask enables it. */
  predicate Written(enabled: Mask, n: nat, i: Lane)
  {
    i < n && enabled.At(i)
  }

  function Pick(before: Vec4, values: Vec4, enabled: Mask, n: nat, k: nat, i: Lane): Float24
  {
    if i < k && Written(enabled, n, i) then values.At(i) else before.At(i)
  }

  /** A register after the write loop has visited lanes below `k`. */
  function MergeUpTo(before: Vec4, values: Vec4, enabled: Mask, n: nat, k: nat): Vec4
  {
    Vec4(Pick(before, values, enabled, n, k, 0), Pick(before, values, enabled, n, k, 1),
         Pick(before, values, enabled, n, k, 2), Pick(before, values, enabled, n, k, 3))
  }

  /** The output vertex after the write loop has visited lanes below `k`; None once a slot is missing. */
  function StoreLanes(
    out: map<nat, Float24>, mapping: LaneMapping, outputs: seq<nat>, index: nat,
    values: Vec4, enabled: Mask, n: nat, k: nat): Option<map<nat, Float24>>
    requires k <= 4
  {
    if k == 0 then Some(out)
    else
      match StoreLanes(out, mapping, outputs, index, values, enabled, n, k - 1)
      case None => None
      case Some(o) =>
        if !Written(enabled, n, k - 1) then Some(o)
        else
          match OutputLaneSlot(mapping, outputs, index, k - 1)
          case None => None
          case Some(slot) => Some(o[slot := values.At(k - 1)])
  }

  predicate AnyWritten(enabled: Mask, n: nat)
  {
    exists i: Lane :: Written(enabled, n, i)
  }

  // ---------------------------------------------------------------------
  // One instruction
  // ---------------------------------------------------------------------

  function Fetch(env: Env, pc: nat): Instruction
    requires env.Valid() && pc < MEMORY_WORDS
  {
    env.decoder.instruction(env.code[pc])
  }

  function SwizzleOf(env: Env, instr: Instruction): Swizzle
    requires env.Valid()
  {
    env.decoder.swizzle(env.swizzles[instr.operandDescId])
  }

  /** ADD, MUL, DP3, DP4, RCP, RSQ and MOV. */
  function ExecArithmetic(env: Env, m: Machine, instr: Instruction): StepResult
    requires env.Valid() && WellFormed(m)
  {
    var sw := SwizzleOf(env, instr);
    var values := LaneResults(instr.opcode, Source1(env, m.temps, instr, sw), Source2(env, m.temps, instr, sw));
    var n := LaneCount(instr.opcode);
    var m' := m.(maxOpdescId := Max32(m.maxOpdescId, 1 + instr.operandDescId), pc := m.pc + 1);
    match DecodeDest(instr.dest)
    case Null => if AnyWritten(sw.enabled, n) then Fault(NullDestination) else Next(m')
    case TempDest(r) => Next(m'.(temps := m.temps[r := MergeUpTo(m.temps[r], values, sw.enabled, n, 4)]))
    case Output(index) =>
      match StoreLanes(m.output, env.mapping, env.outputs, index, values, sw.enabled, n, 4)
      case None => Fault(OutputOutOfRange)
      case Some(o) => Next(m'.(output := o))
  }

  /** END: leave when the top entry is empty, otherwise return past the call site. */
  function ExecEnd(m: Machine): StepResult
    requires WellFormed(m)
  {
    if m.callStack[m.sp] == INVALID_ADDRESS then Exit(m.(pc := m.pc + 1))
    else if m.sp == 0 then Fault(CallStackUnderflow)
    else Next(m.(pc := m.callStack[m.sp] + 1,
                 callStack := m.callStack[m.sp := INVALID_ADDRESS],
                 sp := m.sp - 1))
  }

  /** The push of CALL, refused when the next slot is past the stack. */
  function Push(stack: seq<u32>, sp: int, value: u32): (r: Option<seq<u32>>)
    requires |stack| == CALL_STACK_DEPTH && 0 <= sp < CALL_STACK_DEPTH
    ensures r.Some? <==> sp + 1 < CALL_STACK_DEPTH
  {
    if sp + 1 < CALL_STACK_DEPTH then Some(stack[sp + 1 := value]) else None
  }

  /** CALL: push the CALL's own index and jump to the destination. */
  function ExecCall(m: Machine, dest: nat): StepResult
    requires WellFormed(m) && m.pc < MEMORY_WORDS
  {
    match Push(m.callStack, m.sp, m.pc)
    case None => Fault(CallStackOverflow)
    case Some(stack) => Next(m.(callStack := stack, sp := m.sp + 1, pc := dest))
  }

  /** One pass of the interpreter loop. */
  function Step(env: Env, m: Machine): (r: StepResult)
    requires env.Valid() && WellFormed(m)
    ensures !r.Fault? ==> WellFormed(r.m)
  {
    if m.pc >= MEMORY_WORDS then Fault(PcOutOfRange)
    else Dispatch(env, m.(maxOffset := Max32(m.maxOffset, 1 + m.pc)), Fetch(env, m.pc))
  }

  /** The `switch` on the opcode, after the offset maximum is updated. */
  function Dispatch(env: Env, m: Machine, instr: Instruction): (r: StepResult)
    requires env.Valid() && WellFormed(m) && m.pc < MEMORY_WORDS
    ensures !r.Fault? ==> WellFormed(r.m)
  {
    match instr.opcode
    case END => ExecEnd(m)
    case CALL => ExecCall(m, instr.destOffset)
    case NOP => Next(m.(pc := m.pc + 1))
    case Unhandled(_) => Next(m.(pc := m.pc + 1))
    case _ => ExecArithmetic(env, m, instr)
  }

  datatype Outcome = Finished(m: Machine) | Failed(error: Error) | OutOfFuel(m: Machine)

  /** At most `fuel` passes of the interpreter loop. */
  function Run(env: Env, m: Machine, fuel: nat): Outcome
    requires env.Valid() && WellFormed(m)
    decreases fuel
  {
    if fuel == 0 then OutOfFuel(m)
    else
      match Step(env, m)
      case Exit(m') => Finished(m')
      case Fault(e) => Failed(e)
      case Next(m') => Run(env, m', fuel - 1)
  }

  // ---------------------------------------------------------------------
  // Properties of one instruction
  // ---------------------------------------------------------------------

  /** Source 2 is picked like source 1, by its own selector, and never negated. */
  lemma Source2IsUnnegatedSelection(env: Env, temps: seq<Vec4>, instr: Instruction, sw: Swizzle)
    requires env.Valid() && |temps| == 16
    ensures Source2(env, temps, instr, sw)
         == Source1(env, temps, instr.(src1 := instr.src2), sw.(negateSrc1 := false, selector1 := sw.selector2))
  {
  }

  /** With `negate_src1` set, every lane of source 1 is the negation of the lane picked without it. */
  lemma NegationIsLanewise(env: Env, temps: seq<Vec4>, instr: Instruction, sw: Swizzle, i: Lane)
    requires env.Valid() && |temps| == 16 && sw.negateSrc1
    ensures Source1(env, temps, instr, sw).At(i) == Negated(Source1(env, temps, instr, sw.(negateSrc1 := false)).At(i))
  {
  }

  /**
   * ADD, MUL, MOV, RCP and RSQ into a temporary: each lane the mask enables
   * gets the lane's result, every other lane and every other register keeps
   * its value, and execution moves to the next word.
   */
  lemma ArithmeticMasksLanes(env: Env, m: Machine)
    requires env.Valid() && WellFormed(m) && m.pc < MEMORY_WORDS
    requires var op := Fetch(env, m.pc).opcode; op.ADD? || op.MUL? || op.MOV? || op.RCP? || op.RSQ?
    requires DecodeDest(Fetch(env, m.pc).dest).TempDest?
    ensures var instr := Fetch(env, m.pc);
      var r := DecodeDest(instr.dest).temp;
      var sw := SwizzleOf(env, instr);
      var src1 := Source1(env, m.temps, instr, sw);
      var src2 := Source2(env, m.temps, instr, sw);
      var res := Step(env, m);
      && res.Next?
      && res.m.pc == m.pc + 1
      && (forall i: Lane :: res.m.temps[r].At(i) == if sw.enabled.At(i) then LaneResult(instr.opcode, src1, src2, i) else m.temps[r].At(i))
      && (forall t :: 0 <= t < 16 && t != r ==> res.m.temps[t] == m.temps[t])
      && res.m.callStack == m.callStack && res.m.sp == m.sp && res.m.output == m.output
  {
  }

  /**
   * DP3 and DP4 write one dot product over the first three or four lanes
   * to the enabled lanes among those; DP3 leaves lane 3 alone.
   */
  lemma DotProductLanes(env: Env, m: Machine)
    requires env.Valid() && WellFormed(m) && m.pc < MEMORY_WORDS
    requires var op := Fetch(env, m.pc).opcode; op.DP3? || op.DP4?
    requires DecodeDest(Fetch(env, m.pc).dest).TempDest?
    ensures var instr := Fetch(env, m.pc);
      var r := DecodeDest(instr.dest).temp;
      var sw := SwizzleOf(env, instr);
      var n := if instr.opcode.DP3? then 3 else 4;
      var dot := Dot(Source1(env, m.temps, instr, sw), Source2(env, m.temps, instr, sw), n);
      var res := Step(env, m);
      && res.Next?
      && (forall i: Lane :: res.m.temps[r].At(i) == if i < n && sw.enabled.At(i) then dot else m.temps[r].At(i))
      && (instr.opcode.DP3? ==> res.m.temps[r].w == m.temps[r].w)
  {
  }

  /** Through a null destination an instruction fails exactly when its mask enables a visited lane. */
  lemma NullDestinationFaults(env: Env, m: Machine)
    requires env.Valid() && WellFormed(m) && m.pc < MEMORY_WORDS
    requires IsArithmetic(Fetch(env, m.pc).opcode) && DecodeDest(Fetch(env, m.pc).dest).Null?
    ensures var instr := Fetch(env, m.pc);
      var written := AnyWritten(SwizzleOf(env, instr).enabled, LaneCount(instr.opcode));
      && (written <==> Step(env, m) == Fault(NullDestination))
      && (!written ==> Step(env, m).Next? && Step(env, m).m.temps == m.temps && Step(env, m).m.output == m.output)
  {
  }

  /** The slot of lane `i` of output register `index`, when the table has the register. */
  function LaneSlot(mapping: LaneMapping, outputs: seq<nat>, index: nat, i: Lane): nat
    requires 4 * index + 4 <= |outputs|
  {
    match mapping
    case FirstEntryPlusLane => outputs[4 * index] + i
    case EntryPerLane => outputs[4 * index + i]
  }

  predicate DistinctSlots(mapping: LaneMapping, outputs: seq<nat>, index: nat)
    requires 4 * index + 4 <= |outputs|
  {
    forall i: Lane, j: Lane :: i < j ==> LaneSlot(mapping, outputs, index, i) != LaneSlot(mapping, outputs, index, j)
  }

  /** Stores of lanes below `k` into an output register whose four slots are distinct. */
  lemma {:induction false} StoreLanesEffect(
    out: map<nat, Float24>, mapping: LaneMapping, outputs: seq<nat>, index: nat,
    values: Vec4, enabled: Mask, n: nat, k: nat)
    requires k <= 4 && 4 * index + 4 <= |outputs| && DistinctSlots(mapping, outputs, index)
    ensures var o := StoreLanes(out, mapping, outputs, index, values, enabled, n, k);
      && o.Some?
      && (forall i: Lane :: i < k && Written(enabled, n, i) ==>
            LaneSlot(mapping, outputs, index, i) in o.value && o.value[LaneSlot(mapping, outputs, index, i)] == values.At(i))
      && (forall slot :: (forall i: Lane :: i < k && Written(enabled, n, i) ==> LaneSlot(mapping, outputs, index, i) != slot) ==>
            (slot in o.value <==> slot in out) && (slot in out ==> o.value[slot] == out[slot]))
  {
    if k > 0 {
      StoreLanesEffect(out, mapping, outputs, index, values, enabled, n, k - 1);
      assert OutputLaneSlot(mapping, outputs, index, k - 1) == Some(LaneSlot(mapping, outputs, index, k - 1));
    }
  }

  /**
   * An arithmetic instruction into output register `index` (below 7) whose
   * lanes map to distinct slots: each written lane's slot holds the lane's
   * result, and every other slot of the output vertex is unchanged.
   */
  lemma OutputLanes(env: Env, m: Machine)
    requires env.Valid() && WellFormed(m) && m.pc < MEMORY_WORDS
    requires IsArithmetic(Fetch(env, m.pc).opcode)
    requires var d := DecodeDest(Fetch(env, m.pc).dest); d.Output? && d.register < OUTPUT_REGISTERS
    requires DistinctSlots(env.mapping, env.outputs, DecodeDest(Fetch(env, m.pc).dest).register)
    ensures var instr := Fetch(env, m.pc);
      var index := DecodeDest(instr.dest).register;
      var sw := SwizzleOf(env, instr);
      var n := LaneCount(instr.opcode);
      var values := LaneResults(instr.opcode, Source1(env, m.temps, instr, sw), Source2(env, m.temps, instr, sw));
      var res := Step(env, m);
      && res.Next? && res.m.temps == m.temps
      && (forall i: Lane :: Written(sw.enabled, n, i) ==>
            LaneSlot(env.mapping, env.outputs, index, i) in res.m.output && res.m.output[LaneSlot(env.mapping, env.outputs, index, i)] == values.At(i))
      && (forall slot :: (forall i: Lane :: Written(sw.enabled, n, i) ==> LaneSlot(env.mapping, env.outputs, index, i) != slot) ==>
            (slot in res.m.output <==> slot in m.output) && (slot in m.output ==> res.m.output[slot] == m.output[slot]))
  {
    var instr := Fetch(env, m.pc);
    var index := DecodeDest(instr.dest).register;
    var sw := SwizzleOf(env, instr);
    var n := LaneCount(instr.opcode);
    var values := LaneResults(instr.opcode, Source1(env, m.temps, instr, sw), Source2(env, m.temps, instr, sw));
    var m1 := m.(maxOffset := Max32(m.maxOffset, 1 + m.pc));
    assert Step(env, m) == ExecArithmetic(env, m1, instr);
    StoreLanesEffect(m.output, env.mapping, env.outputs, index, values, sw.enabled, n, 4);
  }

  /** Stepping on from one table entry by the lane number never sends two lanes to one slot. */
  lemma FirstEntrySlotsDistinct(outputs: seq<nat>, index: nat)
    requires 4 * index + 4 <= |outputs|
    ensures DistinctSlots(FirstEntryPlusLane, outputs, index)
  {
  }

  /**
   * As the code writes an output register `index` (below 7): lane `i`
   * lands in slot `outputs[4*index] + i` (`LaneSlot` of the code's
   * mapping), with no condition on the table, and every slot no written
   * lane names keeps its value.
   */
  lemma OutputLanesAsWritten(env: Env, m: Machine)
    requires env.Valid() && WellFormed(m) && m.pc < MEMORY_WORDS && env.mapping == FirstEntryPlusLane
    requires IsArithmetic(Fetch(env, m.pc).opcode)
    requires var d := DecodeDest(Fetch(env, m.pc).dest); d.Output? && d.register < OUTPUT_REGISTERS
    ensures var instr := Fetch(env, m.pc);
      var index := DecodeDest(instr.dest).register;
      var sw := SwizzleOf(env, instr);
      var n := LaneCount(instr.opcode);
      var values := LaneResults(instr.opcode, Source1(env, m.temps, instr, sw), Source2(env, m.temps, instr, sw));
      var res := Step(env, m);
      && res.Next? && res.m.temps == m.temps
      && (forall i: Lane :: Written(sw.enabled, n, i) ==>
            LaneSlot(env.mapping, env.outputs, index, i) in res.m.output && res.m.output[LaneSlot(env.mapping, env.outputs, index, i)] == values.At(i))
      && (forall slot :: (forall i: Lane :: Written(sw.enabled, n, i) ==> LaneSlot(env.mapping, env.outputs, index, i) != slot) ==>
            (slot in res.m.output <==> slot in m.output) && (slot in m.output ==> res.m.output[slot] == m.output[slot]))
  {
    FirstEntrySlotsDistinct(env.outputs, DecodeDest(Fetch(env, m.pc).dest).register);
    OutputLanes(env, m);
  }

  /** NOP and unhandled opcodes change nothing but the program counter and the offset maximum. */
  lemma NopAdvances(env: Env, m: Machine)
    requires env.Valid() && WellFormed(m) && m.pc < MEMORY_WORDS
    requires var op := Fetch(env, m.pc).opcode; op.NOP? || op.Unhandled?
    ensures Step(env, m) == Next(m.(pc := m.pc + 1, maxOffset := Max32(m.maxOffset, 1 + m.pc)))
  {
  }

  /**
   * CALL pushes its own index above the stack top and jumps without
   * advancing; the END that later finds that entry on top returns to the
   * word after the CALL, empties the entry and pops it.
   */
  lemma CallThenEndReturns(env: Env, m: Machine, callee: Machine)
    requires env.Valid() && WellFormed(m) && m.pc < MEMORY_WORDS && Fetch(env, m.pc).opcode.CALL?
    requires m.sp + 1 < CALL_STACK_DEPTH
    requires WellFormed(callee) && callee.pc < MEMORY_WORDS && Fetch(env, callee.pc).opcode.END?
    requires callee.sp == m.sp + 1 && callee.callStack[callee.sp] == m.pc
    ensures var call := Step(env, m);
      && call.Next?
      && call.m.pc == Fetch(env, m.pc).destOffset
      && call.m.sp == m.sp + 1 && call.m.callStack == m.callStack[m.sp + 1 := m.pc]
    ensures var ret := Step(env, callee);
      && ret.Next?
      && ret.m.pc == m.pc + 1 && ret.m.sp == m.sp
      && ret.m.callStack == callee.callStack[callee.sp := INVALID_ADDRESS]
  {
  }

  /** Every step that does not fail keeps the call-stack discipline. */
  lemma StepKeepsStackDiscipline(env: Env, m: Machine)
    requires env.Valid() && StackDiscipline(m)
    ensures var r := Step(env, m); !r.Fault? ==> StackDiscipline(r.m)
  {
    if m.pc < MEMORY_WORDS {
      var instr := Fetch(env, m.pc);
      var m1 := m.(maxOffset := Max32(m.maxOffset, 1 + m.pc));
      assert StackDiscipline(m1);
      assert Step(env, m) == Dispatch(env, m1, instr);
      match instr.opcode {
        case END => EndKeepsStackDiscipline(m1);
        case CALL => CallKeepsStackDiscipline(m1, instr.destOffset);
        case NOP =>
        case Unhandled(_) =>
        case _ =>
          var r := ExecArithmetic(env, m1, instr);
          assert !r.Fault? ==> r.m.callStack == m1.callStack && r.m.sp == m1.sp;
      }
    }
  }

  lemma EndKeepsStackDiscipline(m: Machine)
    requires StackDiscipline(m)
    ensures var r := ExecEnd(m); !r.Fault? ==> StackDiscipline(r.m)
  {
    if m.callStack[m.sp] != INVALID_ADDRESS && m.sp > 0 {
      var m2 := ExecEnd(m).m;
      assert forall j :: m2.sp < j < CALL_STACK_DEPTH ==> m2.callStack[j] == INVALID_ADDRESS;
    }
  }

  lemma CallKeepsStackDiscipline(m: Machine, dest: nat)
    requires StackDiscipline(m) && m.pc < MEMORY_WORDS
    ensures var r := ExecCall(m, dest); !r.Fault? ==> StackDiscipline(r.m)
  {
  }

  /** Under the discipline END never fails, and it leaves the shader exactly when the stack is empty. */
  lemma EndLeavesIffStackEmpty(env: Env, m: Machine)
    requires env.Valid() && StackDiscipline(m) && m.pc < MEMORY_WORDS && Fetch(env, m.pc).opcode.END?
    ensures !Step(env, m).Fault?
    ensures Step(env, m).Exit? <==> m.sp == 0
  {
    if m.sp > 0 {
      assert m.callStack[m.sp] < MEMORY_WORDS;
    }
  }

  /** The offset maximum covers the word just executed, and neither maximum ever decreases. */
  lemma DebugMaximaGrow(env: Env, m: Machine)
    requires env.Valid() && WellFormed(m)
    ensures var r := Step(env, m);
      !r.Fault? ==>
        && r.m.maxOffset >= m.maxOffset && r.m.maxOffset > m.pc
        && r.m.maxOpdescId >= m.maxOpdescId
  {
  }

  /** Over a whole run the maxima only grow. */
  lemma {:induction false} RunKeepsMaxima(env: Env, m: Machine, fuel: nat)
    requires env.Valid() && WellFormed(m)
    ensures var o := Run(env, m, fuel);
      !o.Failed? ==> o.m.maxOffset >= m.maxOffset && o.m.maxOpdescId >= m.maxOpdescId
    decreases fuel
  {
    if fuel > 0 {
      DebugMaximaGrow(env, m);
      var r := Step(env, m);
      if r.Next? {
        RunKeepsMaxima(env, r.m, fuel - 1);
      }
    }
  }

  /** A run from the state `RunShader` sets up ends only on an END with the stack empty. */
  lemma {:induction false} RunEndsWithEmptyStack(env: Env, m: Machine, fuel: nat)
    requires env.Valid() && StackDiscipline(m)
    ensures var o := Run(env, m, fuel); !o.Failed? ==> StackDiscipline(o.m)
    ensures var o := Run(env, m, fuel); o.Finished? ==> o.m.sp == 0
    decreases fuel
  {
    if fuel > 0 {
      StepKeepsStackDiscipline(env, m);
      var r := Step(env, m);
      if r.Next? {
        RunEndsWithEmptyStack(env, r.m, fuel - 1);
      } else if r.Exit? {
        assert m.pc < MEMORY_WORDS && Fetch(env, m.pc).opcode.END?;
        EndLeavesIffStackEmpty(env, m);
      }
    }
  }

  // ---------------------------------------------------------------------
  // The call-stack bound as written
  // ---------------------------------------------------------------------

  datatype PushResult = Pushed(stack: seq<u32>) | AssertFails | WritesPastStack(slot: int)

  /**
   * CALL as the code writes it: the debug assertion compares the stack
   * pointer's distance from the stack with `sizeof(call_stack)`, which
   * counts bytes, and then stores to the next slot.
   */
  function PushAsWritten(stack: seq<u32>, sp: int, value: u32): PushResult
    requires |stack| == CALL_STACK_DEPTH && 0 <= sp
  {
    if !(sp < CALL_STACK_BYTES) then AssertFails
    else if sp + 1 < |stack| then Pushed(stack[sp + 1 := value])
    else WritesPastStack(sp + 1)
  }

  /**
   * With the top at slot 7 (seven nested calls) the assertion passes and the
   * eighth CALL stores to slot 8, past the end of the eight-entry stack; the
   * guarded push refuses it.
   */
  lemma CallGuardAdmitsOverflow(stack: seq<u32>, value: u32)
    requires |stack| == CALL_STACK_DEPTH
    ensures PushAsWritten(stack, 7, value) == WritesPastStack(CALL_STACK_DEPTH)
    ensures Push(stack, 7, value).None?
  {
  }

  // ---------------------------------------------------------------------
  // The output register table
  // ---------------------------------------------------------------------

  /** The output register table: the four slots of register 0, then those of register 1, and so on. */
  function Flatten(semantics: seq<seq<nat>>): (table: seq<nat>)
    ensures Rows4(semantics) ==> |table| == 4 * |semantics|
  {
    if |semantics| == 0 then [] else Flatten(semantics[..|semantics| - 1]) + semantics[|semantics| - 1]
  }

  predicate Rows4(semantics: seq<seq<nat>>)
  {
    forall i :: 0 <= i < |semantics| ==> |semantics[i]| == 4
  }

  lemma {:induction false} FlattenIndex(semantics: seq<seq<nat>>, i: nat, c: Lane)
    requires Rows4(semantics) && i < |semantics|
    ensures |Flatten(semantics)| == 4 * |semantics|
    ensures Flatten(semantics)[4 * i + c] == semantics[i][c]
  {
    var n := |semantics| - 1;
    var front := semantics[..n];
    assert Rows4(front);
    if i < n {
      FlattenIndex(front, i, c);
    } else if n > 0 {
      FlattenIndex(front, 0, 0);
    }
  }

  /** Entry `4*index + lane` of the table is the slot the semantic map names for that lane. */
  lemma OutputLaneFollowsSemantics(semantics: seq<seq<nat>>, index: nat, lane: Lane)
    requires |semantics| == OUTPUT_REGISTERS && Rows4(semantics) && index < OUTPUT_REGISTERS
    ensures OutputLaneSlot(EntryPerLane, Flatten(semantics), index, lane) == Some(semantics[index][lane])
  {
    FlattenIndex(semantics, index, lane);
  }

  /** As the code computes it, lane `lane` goes to the slot the map names for x, plus `lane`. */
  lemma OutputLaneFromFirstSemantic(semantics: seq<seq<nat>>, index: nat, lane: Lane)
    requires |semantics| == OUTPUT_REGISTERS && Rows4(semantics) && index < OUTPUT_REGISTERS
    ensures OutputLaneSlot(FirstEntryPlusLane, Flatten(semantics), index, lane) == Some(semantics[index][0] + lane)
  {
    FlattenIndex(semantics, index, 0);
  }

  /**
   * As the code computes it, lane 1 of a register whose semantic map is
   * (3, 2, 1, 0) goes to slot 4, not to slot 2 the map names.
   */
  lemma OutputLaneAsWrittenIgnoresSemantics(semantics: seq<seq<nat>>)
    requires |semantics| == OUTPUT_REGISTERS && Rows4(semantics) && semantics[0] == [3, 2, 1, 0]
    ensures OutputLaneSlot(FirstEntryPlusLane, Flatten(semantics), 0, 1) == Some(4)
    ensures OutputLaneSlot(EntryPerLane, Flatten(semantics), 0, 1) == Some(2)
  {
    FlattenIndex(semantics, 0, 0);
    FlattenIndex(semantics, 0, 1);
  }

  // ---------------------------------------------------------------------
  // The input register table
  // ---------------------------------------------------------------------

  /**
   * The input register table after the first `k` of `RunShader`'s
   * assignments: every entry starts at the dummy register, and attribute
   * `a` below `numAttributes` then overwrites the entry its register map
   * names.
   */
  function BindInputs(registers: seq<RegIndex>, numAttributes: int, k: nat): (t: seq<InputBinding>)
    requires |registers| == 16 && k <= 16
    ensures |t| == 16
    decreases k
  {
    if k == 0 then seq(16, _ => Dummy)
    else
      var t := BindInputs(registers, numAttributes, k - 1);
      if numAttributes > k - 1 then t[registers[k - 1] := Attribute(k - 1)] else t
  }

  /**
   * Entry `r` is the dummy exactly when no attribute below `numAttributes`
   * maps to it; otherwise it is the last such attribute.
   */
  lemma {:induction false} InputBindingIsLastMapped(registers: seq<RegIndex>, numAttributes: int, k: nat, r: RegIndex)
    requires |registers| == 16 && k <= 16
    ensures var b := BindInputs(registers, numAttributes, k)[r];
      && (b.Dummy? <==> forall a :: 0 <= a < k && a < numAttributes ==> registers[a] != r)
      && (b.Attribute? ==>
            && b.index < k && b.index < numAttributes && registers[b.index] == r
            && forall a :: b.index < a < k && a < numAttributes ==> registers[a] != r)
    decreases k
  {
    if k > 0 {
      InputBindingIsLastMapped(registers, numAttributes, k - 1, r);
    }
  }

  // ---------------------------------------------------------------------
  // Shader memory, swizzle patterns and uniforms
  // ---------------------------------------------------------------------

  /** The three global banks the command processor fills before a draw. */
  class ShaderStore {
    const memory: array<u32>
    const swizzles: array<u32>
    const uniforms: array<Vec4>

    ghost predicate Valid()
      reads this
    {
      && memory.Length == MEMORY_WORDS && swizzles.Length == MEMORY_WORDS
      && uniforms.Length == UNIFORM_COUNT && memory != swizzles
    }

    /** Static storage: every word and every uniform lane starts at zero. */
    constructor ()
      ensures Valid()
      ensures memory[..] == seq(MEMORY_WORDS, _ => 0) && swizzles[..] == seq(MEMORY_WORDS, _ => 0)
      ensures uniforms[..] == seq(UNIFORM_COUNT, _ => ZERO_VEC)
    {
      memory := new u32[MEMORY_WORDS](_ => 0);
      swizzles := new u32[MEMORY_WORDS](_ => 0);
      uniforms := new Vec4[UNIFORM_COUNT](_ => ZERO_VEC);
    }

    method SubmitShaderMemoryChange(addr: u32, value: u32)
      requires Valid() && addr < MEMORY_WORDS
      modifies memory
      ensures memory[..] == old(memory[..])[addr := value]
      ensures swizzles[..] == old(swizzles[..])
    {
      memory[addr] := value;
    }

    method SubmitSwizzleDataChange(addr: u32, value: u32)
      requires Valid() && addr < MEMORY_WORDS
      modifies swizzles
      ensures swizzles[..] == old(swizzles[..])[addr := value]
      ensures memory[..] == old(memory[..])
    {
      swizzles[addr] := value;
    }

    /** The uniform `GetFloatUniform(index)` refers to. */
    function GetFloatUniform(index: u32): Vec4
      requires Valid() && index < UNIFORM_COUNT
      reads this, uniforms
    {
      uniforms[index]
    }

    /** A store of one lane through the reference `GetFloatUniform(index)` returns. */
    method SetFloatUniform(index: u32, lane: Lane, value: Float24)
      requires Valid() && index < UNIFORM_COUNT
      modifies uniforms
      ensures GetFloatUniform(index).At(lane) == value
      ensures forall i: Lane :: i != lane ==> GetFloatUniform(index).At(i) == old(GetFloatUniform(index)).At(i)
      ensures forall k :: 0 <= k < UNIFORM_COUNT && k != index ==> uniforms[k] == old(uniforms[k])
    {
      uniforms[index] := uniforms[index].With(lane, value);
    }
  }

  // ---------------------------------------------------------------------
  // The interpreter
  // ---------------------------------------------------------------------

  datatype Status = Continue | Exited | Faulted(error: Error)

  function StatusOf(r: StepResult): Status
  {
    match r
    case Next(_) => Continue
    case Exit(_) => Exited
    case Fault(e) => Faulted(e)
  }

  datatype RunStatus = Done | Crashed(error: Error) | Exhausted

  function RunStatusOf(o: Outcome): RunStatus
  {
    match o
    case Finished(_) => Done
    case Failed(e) => Crashed(e)
    case OutOfFuel(_) => Exhausted
  }

  /** `VertexShaderState`: the registers one invocation runs on. */
  class ShaderState {
    var pc: nat
    const callStack: array<u32>
    var sp: int
    const temps: array<Vec4>
    var statusRegisters: seq<bool>
    var output: map<nat, Float24>
    var maxOffset: u32
    var maxOpdescId: u32

    ghost predicate Valid()
      reads this
    {
      callStack.Length == CALL_STACK_DEPTH && temps.Length == 16 && 0 <= sp < CALL_STACK_DEPTH
    }

    function Snapshot(): (m: Machine)
      reads this, callStack, temps
      ensures Valid() ==> WellFormed(m)
    {
      Machine(pc, callStack[..], sp, temps[..], output, maxOffset, maxOpdescId)
    }

    /**
     * The set-up of `RunShader`: execution starts at `mainOffset`, both
     * maxima and both status flags are cleared, every stack entry is empty
     * and the stack pointer is at slot 0.  The temporaries are not
     * initialised by the code; `initialTemps` is whatever they hold.
     */
    constructor (mainOffset: nat, initialTemps: seq<Vec4>)
      requires |initialTemps| == 16
      ensures Valid() && Snapshot() == Initial(mainOffset, initialTemps)
      ensures statusRegisters == [false, false]
      ensures fresh(callStack) && fresh(temps)
    {
      pc := mainOffset;
      maxOffset := 0;
      maxOpdescId := 0;
      output := map[];
      temps := new Vec4[16](i requires 0 <= i < 16 => initialTemps[i]);
      statusRegisters := [false, false];
      callStack := new u32[CALL_STACK_DEPTH](_ => INVALID_ADDRESS);
      sp := 0;
      new;
      assert temps[..] == initialTemps;
      assert callStack[..] == seq(CALL_STACK_DEPTH, _ => INVALID_ADDRESS);
    }

    /** One pass of the `while (true)` loop of `ProcessShaderCode`. */
    method RunInstruction(env: Env) returns (r: Status)
      requires env.Valid() && Valid()
      modifies this, callStack, temps
      ensures Valid()
      ensures r == StatusOf(Step(env, old(Snapshot())))
      ensures !r.Faulted? ==> Snapshot() == Step(env, old(Snapshot())).m
    {
      if pc >= MEMORY_WORDS {
        return Faulted(PcOutOfRange);
      }
      ghost var m0 := Snapshot();
      var instr := env.decoder.instruction(env.code[pc]);
      maxOffset := Max32(maxOffset, 1 + pc);
      assert Snapshot() == m0.(maxOffset := Max32(m0.maxOffset, 1 + m0.pc));
      r := Execute(env, instr);
    }

    /** The `switch` on the opcode; `increment_pc` is folded into each case. */
    method Execute(env: Env, instr: Instruction) returns (r: Status)
      requires env.Valid() && Valid() && pc < MEMORY_WORDS
      modifies this, callStack, temps
      ensures Valid()
      ensures r == StatusOf(Dispatch(env, old(Snapshot()), instr))
      ensures !r.Faulted? ==> Snapshot() == Dispatch(env, old(Snapshot()), instr).m
    {
      match instr.opcode {
        case END => r := ReturnFromCall();
        case CALL => r := Call(instr.destOffset);
        case NOP =>
          pc := pc + 1;
          r := Continue;
        case Unhandled(_) =>
          pc := pc + 1;
          r := Continue;
        case _ => r := Arithmetic(env, instr);
      }
    }

    method ReturnFromCall() returns (r: Status)
      requires Valid()
      modifies this, callStack
      ensures Valid()
      ensures r == StatusOf(ExecEnd(old(Snapshot())))
      ensures !r.Faulted? ==> Snapshot() == ExecEnd(old(Snapshot())).m
    {
      if callStack[sp] == INVALID_ADDRESS {
        pc := pc + 1;
        return Exited;
      }
      if sp == 0 {
        return Faulted(CallStackUnderflow);
      }
      pc := callStack[sp];
      callStack[sp] := INVALID_ADDRESS;
      sp := sp - 1;
      pc := pc + 1;
      r := Continue;
    }

    method Call(dest: nat) returns (r: Status)
      requires Valid() && pc < MEMORY_WORDS
      modifies this, callStack
      ensures Valid()
      ensures r == StatusOf(ExecCall(old(Snapshot()), dest))
      ensures !r.Faulted? ==> Snapshot() == ExecCall(old(Snapshot()), dest).m
    {
      if sp + 1 >= CALL_STACK_DEPTH {
        return Faulted(CallStackOverflow);
      }
      sp := sp + 1;
      callStack[sp] := pc;
      pc := dest;
      r := Continue;
    }

    /** ADD, MUL, DP3, DP4, RCP, RSQ and MOV: operands first, then the lane loop. */
    method Arithmetic(env: Env, instr: Instruction) returns (r: Status)
      requires env.Valid() && Valid()
      modifies this, temps
      ensures Valid()
      ensures r == StatusOf(ExecArithmetic(env, old(Snapshot()), instr))
      ensures !r.Faulted? ==> Snapshot() == ExecArithmetic(env, old(Snapshot()), instr).m
    {
      var sw := SwizzleOf(env, instr);
      var values := LaneResults(instr.opcode, Source1(env, temps[..], instr, sw), Source2(env, temps[..], instr, sw));
      var n := LaneCount(instr.opcode);
      maxOpdescId := Max32(maxOpdescId, 1 + instr.operandDescId);
      match DecodeDest(instr.dest) {
        case Null =>
          var written := FirstWrittenLane(sw.enabled, n);
          if written {
            return Faulted(NullDestination);
          }
        case TempDest(reg) =>
          WriteTemporary(reg, values, sw.enabled, n);
        case Output(index) =>
          var ok := WriteOutput(env.mapping, env.outputs, index, values, sw.enabled, n);
          if !ok {
            return Faulted(OutputOutOfRange);
          }
      }
      pc := pc + 1;
      r := Continue;
    }

    /** The lane loop through a null destination: the first enabled lane is fatal. */
    method FirstWrittenLane(enabled: Mask, n: nat) returns (written: bool)
      requires n <= 4
      ensures written == AnyWritten(enabled, n)
    {
      var i := 0;
      while i < n
        invariant 0 <= i <= n
        invariant forall j: Lane :: j < i ==> !Written(enabled, n, j)
      {
        if enabled.At(i) {
          assert Written(enabled, n, i);
          return true;
        }
        i := i + 1;
      }
      return false;
    }

    /** The lane loop into temporary `reg`. */
    method WriteTemporary(reg: RegIndex, values: Vec4, enabled: Mask, n: nat)
      requires Valid() && n <= 4
      modifies temps
      ensures temps[..] == old(temps[..])[reg := MergeUpTo(old(temps[reg]), values, enabled, n, 4)]
    {
      ghost var before := temps[reg];
      var i := 0;
      assert MergeUpTo(before, values, enabled, n, 0) == before;
      while i < n
        invariant 0 <= i <= n
        invariant temps[..] == old(temps[..])[reg := MergeUpTo(before, values, enabled, n, i)]
      {
        if enabled.At(i) {
          assert MergeUpTo(before, values, enabled, n, i + 1) == MergeUpTo(before, values, enabled, n, i).With(i, values.At(i));
          temps[reg] := temps[reg].With(i, values.At(i));
        } else {
          assert MergeUpTo(before, values, enabled, n, i + 1) == MergeUpTo(before, values, enabled, n, i);
        }
        i := i + 1;
      }
      assert MergeUpTo(before, values, enabled, n, i) == MergeUpTo(before, values, enabled, n, 4);
    }

    /** The lane loop into output register `index`. */
    method WriteOutput(mapping: LaneMapping, outputs: seq<nat>, index: nat, values: Vec4, enabled: Mask, n: nat)
      returns (ok: bool)
      requires n <= 4
      modifies this`output
      ensures var o := StoreLanes(old(output), mapping, outputs, index, values, enabled, n, 4);
        ok == o.Some? && (ok ==> output == o.value)
    {
      var i := 0;
      while i < n
        invariant 0 <= i <= n
        invariant StoreLanes(old(output), mapping, outputs, index, values, enabled, n, i) == Some(output)
      {
        if enabled.At(i) {
          var slot := OutputLaneSlot(mapping, outputs, index, i);
          if slot.None? {
            StoreLanesStaysNone(old(output), mapping, outputs, index, values, enabled, n, i + 1);
            return false;
          }
          output := output[slot.value := values.At(i)];
        }
        i := i + 1;
      }
      StoreLanesPastCount(old(output), mapping, outputs, index, values, enabled, n, i);
      return true;
    }

    /** One instruction of a run that still has `fuel` steps left. */
    method RunStep(env: Env, ghost fuel: nat) returns (r: Status)
      requires env.Valid() && Valid() && fuel > 0
      modifies this, callStack, temps
      ensures Valid()
      ensures r.Continue? ==> Run(env, Snapshot(), fuel - 1) == Run(env, old(Snapshot()), fuel)
      ensures r.Exited? ==> Run(env, old(Snapshot()), fuel) == Finished(Snapshot())
      ensures r.Faulted? ==> Run(env, old(Snapshot()), fuel) == Failed(r.error)
    {
      RunUnfolds(env, Snapshot(), fuel);
      r := RunInstruction(env);
    }

    /** The interpreter loop, for at most `fuel` instructions. */
    method ProcessShaderCode(env: Env, fuel: nat) returns (s: RunStatus)
      requires env.Valid() && Valid()
      modifies this, callStack, temps
      ensures Valid()
      ensures s == RunStatusOf(Run(env, old(Snapshot()), fuel))
      ensures !s.Crashed? ==> Snapshot() == Run(env, old(Snapshot()), fuel).m
    {
      var steps := 0;
      while steps < fuel
        invariant Valid() && steps <= fuel
        invariant Run(env, Snapshot(), fuel - steps) == Run(env, old(Snapshot()), fuel)
        decreases fuel - steps
      {
        var r := RunStep(env, fuel - steps);
        if r.Exited? {
          return Done;
        }
        if r.Faulted? {
          return Crashed(r.error);
        }
        steps := steps + 1;
      }
      return Exhausted;
    }
  }

  /** A run with fuel left is one step and then the rest of the run. */
  lemma RunUnfolds(env: Env, m: Machine, fuel: nat)
    requires env.Valid() && WellFormed(m) && fuel > 0
    ensures var r := Step(env, m);
      && (r.Next? ==> Run(env, m, fuel) == Run(env, r.m, fuel - 1))
      && (r.Exit? ==> Run(env, m, fuel) == Finished(r.m))
      && (r.Fault? ==> Run(env, m, fuel) == Failed(r.error))
  {
  }

  /** Once a lane fails to find its slot, later lanes do not recover. */
  lemma {:induction false} StoreLanesStaysNone(
    out: map<nat, Float24>, mapping: LaneMapping, outputs: seq<nat>, index: nat,
    values: Vec4, enabled: Mask, n: nat, k: nat)
    requires 0 < k <= 4 && StoreLanes(out, mapping, outputs, index, values, enabled, n, k).None?
    ensures StoreLanes(out, mapping, outputs, index, values, enabled, n, 4).None?
    decreases 4 - k
  {
    if k < 4 {
      StoreLanesStaysNone(out, mapping, outputs, index, values, enabled, n, k + 1);
    }
  }

  /** Lanes at or past the loop's count are never written. */
  lemma {:induction false} StoreLanesPastCount(
    out: map<nat, Float24>, mapping: LaneMapping, outputs: seq<nat>, index: nat,
    values: Vec4, enabled: Mask, n: nat, k: nat)
    requires n <= k <= 4
    ensures StoreLanes(out, mapping, outputs, index, values, enabled, n, 4) == StoreLanes(out, mapping, outputs, index, values, enabled, n, k)
    decreases 4 - k
  {
    if k < 4 {
      StoreLanesPastCount(out, mapping, outputs, index, values, enabled, n, k + 1);
    }
  }

  // ---------------------------------------------------------------------
  // One invocation
  // ---------------------------------------------------------------------

  /**
   * The shader registers `RunShader` reads: the entry offset, the register
   * each attribute is bound to, and the four output-vertex slots of each
   * output register.
   */
  datatype ShaderConfig = ShaderConfig(
    mainOffset: nat, attributeRegisters: seq<RegIndex>, outputSemantics: seq<seq<nat>>)
  {
    predicate Valid()
    {
      |attributeRegisters| == 16 && |outputSemantics| == OUTPUT_REGISTERS && Rows4(outputSemantics)
    }
  }

  function EnvOf(
    store: ShaderStore, decoder: Decoder, config: ShaderConfig,
    attributes: seq<Vec4>, numAttributes: int, dummy: Vec4): Env
    requires config.Valid()
    reads store, store.memory, store.swizzles, store.uniforms
  {
    Env(store.memory[..], store.swizzles[..], store.uniforms[..], decoder,
        BindInputs(config.attributeRegisters, numAttributes, 16), Flatten(config.outputSemantics),
        attributes, dummy, FirstEntryPlusLane)
  }

  /** The output register table loop: entry `4*i + comp` is slot `semantics[i][comp]`. */
  method BuildOutputTable(semantics: seq<seq<nat>>) returns (table: seq<nat>)
    requires |semantics| == OUTPUT_REGISTERS && Rows4(semantics)
    ensures table == Flatten(semantics)
  {
    table := [];
    var i := 0;
    while i < OUTPUT_REGISTERS
      invariant 0 <= i <= OUTPUT_REGISTERS
      invariant table == Flatten(semantics[..i])
    {
      var comp := 0;
      while comp < 4
        invariant 0 <= comp <= 4
        invariant table == Flatten(semantics[..i]) + semantics[i][..comp]
      {
        table := table + [semantics[i][comp]];
        comp := comp + 1;
      }
      assert semantics[..i + 1][..i] == semantics[..i];
      i := i + 1;
    }
    assert semantics[..i] == semantics;
  }

  /**
   * One vertex: bind the inputs, build the output table, set up the state
   * and run the program; `ret` is the output vertex the run wrote.
   */
  method RunShader(
    store: ShaderStore, decoder: Decoder, config: ShaderConfig,
    attributes: seq<Vec4>, numAttributes: int, dummy: Vec4,
    initialTemps: seq<Vec4>, fuel: nat)
    returns (status: RunStatus, ret: map<nat, Float24>)
    requires store.Valid() && config.Valid() && |attributes| == 16 && |initialTemps| == 16
    ensures var o := Run(EnvOf(store, decoder, config, attributes, numAttributes, dummy),
                         Initial(config.mainOffset, initialTemps), fuel);
      status == RunStatusOf(o) && (!status.Crashed? ==> ret == o.m.output)
  {
    var inputs := BindInputs(config.attributeRegisters, numAttributes, 16);
    var outputs := BuildOutputTable(config.outputSemantics);
    var env := Env(store.memory[..], store.swizzles[..], store.uniforms[..], decoder, inputs, outputs, attributes, dummy,
                   FirstEntryPlusLane);
    var state := new ShaderState(config.mainOffset, initialTemps);
    status := state.ProcessShaderCode(env, fuel);
    ret := state.output;
  }
}

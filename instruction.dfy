/** The instruction set as a closed datatype, and the decoder from opcode
    bytes to instructions. */
module Instructions {
  import opened Words

  datatype Option<T> = None | Some(value: T)

  /** 8-bit register operands. */
  datatype ArithmeticTarget = A | B | C | D | E | H | L

  /** 16-bit operands of ADD HL. */
  datatype AddHlTarget = BC | DE | HL | SP

  /** Operands of INC and DEC: an 8-bit register, a register pair or SP. */
  datatype IncDecTarget = A | B | C | D | E | H | L | BC | DE | HL | SP
  {
    predicate IsByteRegister() {
      A? || B? || C? || D? || E? || H? || L?
    }
  }

  /** Condition codes of conditional jumps. */
  datatype JumpTest = NotZero | Zero | NotCarry | Carry | Always

  datatype Instruction =
    | INC(incDec: IncDecTarget)      // increment
    | DEC(incDec: IncDecTarget)      // decrement
    | ADD(arith: ArithmeticTarget)   // add
    | ADDHL(pair: AddHlTarget)       // add to HL
    | ADC(arith: ArithmeticTarget)   // add with carry
    | SUB(arith: ArithmeticTarget)   // subtract
    | SBC(arith: ArithmeticTarget)   // subtract with carry
    | AND(arith: ArithmeticTarget)   // logical and
    | OR(arith: ArithmeticTarget)    // logical or
    | XOR(arith: ArithmeticTarget)   // logical xor
    | CP(arith: ArithmeticTarget)    // compare
    | CCF(arith: ArithmeticTarget)   // complement carry flag
    | SCF(arith: ArithmeticTarget)   // set carry flag
    | RRA(arith: ArithmeticTarget)   // rotate A right
    | RLA(arith: ArithmeticTarget)   // rotate A left
    | RRCA(arith: ArithmeticTarget)  // rotate A right, no carry
    | RRLA(arith: ArithmeticTarget)  // rotate A left, no carry
    | CPL(arith: ArithmeticTarget)   // complement
    | BIT(arith: ArithmeticTarget)   // bit test
    | RESET(arith: ArithmeticTarget) // bit reset
    | SET(arith: ArithmeticTarget)   // bit set
    | SRL(arith: ArithmeticTarget)   // shift right logical
    | SLL(arith: ArithmeticTarget)   // shift left logical
    | SRA(arith: ArithmeticTarget)   // shift right arithmetic
    | SLA(arith: ArithmeticTarget)   // shift left arithmetic
    | RR(arith: ArithmeticTarget)    // rotate right
    | RL(arith: ArithmeticTarget)    // rotate left
    | RRC(arith: ArithmeticTarget)   // rotate right, no carry
    | RLC(arith: ArithmeticTarget)   // rotate left, no carry
    | SWAP(arith: ArithmeticTarget)  // swap nibbles
    | JP(test: JumpTest)             // absolute jump
  {
    /** The families the decoder produces. */
    predicate IsDecodable() {
      INC? || DEC? || ADD? || ADDHL?
    }
  }

  /** The escape byte that announces a prefixed opcode. */
  const PREFIX: u8 := 0xCB

  /** The 33 opcodes the decoder recognises. */
  const OPCODES: set<u8> := {
    0x3C, 0x04, 0x14, 0x24, 0x0C, 0x1C, 0x2C, 0x03, 0x13, 0x23, 0x33,
    0x3D, 0x05, 0x0D, 0x15, 0x1D, 0x25, 0x2D, 0x0B, 0x1B, 0x2B, 0x3B,
    0x87, 0x80, 0x81, 0x82, 0x83, 0x84, 0x85,
    0x09, 0x19, 0x29, 0x39
  }

  /** The same opcodes, in ascending order. */
  const OPCODES_ASCENDING: seq<u8> := [
    0x03, 0x04, 0x05, 0x09, 0x0B, 0x0C, 0x0D, 0x13, 0x14, 0x15, 0x19, 0x1B, 0x1C, 0x1D,
    0x23, 0x24, 0x25, 0x29, 0x2B, 0x2C, 0x2D, 0x33, 0x39, 0x3B, 0x3C, 0x3D,
    0x80, 0x81, 0x82, 0x83, 0x84, 0x85, 0x87]

  predicate Increasing(s: seq<u8>) {
    forall i :: 0 <= i < |s| - 1 ==> s[i] < s[i + 1]
  }

  /** In a strictly increasing sequence the first element is below every
      later one. */
  lemma {:induction false} IncreasingFrom(s: seq<u8>, j: nat)
    requires Increasing(s) && 0 < j < |s|
    ensures s[0] < s[j]
    decreases j
  {
    if j > 1 {
      IncreasingFrom(s, j - 1);
    }
  }

  /** A strictly increasing sequence has no repeated element, so it holds
      as many distinct values as it has positions. */
  lemma {:induction false} IncreasingCount(s: seq<u8>)
    requires Increasing(s)
    ensures |set x | x in s| == |s|
    decreases |s|
  {
    if s != [] {
      var rest := s[1..];
      assert Increasing(rest);
      IncreasingCount(rest);
      forall j | 0 <= j < |rest|
        ensures s[0] < rest[j]
      {
        IncreasingFrom(s, j + 1);
      }
      assert (set x | x in s) == {s[0]} + (set x | x in rest);
    }
  }

  lemma AscendingTableIncreases()
    ensures Increasing(OPCODES_ASCENDING)
  {
  }

  lemma AscendingTableIsOpcodes()
    ensures (set x | x in OPCODES_ASCENDING) == OPCODES
  {
  }

  /** The decoder recognises exactly 33 distinct bytes. */
  lemma OpcodeCount()
    ensures |OPCODES| == 33
  {
    AscendingTableIncreases();
    AscendingTableIsOpcodes();
    IncreasingCount(OPCODES_ASCENDING);
  }

  /** The opcode of an instruction, written independently of the decoder:
      the register field of INC/DEC/ADD sits in bits 5..3 (INC, DEC) or
      2..0 (ADD), the pair field of 16-bit forms in bits 5..4. */
  function Opcode(instr: Instruction): Option<u8> {
    match instr
    case INC(t) => Some(if t.IsByteRegister() then 0x04 + RegisterCode(t) * 8 else 0x03 + PairCode(t) * 16)
    case DEC(t) => Some(if t.IsByteRegister() then 0x05 + RegisterCode(t) * 8 else 0x0B + PairCode(t) * 16)
    case ADD(r) => Some(0x80 + ArithmeticCode(r))
    case ADDHL(p) => Some(0x09 + AddHlCode(p) * 16)
    case _ => None
  }

  /** The 3-bit register field: B, C, D, E, H, L, -, A. */
  function ArithmeticCode(r: ArithmeticTarget): u8 {
    match r
    case B => 0 case C => 1 case D => 2 case E => 3 case H => 4 case L => 5 case A => 7
  }

  function RegisterCode(t: IncDecTarget): u8
    requires t.IsByteRegister()
  {
    match t
    case B => 0 case C => 1 case D => 2 case E => 3 case H => 4 case L => 5 case A => 7
  }

  /** The 2-bit register-pair field: BC, DE, HL, SP. */
  function PairCode(t: IncDecTarget): u8
    requires !t.IsByteRegister()
  {
    match t
    case BC => 0 case DE => 1 case HL => 2 case SP => 3
  }

  function AddHlCode(p: AddHlTarget): u8 {
    match p
    case BC => 0 case DE => 1 case HL => 2 case SP => 3
  }

  /** The decoder: a fixed table from opcode bytes to instructions;
      every byte outside the table, the prefix escape among them, gives
      None. */
  function FromByte(b: u8): (r: Option<Instruction>)
    ensures r.Some? <==> b in OPCODES
    ensures r.Some? ==> r.value.IsDecodable() && Opcode(r.value) == Some(b)
  {
    match b
    case 0x3C => Some(INC(IncDecTarget.A))
    case 0x04 => Some(INC(IncDecTarget.B))
    case 0x14 => Some(INC(IncDecTarget.D))
    case 0x24 => Some(INC(IncDecTarget.H))
    case 0x0C => Some(INC(IncDecTarget.C))
    case 0x1C => Some(INC(IncDecTarget.E))
    case 0x2C => Some(INC(IncDecTarget.L))
    case 0x03 => Some(INC(IncDecTarget.BC))
    case 0x13 => Some(INC(IncDecTarget.DE))
    case 0x23 => Some(INC(IncDecTarget.HL))
    case 0x33 => Some(INC(IncDecTarget.SP))

    case 0x3D => Some(DEC(IncDecTarget.A))
    case 0x05 => Some(DEC(IncDecTarget.B))
    case 0x0D => Some(DEC(IncDecTarget.C))
    case 0x15 => Some(DEC(IncDecTarget.D))
    case 0x1D => Some(DEC(IncDecTarget.E))
    case 0x25 => Some(DEC(IncDecTarget.H))
    case 0x2D => Some(DEC(IncDecTarget.L))
    case 0x0B => Some(DEC(IncDecTarget.BC))
    case 0x1B => Some(DEC(IncDecTarget.DE))
    case 0x2B => Some(DEC(IncDecTarget.HL))
    case 0x3B => Some(DEC(IncDecTarget.SP))

    case 0x87 => Some(ADD(ArithmeticTarget.A))
    case 0x80 => Some(ADD(ArithmeticTarget.B))
    case 0x81 => Some(ADD(ArithmeticTarget.C))
    case 0x82 => Some(ADD(ArithmeticTarget.D))
    case 0x83 => Some(ADD(ArithmeticTarget.E))
    case 0x84 => Some(ADD(ArithmeticTarget.H))
    case 0x85 => Some(ADD(ArithmeticTarget.L))

    case 0x09 => Some(ADDHL(AddHlTarget.BC))
    case 0x19 => Some(ADDHL(AddHlTarget.DE))
    case 0x29 => Some(ADDHL(AddHlTarget.HL))
    case 0x39 => Some(ADDHL(AddHlTarget.SP))

    case _ => None
  }

  /** Every instruction that has an opcode is decoded back from it: with
      the postcondition of FromByte this makes Opcode and FromByte inverse
      bijections between OPCODES and the decodable instructions. */
  lemma {:induction false} DecodeOpcode(instr: Instruction)
    requires Opcode(instr).Some?
    ensures FromByte(Opcode(instr).value) == Some(instr)
  {
    match instr
    case INC(t) =>
    case DEC(t) =>
    case ADD(r) =>
    case ADDHL(p) =>
  }

  /** An instruction has an opcode exactly when the decoder can produce it. */
  lemma OpcodeExactlyForDecodable(instr: Instruction)
    ensures Opcode(instr).Some? <==> instr.IsDecodable()
  {
  }

  /** No two recognised opcodes decode to the same instruction. */
  lemma FromByteInjective(b1: u8, b2: u8)
    requires FromByte(b1).Some? && FromByte(b1) == FromByte(b2)
    ensures b1 == b2
  {
  }

  /** The decoder never produces a jump, nor any family beyond INC, DEC,
      ADD and ADD HL: no ALU operation other than ADD, no rotate, shift,
      bit or swap instruction. */
  lemma FromByteNeverJumps(b: u8)
    ensures FromByte(b).Some? ==> FromByte(b).value.IsDecodable()
    ensures FromByte(b).Some? ==> !FromByte(b).value.JP?
  {
  }

  /** The prefix escape is not itself an opcode of the table. */
  lemma PrefixNotDecoded()
    ensures FromByte(PREFIX) == None
  {
  }
}

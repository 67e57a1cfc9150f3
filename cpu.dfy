/** The execution engine: CPU state, the arithmetic rules of ADD and
    ADD HL, conditional jumps, and the fetch-decode-execute step.

    The machine is first described by value (`Machine` and the functions
    `AluAdd`, `AluAddHl`, `Jump`, `ExecuteResult`, `StepResult`); the class
    `Cpu` then updates its fields in place, as the emulator does, and each
    of its methods is proved to move its state exactly as the matching
    function says. */
module Cpu {
  import opened Words
  import Flags
  import opened Registers
  import opened Memory
  import opened Instructions

  datatype Machine = Machine(registers: Registers, pc: u16, sp: u16, bus: MemoryBus)

  // ---------------------------------------------------------------------
  // Arithmetic rules

  /** ADD: `a + value` with its flags. `overflowing_add` gives the wrapped
      sum and whether it overflowed; `x & 0xF` is `x % 16`. The result and
      the carry together hold the exact sum, the carry is set exactly when
      the sum wrapped below `a`, and the half-carry exactly when the low
      nibble wrapped below that of `a` (a carry out of bit 3). */
  function AluAdd(a: u8, value: u8, flags: Flags.FlagsRegister): (r: (u8, Flags.FlagsRegister))
    ensures r.0 as int == (a as int + value as int) % 0x100
    ensures r.0 as int + (if r.1.carry then 0x100 else 0) == a as int + value as int
    ensures r.1.zero <==> r.0 == 0
    ensures !r.1.subtract
    ensures r.1.carry <==> r.0 < a
    ensures r.1.halfCarry <==> r.0 as int % 0x10 < a as int % 0x10
  {
    var sum := a as int + value as int;
    var res := (sum % 0x100) as u8;
    var carry := sum > 0xFF;
    (res, flags.(zero := res == 0, subtract := false, carry := carry,
                 halfCarry := a as int % 0x10 + value as int % 0x10 > 0xF))
  }

  /** ADD HL: `hl + value` with its flags. The half-carry mask is 0x7FF,
      the low eleven bits, so the half-carry is a carry out of bit 10. The
      zero flag keeps its old value. */
  function AluAddHl(hl: u16, value: u16, flags: Flags.FlagsRegister): (r: (u16, Flags.FlagsRegister))
    ensures r.0 as int == (hl as int + value as int) % 0x1_0000
    ensures r.0 as int + (if r.1.carry then 0x1_0000 else 0) == hl as int + value as int
    ensures r.1.zero == flags.zero
    ensures !r.1.subtract
    ensures r.1.carry <==> r.0 < hl
    ensures r.1.halfCarry <==> r.0 as int % 0x800 < hl as int % 0x800
  {
    var sum := hl as int + value as int;
    var res := (sum % 0x1_0000) as u16;
    var carry := sum > 0xFFFF;
    var mask := 0x7FF;
    LowElevenBitsCarry(hl as int, value as int, res as int);
    (res, flags.(subtract := false, carry := carry,
                 halfCarry := value as int % (mask + 1) + hl as int % (mask + 1) > mask))
  }

  /** The low eleven bits of two words carry out exactly when the low
      eleven bits of their wrapped sum fall below those of the first. */
  lemma LowElevenBitsCarry(x: int, y: int, res: int)
    requires 0 <= x < 0x1_0000 && 0 <= y < 0x1_0000 && res == (x + y) % 0x1_0000
    ensures y % 0x800 + x % 0x800 > 0x7FF <==> res % 0x800 < x % 0x800
  {
    var qx, rx := x / 0x800, x % 0x800;
    var qy, ry := y / 0x800, y % 0x800;
    assert x == 0x800 * qx + rx && y == 0x800 * qy + ry;
    var low := if x + y >= 0x1_0000 then x + y - 0x1_0000 else x + y;
    assert res == low;
    assert res == 0x800 * (qx + qy - (if x + y >= 0x1_0000 then 0x20 else 0)) + (rx + ry);
    if rx + ry > 0x7FF {
      assert res % 0x800 == rx + ry - 0x800;
    } else {
      assert res % 0x800 == rx + ry;
    }
  }

  /** Adding 1 to HL = 0xFFFF wraps to 0 and sets carry and half-carry,
      leaving the zero flag as it was. */
  lemma AddHlOverflow(flags: Flags.FlagsRegister)
    ensures AluAddHl(0xFFFF, 1, flags) == (0, flags.(subtract := false, carry := true, halfCarry := true))
  {
  }

  /** The half-carry of ADD is the carry out of the low nibbles, for every
      pair of operands. */
  lemma AddHalfCarry(a: u8, value: u8, flags: Flags.FlagsRegister)
    ensures AluAdd(a, value, flags).1.halfCarry <==> (a as int % 0x10) + (value as int % 0x10) > 0xF
    ensures AluAdd(a, value, flags).1.carry <==> a as int + value as int > 0xFF
  {
  }

  /** The half-carry of ADD HL is the carry out of the low eleven bits
      (mask 0x7FF), for every pair of operands. */
  lemma AddHlHalfCarry(hl: u16, value: u16, flags: Flags.FlagsRegister)
    ensures AluAddHl(hl, value, flags).1.halfCarry <==> (hl as int % 0x800) + (value as int % 0x800) > 0x7FF
    ensures AluAddHl(hl, value, flags).1.carry <==> hl as int + value as int > 0xFFFF
  {
    LowElevenBitsCarry(hl as int, value as int, AluAddHl(hl, value, flags).0 as int);
  }

  // ---------------------------------------------------------------------
  // Jumps

  function Condition(flags: Flags.FlagsRegister, test: JumpTest): bool {
    match test
    case NotZero => !flags.zero
    case NotCarry => !flags.carry
    case Zero => flags.zero
    case Carry => flags.carry
    case Always => true
  }

  /** A taken jump reads the two bytes after the opcode, so both must be
      inside the bus and `pc + 2` must not overflow. */
  predicate JumpInBounds(m: Machine, shouldJump: bool) {
    shouldJump ==> m.pc as int + 2 < MEMORY_SIZE
  }

  /** The target of JP: the little-endian word after the opcode when the
      jump is taken, otherwise the address three bytes on (wrapping). */
  function Jump(m: Machine, shouldJump: bool): (target: u16)
    requires m.bus.Valid() && JumpInBounds(m, shouldJump)
    ensures shouldJump ==> Low(target) == m.bus.memory[m.pc as int + 1] && High(target) == m.bus.memory[m.pc as int + 2]
    ensures !shouldJump ==> target as int == (m.pc as int + 3) % 0x1_0000
  {
    if shouldJump then
      var leastSignificantByte := m.bus.ReadByte(m.pc + 1);
      var mostSignificantByte := m.bus.ReadByte(m.pc + 2);
      PairSplit(0, mostSignificantByte, leastSignificantByte);
      Pair(mostSignificantByte, leastSignificantByte)
    else
      ((m.pc as int + 3) % 0x1_0000) as u16
  }

  // ---------------------------------------------------------------------
  // Operands

  /** The 8-bit register an INC/DEC operand names. */
  function ByteRegister(r: Registers, t: IncDecTarget): u8
    requires t.IsByteRegister()
  {
    match t
    case A => r.a case B => r.b case C => r.c case D => r.d case E => r.e case H => r.h case L => r.l
  }

  function WithByteRegister(r: Registers, t: IncDecTarget, v: u8): Registers
    requires t.IsByteRegister()
  {
    match t
    case A => r.(a := v) case B => r.(b := v) case C => r.(c := v) case D => r.(d := v)
    case E => r.(e := v) case H => r.(h := v) case L => r.(l := v)
  }

  /** The 16-bit value an INC/DEC operand names: a register pair or SP. */
  function Word(m: Machine, t: IncDecTarget): u16
    requires !t.IsByteRegister()
  {
    match t
    case BC => m.registers.GetBC() case DE => m.registers.GetDE() case HL => m.registers.GetHL() case SP => m.sp
  }

  function WithWord(m: Machine, t: IncDecTarget, v: u16): Machine
    requires !t.IsByteRegister()
  {
    match t
    case BC => m.(registers := m.registers.SetBC(v))
    case DE => m.(registers := m.registers.SetDE(v))
    case HL => m.(registers := m.registers.SetHL(v))
    case SP => m.(sp := v)
  }

  /** The operand of ADD HL. */
  function AddHlOperand(m: Machine, p: AddHlTarget): u16 {
    match p
    case BC => m.registers.GetBC() case DE => m.registers.GetDE() case HL => m.registers.GetHL() case SP => m.sp
  }

  // ---------------------------------------------------------------------
  // Execute and step, by value

  /** What executing `instr` needs of the bus: only a taken jump reads. */
  predicate ExecuteInBounds(m: Machine, instr: Instruction) {
    instr.JP? ==> JumpInBounds(m, Condition(m.registers.f, instr.test))
  }

  /** The machine after executing `instr`, and the program counter the
      handler returns. Only JP returns anything other than `pc`. */
  function ExecuteResult(m: Machine, instr: Instruction): (Machine, u16)
    requires m.bus.Valid() && ExecuteInBounds(m, instr)
  {
    match instr
    case INC(t) =>
      if t.IsByteRegister() then
        (m.(registers := WithByteRegister(m.registers, t, WrappingInc8(ByteRegister(m.registers, t)))), m.pc)
      else
        (WithWord(m, t, WrappingInc16(Word(m, t))), m.pc)
    case DEC(t) =>
      if t.IsByteRegister() then
        (m.(registers := WithByteRegister(m.registers, t, WrappingDec8(ByteRegister(m.registers, t)))), m.pc)
      else
        (WithWord(m, t, WrappingDec16(Word(m, t))), m.pc)
    case ADD(t) =>
      if t == ArithmeticTarget.C then
        var (res, flags) := AluAdd(m.registers.a, m.registers.c, m.registers.f);
        (m.(registers := m.registers.(f := flags, a := res)), m.pc)
      else
        (m, m.pc)
    case ADDHL(p) =>
      var (res, flags) := AluAddHl(m.registers.GetHL(), AddHlOperand(m, p), m.registers.f);
      (m.(registers := m.registers.(f := flags).SetHL(res)), m.pc)
    case JP(test) =>
      (m, Jump(m, Condition(m.registers.f, test)))
    case _ =>
      (m, m.pc)
  }

  /** What a step needs of the bus: the opcode byte, and the byte after
      it when the opcode is the prefix escape. */
  predicate StepInBounds(m: Machine)
    requires m.bus.Valid()
  {
    m.bus.InRange(m.pc)
    && (m.bus.ReadByte(m.pc) == PREFIX ==> m.pc as int + 1 < MEMORY_SIZE)
  }

  /** The byte a step decodes: the one at `pc`, or the one after it when
      that is the prefix escape. Both kinds go through the same table. */
  function FetchedByte(m: Machine): u8
    requires m.bus.Valid() && StepInBounds(m)
  {
    var instructionByte := m.bus.ReadByte(m.pc);
    if instructionByte == PREFIX then m.bus.ReadByte(m.pc + 1) else instructionByte
  }

  /** One fetch-decode-execute step: an undecodable byte changes nothing;
      otherwise `pc` becomes what the handler returns. */
  function StepResult(m: Machine): Machine
    requires m.bus.Valid() && StepInBounds(m)
  {
    match FromByte(FetchedByte(m))
    case Some(instr) =>
      var (next, nextPc) := ExecuteResult(m, instr);
      next.(pc := nextPc)
    case None => m
  }

  // ---------------------------------------------------------------------
  // Properties of the instruction handlers

  /** 8-bit INC/DEC: the named register steps by one modulo 256; flags,
      SP, PC, the bus and every other register stay as they were. */
  lemma IncDecByteRegister(m: Machine, t: IncDecTarget)
    requires m.bus.Valid() && t.IsByteRegister()
    ensures var (inc, incPc) := ExecuteResult(m, INC(t));
      incPc == m.pc
      && ByteRegister(inc.registers, t) as int == (ByteRegister(m.registers, t) as int + 1) % 0x100
      && inc == m.(registers := WithByteRegister(m.registers, t, ByteRegister(inc.registers, t)))
    ensures var (dec, decPc) := ExecuteResult(m, DEC(t));
      decPc == m.pc
      && ByteRegister(dec.registers, t) as int == (ByteRegister(m.registers, t) as int - 1) % 0x100
      && dec == m.(registers := WithByteRegister(m.registers, t, ByteRegister(dec.registers, t)))
  {
    WrappingIncDec8(ByteRegister(m.registers, t));
  }

  /** 16-bit INC/DEC: the pair (or SP) steps by one modulo 65536; no flag
      changes, and neither do PC, the bus or the registers outside the
      pair. */
  lemma IncDecWord(m: Machine, t: IncDecTarget)
    requires m.bus.Valid() && !t.IsByteRegister()
    ensures var (inc, incPc) := ExecuteResult(m, INC(t));
      incPc == m.pc && inc.registers.f == m.registers.f
      && Word(inc, t) as int == (Word(m, t) as int + 1) % 0x1_0000
      && inc == WithWord(m, t, Word(inc, t))
    ensures var (dec, decPc) := ExecuteResult(m, DEC(t));
      decPc == m.pc && dec.registers.f == m.registers.f
      && Word(dec, t) as int == (Word(m, t) as int - 1) % 0x1_0000
      && dec == WithWord(m, t, Word(dec, t))
  {
    var w := Word(m, t);
    WrappingIncDec16(w);
    match t
    case SP =>
    case _ =>
      SetGetPair(m.registers, WrappingInc16(w));
      SetGetPair(m.registers, WrappingDec16(w));
  }

  /** INC then DEC of the same operand, or DEC then INC, restores the
      whole machine, at the wrap-around boundaries too. */
  lemma {:induction false} IncDecInverse(m: Machine, t: IncDecTarget)
    requires m.bus.Valid()
    ensures ExecuteResult(ExecuteResult(m, INC(t)).0, DEC(t)).0 == m
    ensures ExecuteResult(ExecuteResult(m, DEC(t)).0, INC(t)).0 == m
  {
    if t.IsByteRegister() {
      WrappingIncDec8(ByteRegister(m.registers, t));
    } else {
      var w := Word(m, t);
      WrappingIncDec16(w);
      SetGetPair(m.registers, WrappingInc16(w));
      SetGetPair(m.registers, WrappingDec16(w));
      SetGetPair(m.registers.SetBC(WrappingInc16(w)), w);
      SetGetPair(m.registers.SetBC(WrappingDec16(w)), w);
      SetGetPair(m.registers.SetDE(WrappingInc16(w)), w);
      SetGetPair(m.registers.SetDE(WrappingDec16(w)), w);
      SetGetPair(m.registers.SetHL(WrappingInc16(w)), w);
      SetGetPair(m.registers.SetHL(WrappingDec16(w)), w);
      SetGetPair(m.registers, w);
    }
  }

  /** ADD is implemented for operand C only: A receives `a + c` with the
      ADD flags; every other operand leaves the machine as it was. */
  lemma AddOnlyC(m: Machine, t: ArithmeticTarget)
    requires m.bus.Valid()
    ensures t != ArithmeticTarget.C ==> ExecuteResult(m, ADD(t)) == (m, m.pc)
    ensures t == ArithmeticTarget.C ==>
      var (next, nextPc) := ExecuteResult(m, ADD(t));
      nextPc == m.pc
      && next.registers.a as int == (m.registers.a as int + m.registers.c as int) % 0x100
      && next.registers.f == AluAdd(m.registers.a, m.registers.c, m.registers.f).1
      && next == m.(registers := m.registers.(a := next.registers.a, f := next.registers.f))
  {
  }

  /** ADD HL: HL receives `hl + operand` modulo 65536 with the ADD HL
      flags; only H, L and the flags change. */
  lemma AddHlEffect(m: Machine, p: AddHlTarget)
    requires m.bus.Valid()
    ensures ExecuteResult(m, ADDHL(p)).1 == m.pc
    ensures ExecuteResult(m, ADDHL(p)).0.registers.GetHL() == AluAddHl(m.registers.GetHL(), AddHlOperand(m, p), m.registers.f).0
    ensures ExecuteResult(m, ADDHL(p)).0.registers.f == AluAddHl(m.registers.GetHL(), AddHlOperand(m, p), m.registers.f).1
    ensures ExecuteResult(m, ADDHL(p)).0.registers.f.zero == m.registers.f.zero
    ensures var next := ExecuteResult(m, ADDHL(p)).0;
      next == m.(registers := m.registers.(f := next.registers.f, h := next.registers.h, l := next.registers.l))
  {
    var r := AluAddHl(m.registers.GetHL(), AddHlOperand(m, p), m.registers.f);
    SetGetPair(m.registers.(f := r.1), r.0);
  }

  /** JP leaves the machine unchanged and returns the little-endian target
      when its condition holds, `pc + 3` (wrapping) when it does not. */
  lemma JumpEffect(m: Machine, test: JumpTest)
    requires m.bus.Valid() && ExecuteInBounds(m, JP(test))
    ensures var (next, target) := ExecuteResult(m, JP(test));
      next == m
      && (Condition(m.registers.f, test) ==>
            target as int == m.bus.memory[m.pc as int + 2] as int * 0x100 + m.bus.memory[m.pc as int + 1] as int)
      && (!Condition(m.registers.f, test) ==> target as int == (m.pc as int + 3) % 0x1_0000)
    ensures Condition(m.registers.f, JumpTest.Always)
    ensures Condition(m.registers.f, JumpTest.Zero) == m.registers.f.zero == !Condition(m.registers.f, JumpTest.NotZero)
    ensures Condition(m.registers.f, JumpTest.Carry) == m.registers.f.carry == !Condition(m.registers.f, JumpTest.NotCarry)
  {
    var target := ExecuteResult(m, JP(test)).1;
    if Condition(m.registers.f, test) {
      PairSplit(target, 0, 0);
    }
  }

  /** Every family the emulator does not implement, ADC through SWAP,
      falls to the catch-all handler: the machine is unchanged and the
      returned pc is the current one. */
  lemma ExecuteOtherFamilies(m: Machine, instr: Instruction)
    requires m.bus.Valid() && !instr.IsDecodable() && !instr.JP?
    ensures ExecuteResult(m, instr) == (m, m.pc)
  {
  }

  /** Only JP can return a pc other than the current one. */
  lemma OnlyJumpMovesPc(m: Machine, instr: Instruction)
    requires m.bus.Valid() && ExecuteInBounds(m, instr) && !instr.JP?
    ensures ExecuteResult(m, instr).1 == m.pc
  {
  }

  // ---------------------------------------------------------------------
  // Properties of a step

  /** A step decodes the byte at `pc`, or the byte after a prefix escape
      with the same table; an undecodable byte leaves the whole machine
      unchanged. */
  lemma StepDecodes(m: Machine)
    requires m.bus.Valid() && StepInBounds(m)
    ensures m.bus.ReadByte(m.pc) != PREFIX ==> FetchedByte(m) == m.bus.ReadByte(m.pc)
    ensures m.bus.ReadByte(m.pc) == PREFIX ==> FetchedByte(m) == m.bus.memory[m.pc as int + 1]
    ensures FromByte(FetchedByte(m)).None? ==> StepResult(m) == m
    ensures FromByte(FetchedByte(m)).Some? ==>
      StepResult(m) == ExecuteResult(m, FromByte(FetchedByte(m)).value).0
  {
  }

  /** No step moves the program counter: the decoder never yields JP, and
      every other handler returns `pc` unchanged. Nor does a step change
      the bus. */
  lemma StepKeepsPc(m: Machine)
    requires m.bus.Valid() && StepInBounds(m)
    ensures StepResult(m).pc == m.pc
    ensures StepResult(m).bus == m.bus
  {
  }

  /** `n` successive steps. Since no step moves `pc` or touches the bus,
      every step fetches from the same place as the first, so the steps
      stay in bounds and `pc` and the bus never change. */
  function Run(m: Machine, n: nat): (r: Machine)
    requires m.bus.Valid() && StepInBounds(m)
    ensures r.pc == m.pc && r.bus == m.bus
    decreases n
  {
    if n == 0 then m
    else
      StepKeepsPc(m);
      Run(StepResult(m), n - 1)
  }

  /** With INC A (0x3C) at `pc`, the CPU executes it again at every step:
      `n` steps add `n` to A modulo 256 and change nothing else. */
  lemma {:induction false} RepeatedIncA(m: Machine, n: nat)
    requires m.bus.Valid() && StepInBounds(m) && FetchedByte(m) == 0x3C
    ensures Run(m, n).registers.a as int == (m.registers.a as int + n) % 0x100
    ensures Run(m, n) == m.(registers := m.registers.(a := Run(m, n).registers.a))
    decreases n
  {
    if n > 0 {
      var next := StepResult(m);
      StepKeepsPc(m);
      IncDecByteRegister(m, IncDecTarget.A);
      assert next == m.(registers := m.registers.(a := next.registers.a));
      assert FetchedByte(next) == 0x3C;
      RepeatedIncA(next, n - 1);
      var a := m.registers.a as int;
      assert next.registers.a as int == (a + 1) % 0x100;
      assert ((a + 1) % 0x100 + (n - 1)) % 0x100 == (a + n) % 0x100;
    }
  }

  // ---------------------------------------------------------------------
  // The CPU, updated in place

  class Cpu {
    var registers: Registers
    var pc: u16
    var sp: u16
    var bus: MemoryBus

    function State(): Machine
      reads this
    {
      Machine(registers, pc, sp, bus)
    }

    /** One fetch-decode-execute step. */
    method Step()
      requires bus.Valid() && StepInBounds(State())
      modifies this
      ensures State() == StepResult(old(State()))
    {
      var instructionByte := bus.ReadByte(pc);
      var prefixed := instructionByte == PREFIX;
      if prefixed {
        instructionByte := bus.ReadByte(pc + 1);
      }
      match FromByte(instructionByte)
      case Some(instruction) =>
        var nextPc := Execute(instruction);
        pc := nextPc;
      case None =>
    }

    /** Executes one decoded instruction and returns the next program
      counter; `pc` itself is left for the caller to update. */
    method Execute(instruction: Instruction) returns (nextPc: u16)
      requires bus.Valid() && ExecuteInBounds(State(), instruction)
      modifies this
      ensures State() == ExecuteResult(old(State()), instruction).0
      ensures nextPc == ExecuteResult(old(State()), instruction).1
    {
      match instruction
      case INC(register) =>
        Inc(register);
        nextPc := pc;
      case DEC(register) =>
        Dec(register);
        nextPc := pc;
      case ADD(register) =>
        match register {
          case C =>
            var res := Add(registers.c);
            registers := registers.(a := res);
          case _ =>
        }
        nextPc := pc;
      case ADDHL(register) =>
        var value := match register
          case BC => registers.GetBC()
          case DE => registers.GetDE()
          case HL => registers.GetHL()
          case SP => sp;
        var res := AddHl(value);
        registers := registers.SetHL(res);
        nextPc := pc;
      case JP(test) =>
        var jumpCondition := Condition(registers.f, test);
        nextPc := Jump(State(), jumpCondition);
      case _ =>
        nextPc := pc;
    }

    /** The INC handler: the named register, pair or SP goes up by one,
      wrapping. */
    method Inc(register: IncDecTarget)
      requires bus.Valid()
      modifies this`registers, this`sp
      ensures State() == ExecuteResult(old(State()), INC(register)).0
    {
      match register {
      case A => registers := registers.(a := WrappingInc8(registers.a));
      case B => registers := registers.(b := WrappingInc8(registers.b));
      case C => registers := registers.(c := WrappingInc8(registers.c));
      case D => registers := registers.(d := WrappingInc8(registers.d));
      case E => registers := registers.(e := WrappingInc8(registers.e));
      case H => registers := registers.(h := WrappingInc8(registers.h));
      case L => registers := registers.(l := WrappingInc8(registers.l));
      case BC =>
        var value := registers.GetBC();
        var newValue := WrappingInc16(value);
        registers := registers.SetBC(newValue);
      case DE =>
        var value := registers.GetDE();
        var newValue := WrappingInc16(value);
        registers := registers.SetDE(newValue);
      case HL =>
        var value := registers.GetHL();
        var newValue := WrappingInc16(value);
        registers := registers.SetHL(newValue);
      case SP => sp := WrappingInc16(sp);
      }
    }

    /** The DEC handler: the named register, pair or SP goes down by one,
      wrapping. */
    method Dec(register: IncDecTarget)
      requires bus.Valid()
      modifies this`registers, this`sp
      ensures State() == ExecuteResult(old(State()), DEC(register)).0
    {
      match register {
      case A => registers := registers.(a := WrappingDec8(registers.a));
      case B => registers := registers.(b := WrappingDec8(registers.b));
      case C => registers := registers.(c := WrappingDec8(registers.c));
      case D => registers := registers.(d := WrappingDec8(registers.d));
      case E => registers := registers.(e := WrappingDec8(registers.e));
      case H => registers := registers.(h := WrappingDec8(registers.h));
      case L => registers := registers.(l := WrappingDec8(registers.l));
      case BC =>
        var value := registers.GetBC();
        var newValue := WrappingDec16(value);
        registers := registers.SetBC(newValue);
      case DE =>
        var value := registers.GetDE();
        var newValue := WrappingDec16(value);
        registers := registers.SetDE(newValue);
      case HL =>
        var value := registers.GetHL();
        var newValue := WrappingDec16(value);
        registers := registers.SetHL(newValue);
      case SP => sp := WrappingDec16(sp);
      }
    }

    /** `a + value` into the flags; returns the sum and leaves A alone. */
    method Add(value: u8) returns (res: u8)
      modifies this`registers
      ensures (res, registers.f) == AluAdd(old(registers.a), value, old(registers.f))
      ensures registers == old(registers).(f := registers.f)
    {
      var sum := registers.a as int + value as int;
      res := (sum % 0x100) as u8;
      var carry := sum > 0xFF;
      registers := registers.(f := registers.f.(zero := res == 0));
      registers := registers.(f := registers.f.(subtract := false));
      registers := registers.(f := registers.f.(carry := carry));
      registers := registers.(f := registers.f.(halfCarry := registers.a as int % 0x10 + value as int % 0x10 > 0xF));
    }

    /** `hl + value` into the flags; returns the sum and leaves HL alone. */
    method AddHl(value: u16) returns (res: u16)
      modifies this`registers
      ensures (res, registers.f) == AluAddHl(old(registers.GetHL()), value, old(registers.f))
      ensures registers == old(registers).(f := registers.f)
    {
      var hl := registers.GetHL();
      var sum := hl as int + value as int;
      res := (sum % 0x1_0000) as u16;
      var carry := sum > 0xFFFF;
      registers := registers.(f := registers.f.(subtract := false));
      registers := registers.(f := registers.f.(carry := carry));
      var mask := 0x7FF;
      registers := registers.(f := registers.f.(halfCarry := value as int % (mask + 1) + hl as int % (mask + 1) > mask));
    }
  }
}

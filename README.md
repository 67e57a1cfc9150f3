# gb-emu core in Dafny

A model of the core of the `gb-emu` Game Boy emulator. It covers five parts:

- the flags register and its byte encoding (`flags.dfy`, module `Flags`);
- the opcode decoder (`instruction.dfy`, module `Instructions`);
- the fetch–decode–execute engine with its INC/DEC, ADD, ADD HL and JP handlers (`cpu.dfy`, module `Cpu`);
- the flat memory bus (`memory_bus.dfy`, module `Memory`);
- the video RAM with its derived tile cache (`gpu.dfy`, module `Gpu`).

Two supporting modules come with it:

- `words.dfy` (`Words`) has the 8-bit and 16-bit unsigned words and their wrapping steps.
- `registers.dfy` (`Registers`) has the register file with its BC/DE/HL pair views.

Values the emulator copies are datatypes: the flags, the registers, the bus and the instructions.

The CPU is written twice:
- **By value.** `Machine` holds the state. `AluAdd`, `AluAddHl` and `Jump` give the arithmetic and jump rules. `ExecuteResult` and `StepResult` give the state after one instruction or one step.
- **As the class `Cpu`.** Its methods update `registers`, `sp` and `pc` in place, as the emulator does. Each method is proved to move its state exactly as the matching function says.

The GPU is a class. Its video RAM is an `array<bv8>` and its tile cache an `array3` of pixels. A write stores one byte, then rewrites one 8-pixel row of the cache in a loop. The method's contract says three things:
- only that row changes;
- every row that was in step with its two bytes stays in step;
- the rewritten row becomes in step.

Three behaviours of the code are modelled exactly as written:
- **The tile-cache guard** is `addr > 0x1800`, so it lets offset 0x1800 through, which names the non-existent tile 384. There the model stores the byte, leaves the cache alone and returns `ok == false`.
- **The ADD HL half-carry** uses the mask 0x7FF, so it reports a carry out of bit 10. The Game Boy sets this flag on a carry out of bit 11 (mask 0xFFF). The model follows the code, not the hardware.
- **The pixel rule** tests the high-plane bit with `msb != 1`. Lemmas describe exactly how this rule differs from the usual bitplane rule.

The decoder never yields JP, and every other handler returns `pc` unchanged. So a step never moves the program counter, and `StepKeepsPc` proves it.

Integer widths:
- Bytes and words in the CPU are the integer newtypes `u8` and `u16`. Wrap-around is written out as `%` or as an explicit `if`.
- The flags codec and the GPU, which do bit masking, work on `bv8`.

## Model

| member | source | states |
|---|---|---|
| Flags.New | src/cpu/flags_register.rs:15-22 | all four flags are clear and the register encodes to 0x00 |
| Flags.ToByte | src/cpu/flags_register.rs:26-31 | zero lands on bit 7, subtract on bit 6, half-carry on bit 5, carry on bit 4; the low nibble is 0 |
| Flags.FromByte | src/cpu/flags_register.rs:35-42 | each flag is exactly the value of its own bit among bits 7..4 |
| Flags.DecodeEncode | src/cpu/flags_register.rs:25-43 | decoding an encoded flags value gives it back, for every combination |
| Flags.EncodeDecode | src/cpu/flags_register.rs:25-43 | encoding a decoded byte gives `b & 0xF0` |
| Flags.DecodeIgnoresLowNibble | src/cpu/flags_register.rs:35-42 | bytes that agree on bits 7..4 decode to the same flags |
| Flags.EncodeInjective | src/cpu/flags_register.rs:26-31 | distinct flag sets encode to distinct bytes |
| Instructions.FromByte | src/cpu/instruction.rs:78-119 | a byte decodes exactly when it is one of the 33 opcodes; what it decodes to is an INC, DEC, ADD or ADD HL whose independently computed opcode is that byte |
| Instructions.OpcodeCount | src/cpu/instruction.rs:79-117 | the table recognises exactly 33 distinct bytes |
| Instructions.DecodeOpcode | src/cpu/instruction.rs:80-115 | every instruction with an opcode decodes back from it, so the table is INC r = 0x04+8r, INC rr = 0x03+16rr, DEC r = 0x05+8r, DEC rr = 0x0B+16rr, ADD r = 0x80+r, ADD HL,rr = 0x09+16rr |
| Instructions.OpcodeExactlyForDecodable | src/cpu/instruction.rs:36-75 | an instruction has an opcode if and only if it is INC, DEC, ADD or ADD HL |
| Instructions.FromByteInjective | src/cpu/instruction.rs:79-118 | no two recognised bytes decode to the same instruction |
| Instructions.FromByteNeverJumps | src/cpu/instruction.rs:79-118 | whatever the decoder yields is INC, DEC, ADD or ADD HL, so never JP and never any ALU, rotate, shift, bit or swap family |
| Instructions.PrefixNotDecoded | src/cpu/instruction.rs:117 | the 0xCB escape byte itself decodes to None |
| Words.WrappingIncDec8 | src/cpu/mod.rs:36 | `wrapping_add(1)` and `wrapping_sub(1)` on a byte are ±1 modulo 256 and undo each other, at 0x00 and 0xFF too |
| Words.WrappingIncDec16 | src/cpu/mod.rs:63-68 | the same on 16-bit words, modulo 65536 |
| Registers.PairSplit | src/cpu/mod.rs:64-66 | composing a pair from (high, low) and splitting it again are inverse both ways |
| Registers.Registers.GetBC | src/cpu/mod.rs:64 | no contract; `b * 0x100 + c`, whose properties are stated by `PairSplit` and `SetGetPair` |
| Registers.Registers.GetDE | src/cpu/mod.rs:70 | no contract; `d * 0x100 + e`, stated by `PairSplit` and `SetGetPair` |
| Registers.Registers.GetHL | src/cpu/mod.rs:76 | no contract; `h * 0x100 + l`, stated by `PairSplit` and `SetGetPair` |
| Registers.Registers.SetBC | src/cpu/mod.rs:66 | no contract; splits the word into B (high) and C (low), stated by `SetGetPair` |
| Registers.Registers.SetDE | src/cpu/mod.rs:72 | no contract; splits the word into D and E, stated by `SetGetPair` |
| Registers.Registers.SetHL | src/cpu/mod.rs:78 | no contract; splits the word into H and L, stated by `SetGetPair` |
| Registers.SetGetPair | src/cpu/mod.rs:63-80 | a pair reads back what was set, setting a pair changes only its two registers, and setting what was read changes nothing |
| Memory.New | src/cpu/memory_bus.rs:7-11 | the power-on bus has exactly 0xFFFF bytes, all zero |
| Memory.MemoryBus.ReadByte | src/cpu/memory_bus.rs:13-15 | no contract; the byte at the address, readable exactly where `InRangeExactly` says |
| Memory.InRangeExactly | src/cpu/memory_bus.rs:13-15 | every address except 0xFFFF is readable |
| Cpu.AluAdd | src/cpu/mod.rs:180-189 | the result is (a+v) mod 256 and, with the carry, makes up the exact sum; zero iff the result is 0; subtract cleared; carry iff the sum wrapped; half-carry iff the low nibble wrapped |
| Cpu.AddHalfCarry | src/cpu/mod.rs:180-189 | half-carry iff (a&0xF)+(v&0xF) > 0xF, and carry iff a+v > 0xFF |
| Cpu.AluAddHl | src/cpu/mod.rs:191-201 | the result is (hl+v) mod 65536 and, with the carry, makes up the exact sum; zero is kept; subtract cleared; carry iff the sum wrapped; half-carry iff the low eleven bits wrapped |
| Cpu.AddHlHalfCarry | src/cpu/mod.rs:195-198 | half-carry iff (hl&0x7FF)+(v&0x7FF) > 0x7FF, and carry iff hl+v > 0xFFFF |
| Cpu.AddHlOverflow | src/cpu/mod.rs:191-201 | HL = 0xFFFF plus 1 gives 0 with carry and half-carry set |
| Cpu.Jump | src/cpu/mod.rs:170-178 | a taken jump's target has the byte at pc+1 as its low half and the byte at pc+2 as its high half; otherwise the target is pc+3 modulo 65536 |
| Cpu.Condition | src/cpu/mod.rs:157-163 | no contract; the five jump conditions, stated by `JumpEffect` |
| Cpu.JumpEffect | src/cpu/mod.rs:156-165 | JP changes no state; its result is `bus[pc+2]*256 + bus[pc+1]` when the condition holds and pc+3 (wrapping) otherwise; Always holds, Zero/NotZero and Carry/NotCarry test their flag |
| Cpu.ExecuteResult | src/cpu/mod.rs:32-168 | no contract; the machine and next pc after one handler, stated arm by arm by `IncDecByteRegister`, `IncDecWord`, `IncDecInverse`, `AddOnlyC`, `AddHlEffect`, `JumpEffect` and, for the catch-all arm, `ExecuteOtherFamilies`; `OnlyJumpMovesPc` covers the returned pc of every non-JP arm |
| Cpu.ExecuteOtherFamilies | src/cpu/mod.rs:166 | every family outside INC, DEC, ADD, ADD HL and JP (ADC through SWAP) leaves the machine unchanged and returns the current pc |
| Cpu.OnlyJumpMovesPc | src/cpu/mod.rs:32-168 | every handler except JP returns the current pc |
| Cpu.IncDecByteRegister | src/cpu/mod.rs:34-114 | 8-bit INC/DEC moves the named register by ±1 modulo 256 and nothing else, so flags, SP, PC and the bus are unchanged |
| Cpu.IncDecWord | src/cpu/mod.rs:63-136 | 16-bit INC/DEC moves BC, DE, HL or SP by ±1 modulo 65536, changes no flag, and changes nothing outside the operand |
| Cpu.IncDecInverse | src/cpu/mod.rs:34-137 | INC then DEC, or DEC then INC, of the same operand restores the whole machine |
| Cpu.AddOnlyC | src/cpu/mod.rs:138-144 | ADD C puts (a+c) mod 256 in A with the ADD flags and changes nothing else; ADD on any other operand changes nothing |
| Cpu.AddHlEffect | src/cpu/mod.rs:145-155 | ADD HL puts the ADD HL sum of HL and the operand in HL with the ADD HL flags, keeps zero, and changes nothing besides H, L and the flags |
| Cpu.StepResult | src/cpu/mod.rs:19-30 | no contract; the machine after one step, stated by `StepDecodes`, `StepKeepsPc`, `Run` and `RepeatedIncA` |
| Cpu.StepDecodes | src/cpu/mod.rs:19-30 | a step decodes the byte at pc, or the byte after a 0xCB escape with the same table; an undecodable byte leaves the whole machine unchanged, and a decodable one executes |
| Cpu.StepKeepsPc | src/cpu/mod.rs:19-30 | no step changes pc or the bus |
| Cpu.Run | src/cpu/mod.rs:19-30 | any number of successive steps stays in bounds and leaves pc and the bus as they were, so every step fetches the same opcode |
| Cpu.RepeatedIncA | src/cpu/mod.rs:19-37 | with INC A at pc, n steps add n to A modulo 256 and change nothing else |
| Cpu.Cpu.Step | src/cpu/mod.rs:19-30 | the in-place step leaves the CPU in exactly the state `StepResult` gives |
| Cpu.Cpu.Execute | src/cpu/mod.rs:32-168 | the in-place handler leaves exactly the state `ExecuteResult` gives and returns its next pc |
| Cpu.Cpu.Inc | src/cpu/mod.rs:34-85 | the INC arm updates the register file and SP exactly as `ExecuteResult` says |
| Cpu.Cpu.Dec | src/cpu/mod.rs:86-137 | the DEC arm updates the register file and SP exactly as `ExecuteResult` says |
| Cpu.Cpu.Add | src/cpu/mod.rs:180-189 | the method returns the `AluAdd` result, leaves its flags in F and changes no other register |
| Cpu.Cpu.AddHl | src/cpu/mod.rs:191-201 | the method returns the `AluAddHl` result, leaves its flags in F and changes no other register |
| Gpu.NormIndex | src/gpu/mod.rs:46 | no contract; `addr & 0xFFFE`, stated by `PairedOffsetsShareRow` and `RowAddress` |
| Gpu.TileIndex | src/gpu/mod.rs:52 | no contract; `addr / 16`, stated by `RowAddress` and `OffsetOfRow` |
| Gpu.RowIndex | src/gpu/mod.rs:53 | no contract; `(addr % 16) / 2`, stated by `RowAddress` and `OffsetOfRow` |
| Gpu.PairedOffsetsShareRow | src/gpu/mod.rs:46-53 | offsets a and a^1 name the same tile, the same row and the same even byte |
| Gpu.RowAddress | src/gpu/mod.rs:44-53 | the row's bytes are at 16*tile + 2*row and the next offset; the row is below 8; offsets below 0x1800 name tiles 0..383, and 0x1800 names tile 384 |
| Gpu.OffsetOfRow | src/gpu/mod.rs:52-53 | the only offsets that map to a given (tile, row) are that row's two bytes |
| Gpu.PixelValue | src/gpu/mod.rs:55-65 | for pixels 0..6 the value is Three if the low-plane bit is set and Two otherwise; pixel 7 follows bit 0 of both bytes as the `msb != 1` test decides |
| Gpu.PixelRuleAgainstBitplanes | src/gpu/mod.rs:55-65 | for pixels 0..6 the code's rule agrees with the bitplane rule exactly when the high-plane bit is set; for pixel 7 it never agrees |
| Gpu.ZeroRowDecodesToTwo | src/gpu/mod.rs:55-65 | two zero bytes decode to Two in every pixel, unlike the Zero pixels of a fresh tile set |
| Gpu.FullLowPlaneDecodesToThree | src/gpu/mod.rs:55-65 | 0xFF over 0x00 decodes to Three in every pixel |
| Gpu.Gpu.constructor | src/gpu/mod.rs:25-30 | 0x2000 zero bytes of video RAM and 384 tiles of Zero pixels |
| Gpu.Gpu.ReadVram | src/gpu/mod.rs:32-34 | returns the stored byte and changes nothing |
| Gpu.Gpu.SetTileRow | src/gpu/mod.rs:55-68 | the pixel loop rewrites the one row with `PixelValue` of the two bytes and leaves every other pixel of every tile unchanged |
| Gpu.Gpu.RefreshRow | src/gpu/mod.rs:39-68 | below 0x1800, exactly the written offset's row is recomputed from its two current bytes; above 0x1800 nothing changes; at 0x1800 nothing changes and the result is a failure |
| Gpu.Gpu.WriteVram | src/gpu/mod.rs:36-69 | the byte is stored and no other byte changes; only the row holding the offset is recomputed; every row in step with its bytes stays in step, and the recomputed row is in step; fails exactly at 0x1800 |
| Gpu.FirstRowScenario | src/gpu/mod.rs:36-69 | writing 0xFF at offset 0 and 0x00 at offset 1 of a fresh device leaves row 0 of tile 0 all Three |

## Left out

- `src/cpu/registers.rs` is not part of this model. The register file has the seven 8-bit registers and F. Its BC/DE/HL views compose and split pairs high byte first. AF is not modelled.
- Registers: the 8-bit registers are the integer newtype `u8`, not a bit-vector. They only take part in wrapping arithmetic, and the newtype keeps that arithmetic cheap to reason about.
- `src/cpu/targets.rs`: only its `JumpTest` is used. `PrefixTarget`, `LoadByteTarget`, `LoadByteSource`, `StackTarget` and `LoadType` appear in no code of the core.
- `JP(JumpTest)` is added to the instruction datatype. The execute handler matches it, but the enum in `src/cpu/instruction.rs` lacks it.
- The 0xCB escape is followed by a second lookup in the same table; there is no separate prefixed table to model.
- The code has no stack, CALL/RET, HALT, loads, memory writes or bus-to-VRAM dispatch, so neither does the model. 8-bit INC/DEC change no flags in the code, and so in the model.
- Panics become preconditions, with one exception. The bus reads at pc, pc+1 and pc+2, with non-wrapping adds on `u16`, and the GPU indexes its arrays. Both are guarded by `requires` clauses. The exception is the write at offset 0x1800, which is modelled as the failure result `ok == false`, as described above.
- Gpu.Gpu.WriteVram: a panicking write at 0x1800 has stored its byte before the failing index. The model therefore keeps the byte and returns `ok == false`. The later unwinding is not modelled.
- Gpu.Gpu.SetTileRow and Gpu.Gpu.RefreshRow are the pixel loop and the tile-cache half of `write_vram`, taken out as methods of their own. Cpu.Cpu.Inc and Cpu.Cpu.Dec are the INC and DEC arms of `execute`, taken out the same way. Behaviour and order of updates are unchanged.
- The `Copy`, `Clone`, `Debug` and `PartialEq` derives are not modelled. Datatype equality stands in for `PartialEq`.

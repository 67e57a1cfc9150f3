/** The flags register of the CPU: four status bits packed into the high
    nibble of one byte (zero at bit 7, subtract at bit 6, half-carry at
    bit 5, carry at bit 4). */
module Flags {

  const ZERO_FLAG_BYTE_POSITION: nat := 7
  const SUBTRACT_FLAG_BYTE_POSITION: nat := 6
  const HALF_CARRY_FLAG_BYTE_POSITION: nat := 5
  const CARRY_FLAG_BYTE_POSITION: nat := 4

  datatype FlagsRegister = FlagsRegister(zero: bool, subtract: bool, halfCarry: bool, carry: bool)

  /** Bit `pos` of `b`, read as a boolean. */
  predicate BitSet(b: bv8, pos: nat)
    requires pos < 8
  {
    (b >> pos) & 1 != 0
  }

  /** The power-on value: every flag cleared. */
  function New(): (f: FlagsRegister)
    ensures !f.zero && !f.subtract && !f.halfCarry && !f.carry
    ensures ToByte(f) == 0
  {
    FlagsRegister(false, false, false, false)
  }

  function Bit(flag: bool): bv8 {
    if flag then 1 else 0
  }

  /** Encoding into a byte: each flag lands on its own bit and the low
      nibble is always zero. */
  function ToByte(flags: FlagsRegister): (b: bv8)
    ensures BitSet(b, ZERO_FLAG_BYTE_POSITION) == flags.zero
    ensures BitSet(b, SUBTRACT_FLAG_BYTE_POSITION) == flags.subtract
    ensures BitSet(b, HALF_CARRY_FLAG_BYTE_POSITION) == flags.halfCarry
    ensures BitSet(b, CARRY_FLAG_BYTE_POSITION) == flags.carry
    ensures b & 0x0F == 0
  {
    (Bit(flags.zero) << ZERO_FLAG_BYTE_POSITION)
    | (Bit(flags.subtract) << SUBTRACT_FLAG_BYTE_POSITION)
    | (Bit(flags.halfCarry) << HALF_CARRY_FLAG_BYTE_POSITION)
    | (Bit(flags.carry) << CARRY_FLAG_BYTE_POSITION)
  }

  /** Decoding from a byte looks only at bits 7..4. */
  function FromByte(b: bv8): (flags: FlagsRegister)
    ensures flags.zero == (b & 0x80 != 0)
    ensures flags.subtract == (b & 0x40 != 0)
    ensures flags.halfCarry == (b & 0x20 != 0)
    ensures flags.carry == (b & 0x10 != 0)
  {
    FlagsRegister(
      (b >> ZERO_FLAG_BYTE_POSITION) & 1 != 0,
      (b >> SUBTRACT_FLAG_BYTE_POSITION) & 1 != 0,
      (b >> HALF_CARRY_FLAG_BYTE_POSITION) & 1 != 0,
      (b >> CARRY_FLAG_BYTE_POSITION) & 1 != 0)
  }

  /** Decoding undoes encoding, for all sixteen flag combinations. */
  lemma DecodeEncode(flags: FlagsRegister)
    ensures FromByte(ToByte(flags)) == flags
  {
  }

  /** Encoding a decoded byte keeps its high nibble and clears the low one. */
  lemma EncodeDecode(b: bv8)
    ensures ToByte(FromByte(b)) == b & 0xF0
  {
  }

  /** Bytes that agree on bits 7..4 decode to the same flags. */
  lemma DecodeIgnoresLowNibble(b1: bv8, b2: bv8)
    requires b1 & 0xF0 == b2 & 0xF0
    ensures FromByte(b1) == FromByte(b2)
  {
  }

  /** Encoding is injective: distinct flag sets give distinct bytes. */
  lemma EncodeInjective(f1: FlagsRegister, f2: FlagsRegister)
    requires ToByte(f1) == ToByte(f2)
    ensures f1 == f2
  {
    DecodeEncode(f1);
    DecodeEncode(f2);
  }
}

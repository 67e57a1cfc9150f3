/** The register file: seven 8-bit registers and the flags register, with
    16-bit views over the pairs BC, DE and HL (the high byte is the first
    register of the pair). Only the accessors the execution engine uses
    are modelled. */
module Registers {
  import opened Words
  import opened Flags

  /** `(high << 8) | low`. */
  function Pair(high: u8, low: u8): u16 {
    (high as int * 0x100 + low as int) as u16
  }

  /** `(value >> 8) as u8`. */
  function High(value: u16): u8 {
    (value as int / 0x100) as u8
  }

  /** `value as u8`: the low eight bits. */
  function Low(value: u16): u8 {
    (value as int % 0x100) as u8
  }

  /** Composing a pair from two bytes and splitting it again gives the
      bytes back, and splitting a word and composing its halves gives
      the word back. */
  lemma PairSplit(value: u16, high: u8, low: u8)
    ensures High(Pair(high, low)) == high && Low(Pair(high, low)) == low
    ensures Pair(High(value), Low(value)) == value
  {
  }

  datatype Registers = Registers(a: u8, b: u8, c: u8, d: u8, e: u8, h: u8, l: u8, f: FlagsRegister)
  {
    function GetBC(): u16 { Pair(b, c) }
    function GetDE(): u16 { Pair(d, e) }
    function GetHL(): u16 { Pair(h, l) }

    function SetBC(value: u16): Registers { this.(b := High(value), c := Low(value)) }
    function SetDE(value: u16): Registers { this.(d := High(value), e := Low(value)) }
    function SetHL(value: u16): Registers { this.(h := High(value), l := Low(value)) }
  }

  /** A pair reads back what was written to it, writing a pair touches
      only its two registers, and writing back what was read changes
      nothing. */
  lemma SetGetPair(r: Registers, value: u16)
    ensures r.SetBC(value).GetBC() == value && r.SetBC(value) == r.(b := High(value), c := Low(value))
    ensures r.SetDE(value).GetDE() == value && r.SetDE(value) == r.(d := High(value), e := Low(value))
    ensures r.SetHL(value).GetHL() == value && r.SetHL(value) == r.(h := High(value), l := Low(value))
    ensures r.SetBC(r.GetBC()) == r && r.SetDE(r.GetDE()) == r && r.SetHL(r.GetHL()) == r
  {
    PairSplit(value, r.b, r.c);
    PairSplit(value, r.d, r.e);
    PairSplit(value, r.h, r.l);
  }
}

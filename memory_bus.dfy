/** The memory bus: one flat array of 0xFFFF bytes, indexed directly by
    the address. Addresses run from 0x0000 to 0xFFFE; there is no write
    operation and no dispatch to devices. */
module Memory {
  import opened Words

  const MEMORY_SIZE: nat := 0xFFFF

  datatype MemoryBus = MemoryBus(memory: seq<u8>)
  {
    predicate Valid() {
      |memory| == MEMORY_SIZE
    }

    /** An address indexes the array exactly when it is below 0xFFFF. */
    predicate InRange(address: u16)
      requires Valid()
    {
      address as int < |memory|
    }

    function ReadByte(address: u16): u8
      requires Valid() && InRange(address)
    {
      memory[address]
    }
  }

  /** The power-on bus: 0xFFFF zero bytes. */
  function New(): (bus: MemoryBus)
    ensures bus.Valid()
    ensures forall address: u16 :: bus.InRange(address) ==> bus.ReadByte(address) == 0
  {
    MemoryBus(seq(MEMORY_SIZE, _ => 0))
  }

  /** Every 16-bit address is readable except the very last one. */
  lemma InRangeExactly(bus: MemoryBus, address: u16)
    requires bus.Valid()
    ensures bus.InRange(address) <==> address != 0xFFFF
  {
  }
}

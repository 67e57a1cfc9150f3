/** Fixed-width unsigned machine words. Arithmetic on them is done in the
    integers and wrapped explicitly, as the emulated hardware does. */
module Words {

  newtype u8 = x: int | 0 <= x < 0x100
  newtype u16 = x: int | 0 <= x < 0x1_0000

  /** `x.wrapping_add(1)` on a byte. */
  function WrappingInc8(x: u8): u8 {
    if x == 0xFF then 0 else x + 1
  }

  /** `x.wrapping_sub(1)` on a byte. */
  function WrappingDec8(x: u8): u8 {
    if x == 0 then 0xFF else x - 1
  }

  /** `x.wrapping_add(1)` on a 16-bit word. */
  function WrappingInc16(x: u16): u16 {
    if x == 0xFFFF then 0 else x + 1
  }

  /** `x.wrapping_sub(1)` on a 16-bit word. */
  function WrappingDec16(x: u16): u16 {
    if x == 0 then 0xFFFF else x - 1
  }

  /** The wrapping steps are arithmetic modulo the word size, and each
      undoes the other. */
  lemma WrappingIncDec8(x: u8)
    ensures WrappingInc8(x) as int == (x as int + 1) % 0x100
    ensures WrappingDec8(x) as int == (x as int - 1) % 0x100
    ensures WrappingDec8(WrappingInc8(x)) == x && WrappingInc8(WrappingDec8(x)) == x
  {
  }

  lemma WrappingIncDec16(x: u16)
    ensures WrappingInc16(x) as int == (x as int + 1) % 0x1_0000
    ensures WrappingDec16(x) as int == (x as int - 1) % 0x1_0000
    ensures WrappingDec16(WrappingInc16(x)) == x && WrappingInc16(WrappingDec16(x)) == x
  {
  }

}

/** Sizes of the machine's numbers. */
module MachineTypes {

  const UINT32_SPAN := 0x1_0000_0000

  /** A byte, as a number. */
  type Byte = b: int | 0 <= b < 256

  /** A `char` of the C code, as an unsigned number. */
  type Octet = c: char | c as int < 256

  function Pow2(n: nat): (p: nat)
    ensures p > 0
  {
    if n == 0 then 1 else 2 * Pow2(n - 1)
  }
}

// Fixed-width numbers shared by the other modules.

module Words {
  newtype byte = x: int | 0 <= x < 256

  const WORD64: nat := 0x1_0000_0000_0000_0000
}

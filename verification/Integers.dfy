/** The ranges of the fixed-width unsigned integers. */
module Integers {
  const U32: nat := 0x1_0000_0000
  const U64: nat := 0x1_0000_0000_0000_0000
}

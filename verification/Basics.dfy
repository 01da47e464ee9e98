/** Options, machine words and small arithmetic shared by the modules. */
module Basics {

  datatype Option<+T> = None | Some(value: T)

  const U32_RANGE: nat := 0x1_0000_0000
  const U64_RANGE: nat := 0x1_0000_0000_0000_0000

  type u16 = x: int | 0 <= x < 0x1_0000
  type u32 = x: int | 0 <= x < U32_RANGE
  type u64 = x: int | 0 <= x < U64_RANGE

  function Lesser(a: int, b: int): int {
    if a < b then a else b
  }

  function AtLeastOne(n: int): int {
    if n < 1 then 1 else n
  }
}

/** Fixed-width machine arithmetic, written out. */
module Words {
  type byte = b: int | 0 <= b < 0x100
  type uint32 = n: int | 0 <= n < 0x1_0000_0000

  const INT32_MAX: int := 0x7FFF_FFFF

  function Add32(a: uint32, b: uint32): uint32 {
    if a + b < 0x1_0000_0000 then a + b else a + b - 0x1_0000_0000
  }

  function Sub32(a: uint32, b: uint32): uint32 {
    if a >= b then a - b else a - b + 0x1_0000_0000
  }

  /** Subtraction of sizes in 64 unsigned bits. */
  function Sub64(a: nat, b: nat): nat {
    if a >= b then a - b
    else
      var under := (b - a) % 0x1_0000_0000_0000_0000;
      if under == 0 then 0 else 0x1_0000_0000_0000_0000 - under
  }
}

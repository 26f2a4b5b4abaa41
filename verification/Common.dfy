/** Types shared by every model of the service. */
module Common {

  datatype Option<+T> = None | Some(value: T)

  /** The machine's unsigned 32-bit integers. */
  type u32 = n: int | 0 <= n <= 0xFFFF_FFFF

  function SaturatingInc(n: u32): u32 {
    if n == 0xFFFF_FFFF then n else n + 1
  }

  function Max(a: int, b: int): int {
    if a >= b then a else b
  }

  function Min(a: int, b: int): int {
    if a <= b then a else b
  }
}

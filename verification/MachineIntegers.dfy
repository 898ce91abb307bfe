/** Signed 64-bit arithmetic. */
module MachineIntegers {

  const MaxInt64 := 0x7fff_ffff_ffff_ffff

  /** A 64-bit result that wraps around. */
  function Wrap64(n: int): (r: int)
    ensures -MaxInt64 - 1 <= r <= MaxInt64
    ensures -MaxInt64 - 1 <= n <= MaxInt64 ==> r == n
  {
    (n + MaxInt64 + 1) % 0x1_0000_0000_0000_0000 - MaxInt64 - 1
  }

  /** Division that truncates toward zero. */
  function Quotient(n: int, d: int): int
    requires d > 0
  {
    if n >= 0 then n / d else -(-n / d)
  }
}

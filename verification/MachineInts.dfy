/** The fixed-width arithmetic of the original, written out on unbounded integers. */
module MachineInts {
  const U32 := 0x1_0000_0000
  const U64 := 0x1_0000_0000_0000_0000
  const I64_LIMIT := 0x8000_0000_0000_0000

  /** `x as i64` for a 64-bit unsigned `x`. */
  function AsI64(x: nat): int {
    if x % U64 < I64_LIMIT then x % U64 else x % U64 - U64
  }

  /** Integer division that truncates toward zero. */
  function TruncDiv(x: int, d: nat): int
    requires d > 0
  {
    if x >= 0 then x / d else -((-x) / d)
  }

  /** Whole seconds of an age in milliseconds, compared with a positive number of seconds. */
  lemma SecondsPassed(age: int, seconds: nat)
    requires age >= 0 || seconds >= 1
    ensures TruncDiv(age, 1000) >= seconds <==> age >= 1000 * seconds
  {
  }

  function Min(a: int, b: int): int {
    if a <= b then a else b
  }

  function Max(a: int, b: int): int {
    if a <= b then b else a
  }
}

/** Option and Result, and the unsigned machine integers of the Rust sources. */
module MachineInts {

  datatype Option<+T> = None | Some(value: T)

  datatype Result<+T, +E> = Ok(value: T) | Err(error: E) {
    predicate IsFailure() {
      Err?
    }

    function PropagateFailure<U>(): Result<U, E>
      requires Err?
    {
      Err(error)
    }

    function Extract(): T
      requires Ok?
    {
      value
    }
  }

  const U64_MAX: int := 0xFFFF_FFFF_FFFF_FFFF
  const U32_MAX: int := 0xFFFF_FFFF
  const I64_MAX: int := 0x7FFF_FFFF_FFFF_FFFF
  const I64_MIN: int := -0x8000_0000_0000_0000

  type u64 = n: int | 0 <= n <= U64_MAX

  type u32 = n: int | 0 <= n <= U32_MAX

  /** `usize` on the 64-bit targets the application ships for. */
  type usize = n: int | 0 <= n <= U64_MAX

  type i64 = n: int | I64_MIN <= n <= I64_MAX

  function CheckedMul(a: u64, b: u64): Option<u64> {
    if a * b <= U64_MAX then Some(NonNegativeProduct(a, b)) else None
  }

  function NonNegativeProduct(a: u64, b: u64): (r: u64)
    requires a * b <= U64_MAX
    ensures r == a * b
  {
    a * b
  }

  function CheckedAdd(a: u64, b: u64): Option<u64> {
    if a + b <= U64_MAX then Some(a + b) else None
  }
}

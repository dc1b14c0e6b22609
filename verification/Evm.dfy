/** The parts of the Ethereum virtual machine and of Solidity 0.8 that every contract relies on:
    256-bit words, checked arithmetic, and transactions that revert. */
module Evm {
  import opened Arithmetic

  const UINT256_MAX: int := 0xFFFF_FFFF_FFFF_FFFF_FFFF_FFFF_FFFF_FFFF_FFFF_FFFF_FFFF_FFFF_FFFF_FFFF_FFFF_FFFF
  const INT256_MAX: int := 0x7FFF_FFFF_FFFF_FFFF_FFFF_FFFF_FFFF_FFFF_FFFF_FFFF_FFFF_FFFF_FFFF_FFFF_FFFF_FFFF
  const ADDRESS_MAX: int := 0xFFFF_FFFF_FFFF_FFFF_FFFF_FFFF_FFFF_FFFF_FFFF_FFFF

  type Uint256 = n: int | 0 <= n <= UINT256_MAX
  type Int256 = n: int | -INT256_MAX - 1 <= n <= INT256_MAX
  type Address = n: int | 0 <= n <= ADDRESS_MAX
  type Byte = n: int | 0 <= n < 0x100
  type Bytes = seq<Byte>

  const NO_ADDRESS: Address := 0

  const PANIC_ARITHMETIC := "panic 0x11"
  const PANIC_DIVISION := "panic 0x12"
  const PANIC_INDEX := "panic 0x32"
  const OUT_OF_GAS := "out of gas"

  /** What a call does: it returns, or it reverts and every storage write of the transaction is undone. */
  datatype Outcome<+T> = Ok(value: T) | Revert(reason: string) {
    predicate IsFailure() { Revert? }

    function PropagateFailure<U>(): Outcome<U>
      requires Revert?
    {
      Revert(reason)
    }

    function Extract(): T
      requires Ok?
    {
      value
    }
  }

  function Require(condition: bool, reason: string): Outcome<()> {
    if condition then Ok(()) else Revert(reason)
  }

  function Add(a: Uint256, b: Uint256): Outcome<Uint256> {
    if a + b <= UINT256_MAX then Ok(a + b) else Revert(PANIC_ARITHMETIC)
  }

  function Sub(a: Uint256, b: Uint256): Outcome<Uint256> {
    if a >= b then Ok(a - b) else Revert(PANIC_ARITHMETIC)
  }

  function Mul(a: Uint256, b: Uint256): Outcome<Uint256> {
    if 0 <= a * b <= UINT256_MAX then Ok(a * b) else Revert(PANIC_ARITHMETIC)
  }

  function Div(a: Uint256, b: Uint256): Outcome<Uint256> {
    if b == 0 then Revert(PANIC_DIVISION) else
    DivAtMost(a, b);
    Ok(a / b)
  }

  /** The unchecked cast `int256(u)`: two's complement, so the upper half of the range turns negative. */
  function AsInt256(u: Uint256): (i: Int256)
    ensures u <= INT256_MAX ==> i == u
    ensures u > INT256_MAX ==> i < 0
    ensures i == u || i == u - 0x1_0000_0000_0000_0000_0000_0000_0000_0000_0000_0000_0000_0000_0000_0000_0000_0000
  {
    if u <= INT256_MAX then u else u - UINT256_MAX - 1
  }

  function AddSigned(a: Int256, b: Int256): Outcome<Int256> {
    if -INT256_MAX - 1 <= a + b <= INT256_MAX then Ok(a + b) else Revert(PANIC_ARITHMETIC)
  }

  /** The block a transaction is mined in. */
  datatype Block = Block(number: Uint256, timestamp: Uint256)
}

/** Values shared by the DEX core: optional values, error outcomes, addresses,
    pool snapshots, and Python's `int()` truncation of a float. */
module Common {

  datatype Option<T> = None | Some(value: T)

  /** The exceptions the Python code raises on the paths the model follows. */
  datatype Error =
    | ZeroDivision        // ZeroDivisionError from a float division
    | NotEnoughLiquidity  // NotEnoughLiquidityError raised by the reverse swap quote
    | PoolNotFound        // a pool lookup returned None and an attribute of it was read
    | Overflow            // int.to_bytes given a value that does not fit
    | Malformed           // a cell, slice or encoded argument a library call cannot read

  datatype Result<T> = Ok(value: T) | Err(error: Error)

  /** A contract or wallet address, already validated and normalised by the caller. */
  type Address = string

  /** The pool row stored in the database (`PoolDao`), restricted to the columns the core reads. */
  datatype PoolRow = PoolRow(
    address: Address,
    routerAddress: Address,
    token0Address: Address,
    token1Address: Address,
    reserve0: int,
    reserve1: int)

  /** The on-chain pool state returned by the router's `get_pool_data`. */
  datatype PoolData = PoolData(
    reserve0: int,
    reserve1: int,
    lpFee: int,
    protocolFee: int,
    refFee: int)

  /** The TON and proxy-TON addresses of the ston.fi configuration
      (`config.ston_fi.ton_contract_address`, `config.ston_fi.proxy_ton_address`). */
  datatype StonFiConfig = StonFiConfig(tonContractAddress: Address, proxyTonAddress: Address)

  /** A transaction the wallet is asked to sign: a deadline and its messages. */
  datatype TransactionData<M> = TransactionData(validUntil: int, messages: seq<M>)

  /** `int(time.time() + 60 * 10)`: every transaction is valid for ten minutes. */
  function ValidUntil(now: real): (deadline: int)
    ensures now >= 0.0 ==> now + 599.0 < deadline as real <= now + 600.0
  {
    Trunc(now + 600.0)
  }

  /** Python's `int(x)` on a float: truncation toward zero. */
  function Trunc(x: real): (n: int)
    ensures x >= 0.0 ==> 0 <= n && n as real <= x < n as real + 1.0
    ensures x < 0.0 ==> n <= 0 && x <= n as real < x + 1.0
  {
    if x >= 0.0 then x.Floor else -((-x).Floor)
  }

  lemma TruncMonotone(x: real, y: real)
    requires x <= y
    ensures Trunc(x) <= Trunc(y)
  {
    if 0.0 <= x {
      assert x.Floor <= y.Floor;
    } else if y < 0.0 {
      assert (-y).Floor <= (-x).Floor;
    }
  }

  /** A non-negative integral float is unchanged by `int()`. */
  lemma TruncOfInt(n: int)
    ensures Trunc(n as real) == n
  {
  }
}

/** The liquidity quotes and transactions of `src/dex/liquidity.py`: the quote of a
    fresh deposit, the four-way decision taken when the user's LP account already
    holds a staged deposit, the pool search behind a withdrawal, and the routing of
    provide messages through proxy-TON. */
module Liquidity {
  import opened Common

  // ---------------------------------------------------------------------------
  // Quote figures
  // ---------------------------------------------------------------------------

  /** What the client is asked to do next (the `action` literal of the response). */
  datatype Action = Provide | ProvideSecond | ProvideAdditionalAmount | DirectAddProvide

  /** `SimulateProvideLiquidityResponse`. */
  datatype ProvideQuote = ProvideQuote(
    token0Amount: int,
    token1Amount: int,
    minExpectedTokens: int,
    expectedTokens: int,
    estimatedShareOfPool: real,
    action: Action,
    sendTokenAddress: Option<Address>,
    sendAmount: Option<int>)

  /** The router's `get_expected_tokens` get-method: the LP tokens a deposit of the
      two amounts (in the pool's own token order) would mint. */
  type ExpectedTokens = (Address, int, int) -> int

  /** The balances staged in an LP account, in the pool's own token order. */
  datatype LpAccountData = LpAccountData(token0Balance: int, token1Balance: int)

  /** A pair given in the pool's order, seen in the order of the request (or back):
      the two are swapped when the request's first token is not the pool's first. */
  function Oriented(pool: PoolRow, token0Address: Address, x0: int, x1: int): (pair: (int, int))
    ensures pool.token0Address == token0Address ==> pair == (x0, x1)
    ensures pool.token0Address != token0Address ==> pair == (x1, x0)
  {
    if pool.token0Address == token0Address then (x0, x1) else (x1, x0)
  }

  /** Orienting twice gives back the pool's order: the amounts handed to
      `get_expected_tokens` are the request's amounts in the pool's order. */
  lemma OrientedInvolution(pool: PoolRow, token0Address: Address, x0: int, x1: int)
    ensures var p := Oriented(pool, token0Address, x0, x1);
            Oriented(pool, token0Address, p.0, p.1) == (x0, x1)
  {
  }

  /** The float `num / den`. */
  function Ratio(num: int, den: int): real
    requires den != 0
  {
    num as real / den as real
  }

  /** `int(amount * (num / den))`: the amount of the other token matching `amount`
      at the ratio `num : den`. */
  function Paired(amount: int, num: int, den: int): int
    requires den != 0
  {
    Trunc(amount as real * Ratio(num, den))
  }

  /** The paired amount is the whole part of `amount * num / den`. */
  lemma PairedAtRatio(amount: int, num: int, den: int)
    requires amount >= 0 && num >= 0 && den > 0
    ensures var t := Paired(amount, num, den);
            0 <= t && t * den <= amount * num < (t + 1) * den
  {
    var x := amount as real * Ratio(num, den);
    assert x >= 0.0 by { assert Ratio(num, den) >= 0.0; }
    ScaledRatio(amount, num, den);
    FloorBetweenMultiples(Trunc(x), x, den, amount * num);
  }

  lemma ScaledRatio(amount: int, num: int, den: int)
    requires den > 0
    ensures amount as real * Ratio(num, den) * den as real == (amount * num) as real
  {
  }

  /** A whole part `t` of `x`, where `x * den` is the integer `m`, brackets `m` between
      consecutive multiples of `den`. */
  lemma FloorBetweenMultiples(t: int, x: real, den: int, m: int)
    requires t as real <= x < t as real + 1.0 && den > 0 && x * den as real == m as real
    ensures t * den <= m < (t + 1) * den
  {
    var d := den as real;
    var u := t + 1;
    ScaleBy(t as real, x, d);
    ScaleStrictlyBy(x, u as real, d);
    var lo, hi := t * den, u * den;
    IntProductAsReal(t, den);
    IntProductAsReal(u, den);
    assert lo as real <= x * d;
    assert x * d < hi as real;
  }

  lemma IntProductAsReal(i: int, j: int)
    ensures (i * j) as real == i as real * j as real
  {
  }

  lemma ScaleBy(x: real, y: real, d: real)
    requires x <= y && d > 0.0
    ensures x * d <= y * d
  {
  }

  lemma ScaleStrictlyBy(x: real, y: real, d: real)
    requires x < y && d > 0.0
    ensures x * d < y * d
  {
  }

  /** Comparing two ratios with positive denominators is comparing cross products. */
  lemma RatioCompare(a: int, b: int, c: int, d: int)
    requires b > 0 && d > 0
    ensures Ratio(a, b) < Ratio(c, d) <==> a * d < c * b
    ensures Ratio(a, b) == Ratio(c, d) <==> a * d == c * b
  {
    var x, y := Ratio(a, b), Ratio(c, d);
    var bd := (b * d) as real;
    assert bd > 0.0;
    assert x * bd == (a * d) as real;
    assert y * bd == (c * b) as real;
    if x < y {
      ScaleStrictlyBy(x, y, bd);
    }
    if a * d < c * b {
      assert x * bd < y * bd;
      assert x < y;
    }
    if a * d == c * b {
      assert x * bd == y * bd;
      assert x == y;
    }
  }

  /** Python's `round(x)` on a float: to the nearest integer, halves to the even one. */
  function RoundHalfEven(x: real): (n: int)
    ensures x - 0.5 <= n as real <= x + 0.5
    ensures n as real - x == 0.5 || x - n as real == 0.5 ==> n % 2 == 0
  {
    var f := x.Floor;
    var frac := x - f as real;
    if frac < 0.5 then f
    else if frac > 0.5 then f + 1
    else if f % 2 == 0 then f else f + 1
  }

  lemma UnitQuotient(p: real, t: real)
    requires 0.0 <= p <= t && t > 0.0
    ensures 0.0 <= p / t <= 1.0
  {
    assert p / t * t == p;
  }

  /** `round(part / (reserve + part), 4) * 100`: the pool share of a deposit, in percent. */
  function ShareOfPool(part: int, reserve: int): (share: real)
    requires reserve + part != 0
    ensures reserve >= 0 && part >= 0 ==> 0.0 <= share <= 100.0
    ensures var exact := part as real / (reserve + part) as real * 100.0;
            exact - 0.005 <= share <= exact + 0.005
  {
    var q := part as real / (reserve + part) as real;
    assert reserve >= 0 && part >= 0 ==> 0.0 <= q <= 1.0 by {
      if reserve >= 0 && part >= 0 {
        UnitQuotient(part as real, (reserve + part) as real);
      }
    }
    var rounded := RoundHalfEven(q * 10000.0);
    assert reserve >= 0 && part >= 0 ==> 0 <= rounded <= 10000;
    rounded as real / 10000.0 * 100.0
  }

  /** `int(expected_tokens * (1 - slippage_tolerance / 100))`. */
  function MinExpectedTokens(expectedTokens: int, slippage: real): (minTokens: int)
    ensures expectedTokens >= 0 && 0.0 <= slippage <= 100.0 ==> 0 <= minTokens <= expectedTokens
    ensures slippage == 0.0 ==> minTokens == expectedTokens
  {
    var keep := 1.0 - slippage / 100.0;
    var x := expectedTokens as real * keep;
    assert expectedTokens >= 0 && 0.0 <= slippage <= 100.0 ==> 0.0 <= x <= expectedTokens as real by {
      if expectedTokens >= 0 && 0.0 <= slippage <= 100.0 {
        assert 0.0 <= keep <= 1.0;
        assert expectedTokens as real * keep <= expectedTokens as real * 1.0;
      }
    }
    TruncOfInt(expectedTokens);
    Trunc(x)
  }

  /** The response once the two amounts are fixed: the LP tokens the router expects
      for them (asked in the pool's order), the slippage floor and the share. */
  function Quote(
    pool: PoolRow, token0Address: Address, token0Amount: int, token1Amount: int, slippage: real,
    expected: ExpectedTokens, share: real, action: Action, sendTokenAddress: Option<Address>,
    sendAmount: Option<int>)
    : ProvideQuote
  {
    var (poolAmount0, poolAmount1) := Oriented(pool, token0Address, token0Amount, token1Amount);
    var expectedTokens := expected(pool.address, poolAmount0, poolAmount1);
    ProvideQuote(token0Amount, token1Amount, MinExpectedTokens(expectedTokens, slippage), expectedTokens,
                 share, action, sendTokenAddress, sendAmount)
  }

  // ---------------------------------------------------------------------------
  // simulate_provide_liquidity
  // ---------------------------------------------------------------------------

  /** `simulate_provide_liquidity`: a non-zero `token0Amount` fixes the deposit and
      `token1Amount` is recomputed at the pool's ratio; otherwise `token1Amount` fixes it. */
  function SimulateProvideLiquidity(
    token0Address: Address, token0Amount: int, token1Amount: int, slippage: real,
    pool: Option<PoolRow>, data: PoolData, expected: ExpectedTokens)
    : (r: Result<ProvideQuote>)
    ensures pool.None? ==> r == Err(PoolNotFound)
    ensures r.Err? ==> r.error == PoolNotFound || r.error == ZeroDivision
    ensures r.Ok? ==> r.value.action == Provide && r.value.sendTokenAddress.None? && r.value.sendAmount.None?
    ensures r.Ok? && token0Amount != 0 ==> r.value.token0Amount == token0Amount
    ensures r.Ok? && token0Amount == 0 ==> r.value.token1Amount == token1Amount
  {
    match pool
    case None => Err(PoolNotFound)
    case Some(p) =>
      var (r0, r1) := Oriented(p, token0Address, data.reserve0, data.reserve1);
      if token0Amount != 0 then
        if r0 == 0 || r0 + token0Amount == 0 then Err(ZeroDivision)
        else
          Ok(Quote(p, token0Address, token0Amount, Paired(token0Amount, r1, r0), slippage, expected,
                   ShareOfPool(token0Amount, r0), Provide, None, None))
      else
        if r1 == 0 || r1 + token1Amount == 0 then Err(ZeroDivision)
        else
          Ok(Quote(p, token0Address, Paired(token1Amount, r0, r1), token1Amount, slippage, expected,
                   ShareOfPool(token1Amount, r1), Provide, None, None))
  }

  /** On a pool with reserves on both sides a non-negative request is always quoted:
      the fixed side is kept, the other is the whole part of it at the pool's ratio,
      the share is a percentage and the slippage floor does not exceed the expectation. */
  lemma {:induction false} ProvideQuoteAtPoolRatio(
    token0Address: Address, token0Amount: int, token1Amount: int, slippage: real,
    pool: PoolRow, data: PoolData, expected: ExpectedTokens)
    requires token0Amount >= 0 && token1Amount >= 0
    requires Oriented(pool, token0Address, data.reserve0, data.reserve1).0 > 0
    requires Oriented(pool, token0Address, data.reserve0, data.reserve1).1 > 0
    requires 0.0 <= slippage <= 100.0
    ensures var r := SimulateProvideLiquidity(token0Address, token0Amount, token1Amount, slippage, Some(pool), data, expected);
            var (r0, r1) := Oriented(pool, token0Address, data.reserve0, data.reserve1);
            && r.Ok?
            && 0.0 <= r.value.estimatedShareOfPool <= 100.0
            && (r.value.expectedTokens >= 0 ==> 0 <= r.value.minExpectedTokens <= r.value.expectedTokens)
            && (token0Amount != 0 ==>
                  && r.value.token0Amount == token0Amount
                  && r.value.token1Amount * r0 <= token0Amount * r1 < (r.value.token1Amount + 1) * r0)
            && (token0Amount == 0 ==>
                  && r.value.token1Amount == token1Amount
                  && r.value.token0Amount * r1 <= token1Amount * r0 < (r.value.token0Amount + 1) * r1)
  {
    var (r0, r1) := Oriented(pool, token0Address, data.reserve0, data.reserve1);
    if token0Amount != 0 {
      PairedAtRatio(token0Amount, r1, r0);
    } else {
      PairedAtRatio(token1Amount, r0, r1);
    }
  }

  // ---------------------------------------------------------------------------
  // simulate_complete_provide_liquidity
  // ---------------------------------------------------------------------------

  /** The amounts and instructions the four-way decision settles on. */
  datatype Decision = Decision(
    token0Amount: int,
    token1Amount: int,
    action: Action,
    sendTokenAddress: Option<Address>,
    sendAmount: Option<int>)

  /** The decision of `simulate_complete_provide_liquidity`, given the request's amounts,
      the reserves and the staged balances, all in the request's token order. The rate
      comparison is evaluated before any branch, as the source does. */
  function Decide(
    token0Address: Address, token1Address: Address, token0Amount: int, token1Amount: int,
    r0: int, r1: int, b0: int, b1: int)
    : (d: Result<Decision>)
    ensures d.Err? ==> d.error == ZeroDivision && (r0 == 0 || r1 == 0)
  {
    var needsCompletion := b0 > 0 || b1 > 0;
    var needsSecond := (b0 > 0) != (b1 > 0);
    if b0 > 0 && b1 > 0 && r1 == 0 then Err(ZeroDivision)
    else
      var rateChanged := b0 > 0 && b1 > 0 && Ratio(r0, r1) != Ratio(b0, b1);
      if !needsCompletion then
        if token0Amount != 0 then
          if r0 == 0 then Err(ZeroDivision)
          else Ok(Decision(token0Amount, Paired(token0Amount, r1, r0), Provide, Some(token0Address), None))
        else
          if r1 == 0 then Err(ZeroDivision)
          else Ok(Decision(Paired(token1Amount, r0, r1), token1Amount, Provide, Some(token0Address), None))
      else if needsSecond then
        if b0 == 0 then
          if r1 == 0 then Err(ZeroDivision)
          else Ok(Decision(Paired(token1Amount, r0, r1), b1, ProvideSecond, Some(token0Address), None))
        else
          if r0 == 0 then Err(ZeroDivision)
          else Ok(Decision(b0, Paired(b0, r1, r0), ProvideSecond, Some(token1Address), None))
      else if rateChanged then
        var oldRate := Ratio(b0, b1);
        var newRate := Ratio(r0, r1);
        if newRate > oldRate then
          var t0 := Paired(b1, r0, r1);
          Ok(Decision(t0, b1, ProvideAdditionalAmount, Some(token0Address), Some(t0 - b0)))
        else if newRate == 0.0 then Err(ZeroDivision)
        else
          var t1 := Trunc(b0 as real / newRate);
          Ok(Decision(b0, t1, ProvideAdditionalAmount, Some(token1Address), Some(t1 - b1)))
      else Ok(Decision(b0, b1, DirectAddProvide, None, None))
  }

  /** Which action is taken depends on the staged balances alone: nothing staged means
      a fresh deposit, exactly one side staged means sending the other, both staged at
      the pool's ratio means adding them directly, and both staged at another ratio
      means topping one side up. */
  lemma {:induction false} DecisionFollowsBalances(
    token0Address: Address, token1Address: Address, token0Amount: int, token1Amount: int,
    r0: int, r1: int, b0: int, b1: int)
    requires Decide(token0Address, token1Address, token0Amount, token1Amount, r0, r1, b0, b1).Ok?
    ensures var d := Decide(token0Address, token1Address, token0Amount, token1Amount, r0, r1, b0, b1).value;
            && (d.action == Provide <==> b0 <= 0 && b1 <= 0)
            && (d.action == ProvideSecond <==> (b0 > 0) != (b1 > 0))
            && (d.action == DirectAddProvide <==> b0 > 0 && b1 > 0 && r0 * b1 == b0 * r1)
            && (d.action == ProvideAdditionalAmount <==> b0 > 0 && b1 > 0 && r0 * b1 != b0 * r1)
  {
    if b0 > 0 && b1 > 0 {
      if r1 > 0 {
        RatioCompare(r0, r1, b0, b1);
      } else {
        assert Ratio(r0, r1) == (-r0) as real / (-r1) as real;
        RatioCompare(-r0, -r1, b0, b1);
      }
    }
  }

  /** Staged token0 is short of the pool's ratio: token0 is topped up to match the
      staged token1, and the top-up is never negative. */
  lemma {:induction false} TopUpToken0(
    token0Address: Address, token1Address: Address, token0Amount: int, token1Amount: int,
    r0: int, r1: int, b0: int, b1: int)
    requires r0 > 0 && r1 > 0 && b0 > 0 && b1 > 0 && r0 * b1 > b0 * r1
    ensures var d := Decide(token0Address, token1Address, token0Amount, token1Amount, r0, r1, b0, b1);
            && d.Ok? && d.value.action == ProvideAdditionalAmount
            && d.value.sendTokenAddress == Some(token0Address)
            && d.value.token1Amount == b1
            && d.value.sendAmount == Some(d.value.token0Amount - b0)
            && d.value.token0Amount >= b0
            && d.value.token0Amount * r1 <= b1 * r0 < (d.value.token0Amount + 1) * r1
  {
    RatioCompare(b0, b1, r0, r1);
    assert Ratio(r0, r1) > Ratio(b0, b1);
    var t0 := Paired(b1, r0, r1);
    assert Decide(token0Address, token1Address, token0Amount, token1Amount, r0, r1, b0, b1)
        == Ok(Decision(t0, b1, ProvideAdditionalAmount, Some(token0Address), Some(t0 - b0)));
    PairedAtRatio(b1, r0, r1);
    assert t0 >= b0 by {
      if t0 < b0 {
        assert t0 + 1 <= b0;
        MulMonotone(t0 + 1, b0, r1);
      }
    }
  }

  /** Staged token1 is short of the pool's ratio: token1 is topped up to match the
      staged token0, and the top-up is never negative. */
  lemma {:induction false} TopUpToken1(
    token0Address: Address, token1Address: Address, token0Amount: int, token1Amount: int,
    r0: int, r1: int, b0: int, b1: int)
    requires r0 > 0 && r1 > 0 && b0 > 0 && b1 > 0 && r0 * b1 < b0 * r1
    ensures var d := Decide(token0Address, token1Address, token0Amount, token1Amount, r0, r1, b0, b1);
            && d.Ok? && d.value.action == ProvideAdditionalAmount
            && d.value.sendTokenAddress == Some(token1Address)
            && d.value.token0Amount == b0
            && d.value.sendAmount == Some(d.value.token1Amount - b1)
            && d.value.token1Amount >= b1
            && d.value.token1Amount * r0 <= b0 * r1 < (d.value.token1Amount + 1) * r0
  {
    RatioCompare(r0, r1, b0, b1);
    RatioCompare(b0, b1, r0, r1);
    var newRate := Ratio(r0, r1);
    assert newRate < Ratio(b0, b1) && newRate != 0.0;
    InverseRatio(b0, r0, r1);
    var t1 := Paired(b0, r1, r0);
    assert Decide(token0Address, token1Address, token0Amount, token1Amount, r0, r1, b0, b1)
        == Ok(Decision(b0, t1, ProvideAdditionalAmount, Some(token1Address), Some(t1 - b1)));
    PairedAtRatio(b0, r1, r0);
    assert t1 >= b1 by {
      if t1 < b1 {
        assert t1 + 1 <= b1;
        MulMonotone(t1 + 1, b1, r0);
      }
    }
  }

  /** Dividing by `r0 / r1` is multiplying by `r1 / r0`. */
  lemma InverseRatio(b: int, r0: int, r1: int)
    requires r0 > 0 && r1 > 0
    ensures b as real / Ratio(r0, r1) == b as real * Ratio(r1, r0)
  {
    var p, q := r0 as real, r1 as real;
    assert Ratio(r0, r1) * Ratio(r1, r0) == 1.0;
  }

  lemma MulMonotone(x: int, y: int, d: int)
    requires x <= y && d > 0
    ensures x * d <= y * d
  {
  }

  /** Both balances staged at exactly the pool's ratio are added as they are, with
      nothing more to send. */
  lemma {:induction false} DirectAddKeepsBalances(
    token0Address: Address, token1Address: Address, token0Amount: int, token1Amount: int,
    r0: int, r1: int, b0: int, b1: int)
    requires r1 > 0 && b0 > 0 && b1 > 0 && r0 * b1 == b0 * r1
    ensures Decide(token0Address, token1Address, token0Amount, token1Amount, r0, r1, b0, b1)
         == Ok(Decision(b0, b1, DirectAddProvide, None, None))
  {
    RatioCompare(r0, r1, b0, b1);
  }

  /** Nothing staged: the amount the user gave for one side is kept and the other side
      is paired with it at the pool's ratio (token1 from token0 unless token0 is zero),
      to be sent from token0's side with no extra amount; nothing requested pairs to
      nothing. Pairing divides by the reserve of the kept side, which raises when it is
      empty. */
  lemma {:induction false} FreshDepositAtPoolRatio(
    token0Address: Address, token1Address: Address, token0Amount: int, token1Amount: int,
    r0: int, r1: int, b0: int, b1: int)
    requires b0 <= 0 && b1 <= 0
    requires token0Amount >= 0 && token1Amount >= 0 && r0 >= 0 && r1 >= 0
    ensures var d := Decide(token0Address, token1Address, token0Amount, token1Amount, r0, r1, b0, b1);
            && (d.Err? <==> (token0Amount != 0 && r0 == 0) || (token0Amount == 0 && r1 == 0))
            && (d.Ok? ==>
                  && d.value.action == Provide
                  && d.value.sendTokenAddress == Some(token0Address) && d.value.sendAmount.None?
                  && 0 <= d.value.token0Amount && 0 <= d.value.token1Amount
                  && (token0Amount != 0 ==>
                        && d.value.token0Amount == token0Amount
                        && d.value.token1Amount * r0 <= token0Amount * r1 < (d.value.token1Amount + 1) * r0)
                  && (token0Amount == 0 ==>
                        && d.value.token1Amount == token1Amount
                        && d.value.token0Amount * r1 <= token1Amount * r0 < (d.value.token0Amount + 1) * r1)
                  && (token0Amount == 0 && token1Amount == 0 ==> d.value.token0Amount == 0 && d.value.token1Amount == 0))
  {
    if token0Amount != 0 && r0 != 0 {
      PairedAtRatio(token0Amount, r1, r0);
    } else if token0Amount == 0 && r1 != 0 {
      PairedAtRatio(token1Amount, r0, r1);
      var t := Paired(token1Amount, r0, r1);
      if token1Amount == 0 && t != 0 {
        MulMonotone(1, t, r1);
      }
    }
  }

  /** Only the first token staged: it is kept and the second is sent at the pool's ratio. */
  lemma {:induction false} SecondAfterStagedToken0(
    token0Address: Address, token1Address: Address, token0Amount: int, token1Amount: int,
    r0: int, r1: int, b0: int)
    requires r0 > 0 && r1 >= 0 && b0 > 0
    ensures var d := Decide(token0Address, token1Address, token0Amount, token1Amount, r0, r1, b0, 0);
            && d.Ok? && d.value.action == ProvideSecond
            && d.value.sendTokenAddress == Some(token1Address) && d.value.sendAmount.None?
            && d.value.token0Amount == b0
            && d.value.token1Amount * r0 <= b0 * r1 < (d.value.token1Amount + 1) * r0
  {
    PairedAtRatio(b0, r1, r0);
  }

  /** As written, when only the second token is staged the first is paired with the
      amount the user requested rather than with the staged balance: a pool at 1 : 1
      with 100 units of the second token staged and 5 requested asks for 5 units of
      the first token against 100 of the second. */
  lemma ProvideSecondPairsRequestedAmount()
    ensures Decide("A", "B", 0, 5, 1000, 1000, 0, 100)
         == Ok(Decision(5, 100, ProvideSecond, Some("A"), None))
  {
    assert Ratio(1000, 1000) == 1.0;
    TruncOfInt(5);
  }

  /** The evident intent of the one-side-staged branch: pair the staged balance,
      whichever side it is on. */
  function CompleteStagedSide(
    token0Address: Address, token1Address: Address, r0: int, r1: int, b0: int, b1: int)
    : (d: Result<Decision>)
    requires (b0 > 0) != (b1 > 0)
    ensures d.Err? ==> d.error == ZeroDivision && (r0 == 0 || r1 == 0)
  {
    if b0 == 0 then
      if r1 == 0 then Err(ZeroDivision)
      else Ok(Decision(Paired(b1, r0, r1), b1, ProvideSecond, Some(token0Address), None))
    else
      if r0 == 0 then Err(ZeroDivision)
      else Ok(Decision(b0, Paired(b0, r1, r0), ProvideSecond, Some(token1Address), None))
  }

  /** The corrected branch completes the staged side at the pool's ratio in both cases,
      and agrees with the code as written whenever the first token is the staged one. */
  lemma {:induction false} CompleteStagedSideAtPoolRatio(
    token0Address: Address, token1Address: Address, token0Amount: int, token1Amount: int,
    r0: int, r1: int, b0: int, b1: int)
    requires r0 > 0 && r1 > 0 && b0 >= 0 && b1 >= 0 && (b0 > 0) != (b1 > 0)
    ensures var d := CompleteStagedSide(token0Address, token1Address, r0, r1, b0, b1);
            && d.Ok?
            && (b0 > 0 ==>
                  && d.value.token0Amount == b0
                  && d.value.token1Amount * r0 <= b0 * r1 < (d.value.token1Amount + 1) * r0
                  && d == Decide(token0Address, token1Address, token0Amount, token1Amount, r0, r1, b0, b1))
            && (b1 > 0 ==>
                  && d.value.token1Amount == b1
                  && d.value.token0Amount * r1 <= b1 * r0 < (d.value.token0Amount + 1) * r1)
  {
    if b0 > 0 {
      PairedAtRatio(b0, r1, r0);
    } else {
      PairedAtRatio(b1, r0, r1);
    }
  }

  /** `simulate_complete_provide_liquidity`: without an LP account (None or empty) it is
      the fresh-deposit quote; otherwise the staged balances decide what to send, and
      the share is always taken on the first token. */
  function SimulateCompleteProvideLiquidity(
    token0Address: Address, token1Address: Address, token0Amount: int, token1Amount: int, slippage: real,
    lpAccountAddress: Option<Address>, pool: Option<PoolRow>, data: PoolData, lpData: LpAccountData,
    expected: ExpectedTokens)
    : (r: Result<ProvideQuote>)
    ensures r.Err? ==> r.error == PoolNotFound || r.error == ZeroDivision
    ensures pool.None? ==> r == Err(PoolNotFound)
    ensures (lpAccountAddress.None? || lpAccountAddress == Some("")) && r.Ok? ==>
              r.value.action == Provide && r.value.sendTokenAddress.None?
  {
    if lpAccountAddress.None? || lpAccountAddress.value == "" then
      SimulateProvideLiquidity(token0Address, token0Amount, token1Amount, slippage, pool, data, expected)
    else
      match pool
      case None => Err(PoolNotFound)
      case Some(p) =>
        var (r0, r1) := Oriented(p, token0Address, data.reserve0, data.reserve1);
        var (b0, b1) := Oriented(p, token0Address, lpData.token0Balance, lpData.token1Balance);
        match Decide(token0Address, token1Address, token0Amount, token1Amount, r0, r1, b0, b1)
        case Err(e) => Err(e)
        case Ok(d) =>
          if r0 + d.token0Amount == 0 then Err(ZeroDivision)
          else
            Ok(Quote(p, token0Address, d.token0Amount, d.token1Amount, slippage, expected,
                     ShareOfPool(d.token0Amount, r0), d.action, d.sendTokenAddress, d.sendAmount))
  }

  /** With an LP account the quote carries the decision unchanged, and the expected LP
      tokens are asked for the decided amounts in the pool's order. */
  lemma {:induction false} CompleteQuoteCarriesDecision(
    token0Address: Address, token1Address: Address, token0Amount: int, token1Amount: int, slippage: real,
    lpAccountAddress: Address, pool: PoolRow, data: PoolData, lpData: LpAccountData, expected: ExpectedTokens)
    requires lpAccountAddress != ""
    requires Oriented(pool, token0Address, data.reserve0, data.reserve1).0 > 0
    requires Oriented(pool, token0Address, data.reserve0, data.reserve1).1 > 0
    requires lpData.token0Balance >= 0 && lpData.token1Balance >= 0
    ensures var (r0, r1) := Oriented(pool, token0Address, data.reserve0, data.reserve1);
            var (b0, b1) := Oriented(pool, token0Address, lpData.token0Balance, lpData.token1Balance);
            var d := Decide(token0Address, token1Address, token0Amount, token1Amount, r0, r1, b0, b1);
            var r := SimulateCompleteProvideLiquidity(token0Address, token1Address, token0Amount, token1Amount,
                       slippage, Some(lpAccountAddress), Some(pool), data, lpData, expected);
            && d.Ok?
            && (r.Ok? <==> r0 + d.value.token0Amount != 0)
            && (d.value.token0Amount >= 0 ==> r.Ok? && 0.0 <= r.value.estimatedShareOfPool <= 100.0)
            && (r.Ok? ==>
                  && r.value.token0Amount == d.value.token0Amount
                  && r.value.token1Amount == d.value.token1Amount
                  && r.value.action == d.value.action
                  && r.value.sendTokenAddress == d.value.sendTokenAddress
                  && r.value.sendAmount == d.value.sendAmount
                  && var poolOrder := Oriented(pool, token0Address, d.value.token0Amount, d.value.token1Amount);
                     r.value.expectedTokens == expected(pool.address, poolOrder.0, poolOrder.1))
  {
  }

  // ---------------------------------------------------------------------------
  // remove_liquidity
  // ---------------------------------------------------------------------------

  /** A pool the user holds LP tokens of, as listed by the ston.fi HTTP API. */
  datatype WalletPool = WalletPool(
    address: Address,
    token0Address: Address,
    token1Address: Address,
    lpWalletAddress: Option<Address>)

  /** The pool trades the two tokens, in either order. */
  predicate TradesPair(pool: WalletPool, token0Address: Address, token1Address: Address) {
    || (pool.token0Address == token0Address && pool.token1Address == token1Address)
    || (pool.token0Address == token1Address && pool.token1Address == token0Address)
  }

  /** The first listed pool that trades the pair. */
  function FirstPoolForPair(pools: seq<WalletPool>, token0Address: Address, token1Address: Address)
    : (found: Option<WalletPool>)
    ensures found.Some? ==> found.value in pools && TradesPair(found.value, token0Address, token1Address)
  {
    if pools == [] then None
    else if TradesPair(pools[0], token0Address, token1Address) then Some(pools[0])
    else FirstPoolForPair(pools[1..], token0Address, token1Address)
  }

  /** No pool is found exactly when none of the listed pools trades the pair, and a
      found pool is preceded by none that does. */
  lemma {:induction false} FirstPoolForPairIsFirst(pools: seq<WalletPool>, token0Address: Address, token1Address: Address)
    ensures var found := FirstPoolForPair(pools, token0Address, token1Address);
            && (found.None? <==> forall i :: 0 <= i < |pools| ==> !TradesPair(pools[i], token0Address, token1Address))
            && (found.Some? ==>
                  exists i :: 0 <= i < |pools| && pools[i] == found.value
                    && (forall j :: 0 <= j < i ==> !TradesPair(pools[j], token0Address, token1Address)))
  {
    if pools != [] && !TradesPair(pools[0], token0Address, token1Address) {
      FirstPoolForPairIsFirst(pools[1..], token0Address, token1Address);
      var found := FirstPoolForPair(pools, token0Address, token1Address);
      if found.Some? {
        var i :| 0 <= i < |pools[1..]| && pools[1..][i] == found.value
                 && forall j :: 0 <= j < i ==> !TradesPair(pools[1..][j], token0Address, token1Address);
        assert pools[i + 1] == found.value;
        assert forall j :: 0 <= j < i + 1 ==> !TradesPair(pools[j], token0Address, token1Address) by {
          forall j | 0 <= j < i + 1 ensures !TradesPair(pools[j], token0Address, token1Address) {
            if j > 0 {
              assert pools[j] == pools[1..][j - 1];
            }
          }
        }
      } else {
        forall i | 0 <= i < |pools| ensures !TradesPair(pools[i], token0Address, token1Address) {
          if i > 0 {
            assert pools[i] == pools[1..][i - 1];
          }
        }
      }
    } else if pools != [] {
      assert pools[0] == FirstPoolForPair(pools, token0Address, token1Address).value;
    }
  }

  /** The order in which the two tokens are named does not change the pool found. */
  lemma {:induction false} FirstPoolForPairSymmetric(pools: seq<WalletPool>, token0Address: Address, token1Address: Address)
    ensures FirstPoolForPair(pools, token0Address, token1Address) == FirstPoolForPair(pools, token1Address, token0Address)
  {
    if pools != [] {
      FirstPoolForPairSymmetric(pools[1..], token0Address, token1Address);
    }
  }

  /** The search loop of `remove_liquidity`: walk the pools and stop at the first match. */
  method FindPoolForPair(pools: seq<WalletPool>, token0Address: Address, token1Address: Address)
    returns (found: Option<WalletPool>)
    ensures found == FirstPoolForPair(pools, token0Address, token1Address)
  {
    found := None;
    var i := 0;
    while i < |pools|
      invariant 0 <= i <= |pools|
      invariant FirstPoolForPair(pools, token0Address, token1Address) == FirstPoolForPair(pools[i..], token0Address, token1Address)
    {
      if TradesPair(pools[i], token0Address, token1Address) {
        found := Some(pools[i]);
        return;
      }
      assert pools[i..][1..] == pools[i + 1..];
      i := i + 1;
    }
  }

  /** The message the router builds to burn LP tokens from the user's LP wallet. */
  datatype BurnMessage = BurnMessage(userWalletAddress: Address, amount: int, userLpWalletAddress: Option<Address>)

  /** `remove_liquidity`: None when the user holds no pool of the pair, otherwise one
      burn of `lpAmount` from that pool's LP wallet, valid for ten minutes. */
  method RemoveLiquidity(
    pools: seq<WalletPool>, userWalletAddress: Address, token0Address: Address, token1Address: Address,
    lpAmount: int, now: real)
    returns (tx: Option<TransactionData<BurnMessage>>)
    ensures var pool := FirstPoolForPair(pools, token0Address, token1Address);
            && (tx.None? <==> pool.None?)
            && (tx.Some? ==>
                  tx.value == TransactionData(ValidUntil(now),
                    [BurnMessage(userWalletAddress, lpAmount, pool.value.lpWalletAddress)]))
  {
    var pool := FindPoolForPair(pools, token0Address, token1Address);
    if pool.None? {
      return None;
    }
    var message := BurnMessage(userWalletAddress, lpAmount, pool.value.lpWalletAddress);
    tx := Some(TransactionData(ValidUntil(now), [message]));
  }

  // ---------------------------------------------------------------------------
  // Provide messages
  // ---------------------------------------------------------------------------

  /** A provide message of the router: TON goes through the proxy-TON contract with the
      wallet's TON, a jetton through the user's jetton wallet. */
  datatype ProvideMessage =
    | ProxyTonProvide(proxyTonAddress: Address, secondTokenAddress: Address, sendAmount: int, minLpOut: int)
    | JettonProvide(userWalletAddress: Address, sendTokenAddress: Address, secondTokenAddress: Address,
                    sendAmount: int, minLpOut: int)

  /** `create_provide_liquidity_message`: send TON through proxy-TON; otherwise send the
      jetton and name proxy-TON in place of TON as the other side. */
  function CreateProvideLiquidityMessage(
    config: StonFiConfig, userWalletAddress: Address, sendTokenAddress: Address, secondTokenAddress: Address,
    sendAmount: int, minLpOut: int)
    : (m: ProvideMessage)
    ensures m.ProxyTonProvide? <==> sendTokenAddress == config.tonContractAddress
    ensures m.sendAmount == sendAmount && m.minLpOut == minLpOut
    ensures m.JettonProvide? ==> m.sendTokenAddress == sendTokenAddress && m.userWalletAddress == userWalletAddress
    ensures m.JettonProvide? && config.proxyTonAddress != config.tonContractAddress ==>
              m.secondTokenAddress != config.tonContractAddress
  {
    if sendTokenAddress == config.tonContractAddress then
      ProxyTonProvide(config.proxyTonAddress, secondTokenAddress, sendAmount, minLpOut)
    else
      var second := if secondTokenAddress == config.tonContractAddress then config.proxyTonAddress
                    else secondTokenAddress;
      JettonProvide(userWalletAddress, sendTokenAddress, second, sendAmount, minLpOut)
  }

  /** The token a provide message deposits, as the pool knows it (proxy-TON for TON). */
  function Deposited(config: StonFiConfig, m: ProvideMessage): Address {
    match m
    case ProxyTonProvide(proxy, _, _, _) => proxy
    case JettonProvide(_, send, _, _, _) => send
  }

  /** `provide_liquidity`: two messages, each depositing one token and naming the other. */
  function ProvideLiquidity(
    config: StonFiConfig, userWalletAddress: Address, token0Address: Address, token1Address: Address,
    token0Amount: int, token1Amount: int, minLpOut: int, now: real)
    : TransactionData<ProvideMessage>
  {
    TransactionData(ValidUntil(now), [
      CreateProvideLiquidityMessage(config, userWalletAddress, token0Address, token1Address, token0Amount, minLpOut),
      CreateProvideLiquidityMessage(config, userWalletAddress, token1Address, token0Address, token1Amount, minLpOut)])
  }

  /** The proxy-TON substitution of a token address. */
  function AsPooled(config: StonFiConfig, token: Address): Address {
    if token == config.tonContractAddress then config.proxyTonAddress else token
  }

  /** The two provide messages deposit the two tokens with their amounts, each naming
      the other as its partner, with TON replaced by proxy-TON throughout; so the pool
      sees one deposit of each side of the pair. */
  lemma {:induction false} ProvideLiquidityPairsDeposits(
    config: StonFiConfig, userWalletAddress: Address, token0Address: Address, token1Address: Address,
    token0Amount: int, token1Amount: int, minLpOut: int, now: real)
    ensures var tx := ProvideLiquidity(config, userWalletAddress, token0Address, token1Address,
                                       token0Amount, token1Amount, minLpOut, now);
            && |tx.messages| == 2
            && tx.messages[0].sendAmount == token0Amount && tx.messages[1].sendAmount == token1Amount
            && Deposited(config, tx.messages[0]) == AsPooled(config, token0Address)
            && Deposited(config, tx.messages[1]) == AsPooled(config, token1Address)
            && tx.messages[0].secondTokenAddress
                 == (if tx.messages[0].ProxyTonProvide? then token1Address else AsPooled(config, token1Address))
            && tx.messages[1].secondTokenAddress
                 == (if tx.messages[1].ProxyTonProvide? then token0Address else AsPooled(config, token0Address))
            && (now >= 0.0 ==> now + 599.0 < tx.validUntil as real <= now + 600.0)
  {
  }
}

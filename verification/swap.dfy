/** Swap quotes and the swap transaction (src/dex/swap.py).

    `ForwardSimulation` and `ReverseSimulation` state what the two quote endpoints
    compute from a request, the pool found for it and the pool data the router
    returns; the methods of `SwapSimulateRequest` compute the same step by step and
    also divide the request's slippage tolerance by 100 in place, as the source does. */
module Swap {
  import opened Common
  import opened Pricing

  /** The request of both quote endpoints, as a value. */
  datatype SimulateRequest = SimulateRequest(
    offerAddress: Address,
    askAddress: Address,
    units: int,
    slippageTolerance: real,          // percent on input
    referralAddress: Option<Address>)

  /** The quote returned by both endpoints. */
  datatype SwapSimulateResponse = SwapSimulateResponse(
    askAddress: Address,
    askUnits: int,
    feeAddress: Address,
    feePercent: real,
    feeUnits: int,
    minAskUnits: int,
    offerAddress: Address,
    offerUnits: int,
    poolAddress: Address,
    priceImpact: real,
    routerAddress: Address,
    slippageTolerance: real,
    swapRate: real,
    tonFeeUnits: int)

  /** What a simulation returns (or raises), and the request's slippage tolerance after it. */
  datatype SimulationOutcome = SimulationOutcome(response: Result<SwapSimulateResponse>, slippageAfter: real)

  // ---------------------------------------------------------------------------
  // Quote figures
  // ---------------------------------------------------------------------------

  /** The pool's reserves as (offer side, ask side): as stored when the offered asset is
      the pool's token0, swapped otherwise. */
  function OrientReserves(pool: PoolRow, data: PoolData, offerAddress: Address): (reserves: (int, int))
    ensures pool.token0Address == offerAddress ==> reserves == (data.reserve0, data.reserve1)
    ensures pool.token0Address != offerAddress ==> reserves == (data.reserve1, data.reserve0)
  {
    if pool.token0Address == offerAddress then (data.reserve0, data.reserve1) else (data.reserve1, data.reserve0)
  }

  /** Quoting the opposite direction of the same pool swaps the two reserves. */
  lemma OrientationReverses(pool: PoolRow, data: PoolData, offerAddress: Address, askAddress: Address)
    requires offerAddress != askAddress
    requires {pool.token0Address, pool.token1Address} == {offerAddress, askAddress}
    ensures var (inR, outR) := OrientReserves(pool, data, offerAddress);
            OrientReserves(pool, data, askAddress) == (outR, inR)
  {
    if pool.token0Address != offerAddress {
      assert pool.token0Address in {offerAddress, askAddress};
    }
  }

  /** The slippage floor of a forward quote: the quoted output less the slippage
      fraction, truncated; zero when nothing is quoted. */
  function MinAskUnits(askUnits: int, slippage: real): (minAsk: int)
    ensures askUnits <= 0 ==> minAsk == 0
    ensures askUnits > 0 && 0.0 <= slippage <= 1.0 ==> 0 <= minAsk <= askUnits
    ensures askUnits > 0 && slippage == 0.0 ==> minAsk == askUnits
  {
    if askUnits > 0 then
      assert 0.0 <= slippage <= 1.0 ==> 0.0 <= askUnits as real * (1.0 - slippage) <= askUnits as real by {
        if 0.0 <= slippage <= 1.0 {
          NonNegativeProduct(askUnits as real, 1.0 - slippage);
          NonNegativeProduct(askUnits as real, slippage);
        }
      }
      Trunc(askUnits as real * (1.0 - slippage))
    else 0
  }

  /** A larger slippage tolerance never raises the floor. */
  lemma MinAskAntitone(askUnits: int, slippage: real, slippage': real)
    requires slippage <= slippage'
    ensures MinAskUnits(askUnits, slippage') <= MinAskUnits(askUnits, slippage)
  {
    if askUnits > 0 {
      var a, x, y := askUnits as real, 1.0 - slippage', 1.0 - slippage;
      TruncScaledMonotone(a, x, y);
      assert MinAskUnits(askUnits, slippage') == Trunc(a * x);
      assert MinAskUnits(askUnits, slippage) == Trunc(a * y);
    }
  }

  lemma TruncScaledMonotone(a: real, x: real, y: real)
    requires a >= 0.0 && x <= y
    ensures Trunc(a * x) <= Trunc(a * y)
  {
    ScaleMonotone(a, x, y);
    TruncMonotone(a * x, a * y);
  }

  lemma ScaleMonotone(a: real, x: real, y: real)
    requires a >= 0.0 && x <= y
    ensures a * x <= a * y
  {
    NonNegativeProduct(a, y - x);
    assert a * y - a * x == a * (y - x);
  }

  /** Output per unit of input, zero when no input is offered. */
  function SwapRate(askUnits: int, units: int): (rate: real)
    ensures units > 0 ==> rate * units as real == askUnits as real
    ensures units <= 0 ==> rate == 0.0
  {
    if units > 0 then askUnits as real / units as real else 0.0
  }

  /** The share of the fees in the quoted output, zero when nothing is quoted. */
  function FeePercent(protocolFeeUnits: int, refFeeUnits: int, askUnits: int): (percent: real)
    ensures askUnits > 0 ==> percent * askUnits as real == (protocolFeeUnits + refFeeUnits) as real
    ensures askUnits <= 0 ==> percent == 0.0
  {
    if askUnits > 0 then (protocolFeeUnits + refFeeUnits) as real / askUnits as real else 0.0
  }

  // ---------------------------------------------------------------------------
  // Forward simulation
  // ---------------------------------------------------------------------------

  /** `simulate_swap`: quote the output for `units` of the offered asset. A missing pool
      and the divisions by zero of the quote are raised before the slippage tolerance is
      divided by 100; a failing fee conversion is raised after it. */
  function ForwardSimulation(
    req: SimulateRequest, pool: Option<PoolRow>, data: PoolData, fees: FeeConfig, tonPool: Option<PoolRow>)
    : SimulationOutcome
  {
    match pool
    case None => SimulationOutcome(Err(PoolNotFound), req.slippageTolerance)
    case Some(p) =>
      var (inReserved, outReserved) := OrientReserves(p, data, req.offerAddress);
      if req.units > 0 && OutDenominator(req.units, inReserved, data.lpFee) == 0 then
        SimulationOutcome(Err(ZeroDivision), req.slippageTolerance)
      else if inReserved + req.units == 0 then
        SimulationOutcome(Err(ZeroDivision), req.slippageTolerance)
      else
        var q := CalculateOutAmount(req.referralAddress.Some?, req.units, inReserved, outReserved,
                                    data.lpFee, data.protocolFee, data.refFee);
        var impact := CalculatePriceImpact(req.units, inReserved);
        var slippage := req.slippageTolerance / 100.0;
        match CalculateFeeInNanotons(req.units, req.offerAddress, fees, tonPool)
        case Err(e) => SimulationOutcome(Err(e), slippage)
        case Ok(tonFee) =>
          SimulationOutcome(Ok(SwapSimulateResponse(
            askAddress := req.askAddress,
            askUnits := q.askUnits,
            feeAddress := req.askAddress,
            feePercent := FeePercent(q.protocolFeeUnits, q.refFeeUnits, q.askUnits),
            feeUnits := q.protocolFeeUnits + q.refFeeUnits,
            minAskUnits := MinAskUnits(q.askUnits, slippage),
            offerAddress := req.offerAddress,
            offerUnits := req.units,
            poolAddress := p.address,
            priceImpact := impact,
            routerAddress := p.routerAddress,
            slippageTolerance := slippage,
            swapRate := SwapRate(q.askUnits, req.units),
            tonFeeUnits := tonFee)), slippage)
  }

  /** A forward quote reports the output of `calculate_out_amount` on the oriented
      reserves, a slippage floor between zero and that output, the fee figures of the same
      quote, and the slippage tolerance as the fraction it leaves in the request. */
  lemma {:induction false} ForwardQuoteFigures(
    req: SimulateRequest, pool: Option<PoolRow>, data: PoolData, fees: FeeConfig, tonPool: Option<PoolRow>)
    requires 0.0 <= req.slippageTolerance <= 100.0
    ensures var outcome := ForwardSimulation(req, pool, data, fees, tonPool);
            outcome.response.Ok? ==>
              var r := outcome.response.value;
              var (inReserved, outReserved) := OrientReserves(pool.value, data, req.offerAddress);
              && pool.Some?
              && (req.units <= 0 || OutDenominator(req.units, inReserved, data.lpFee) != 0)
              && var q := CalculateOutAmount(req.referralAddress.Some?, req.units, inReserved, outReserved,
                                             data.lpFee, data.protocolFee, data.refFee);
              && r.askUnits == q.askUnits
              && r.feeUnits == q.protocolFeeUnits + q.refFeeUnits
              && (r.askUnits > 0 ==> 0 <= r.minAskUnits <= r.askUnits)
              && (r.askUnits <= 0 ==> r.minAskUnits == 0)
              && (req.units > 0 ==> r.swapRate == r.askUnits as real / req.units as real)
              && (r.askUnits > 0 ==> r.feePercent == r.feeUnits as real / r.askUnits as real)
              && r.offerUnits == req.units
              && r.slippageTolerance == outcome.slippageAfter == req.slippageTolerance / 100.0
              && r.poolAddress == pool.value.address && r.routerAddress == pool.value.routerAddress
              && r.askAddress == r.feeAddress == req.askAddress && r.offerAddress == req.offerAddress
              && r.priceImpact == CalculatePriceImpact(req.units, inReserved)
              && CalculateFeeInNanotons(req.units, req.offerAddress, fees, tonPool) == Ok(r.tonFeeUnits)
  {
    var outcome := ForwardSimulation(req, pool, data, fees, tonPool);
    if outcome.response.Ok? {
      var p := pool.value;
      var (inReserved, outReserved) := OrientReserves(p, data, req.offerAddress);
      var q := CalculateOutAmount(req.referralAddress.Some?, req.units, inReserved, outReserved,
                                  data.lpFee, data.protocolFee, data.refFee);
      var slippage := req.slippageTolerance / 100.0;
      var tonFee := CalculateFeeInNanotons(req.units, req.offerAddress, fees, tonPool);
      assert outcome == SimulationOutcome(Ok(SwapSimulateResponse(
        req.askAddress, q.askUnits, req.askAddress, FeePercent(q.protocolFeeUnits, q.refFeeUnits, q.askUnits),
        q.protocolFeeUnits + q.refFeeUnits, MinAskUnits(q.askUnits, slippage), req.offerAddress, req.units,
        p.address, CalculatePriceImpact(req.units, inReserved), p.routerAddress, slippage,
        SwapRate(q.askUnits, req.units), tonFee.value)), slippage);
    }
  }

  /** Without a pool nothing is quoted and the request is left as it was. */
  lemma ForwardWithoutPool(req: SimulateRequest, data: PoolData, fees: FeeConfig, tonPool: Option<PoolRow>)
    ensures ForwardSimulation(req, None, data, fees, tonPool) == SimulationOutcome(Err(PoolNotFound), req.slippageTolerance)
  {
  }

  // ---------------------------------------------------------------------------
  // Reverse simulation
  // ---------------------------------------------------------------------------

  /** The liquidity check of `simulate_swap_reverse` as written: it refuses only a
      request for more than the whole output reserve. */
  predicate ReverseGuardPasses(outReserved: int, units: int) {
    !(outReserved < units)
  }

  /** The reverse fee figure: the requested units times (100 + slippage fraction),
      divided by 10 000 times the fee rate (not multiplied by it). */
  function ReverseFeeUnits(minAskUnits: int, slippage: real, feeRate: int): (units: real)
    requires feeRate != 0
    ensures minAskUnits >= 0 && slippage >= -100.0 && feeRate > 0 ==> units >= 0.0
  {
    var n := minAskUnits as real * (100.0 + slippage);
    assert minAskUnits >= 0 && slippage >= -100.0 ==> n >= 0.0 by {
      if minAskUnits >= 0 && slippage >= -100.0 {
        NonNegativeProduct(minAskUnits as real, 100.0 + slippage);
      }
    }
    n / (10000 * feeRate) as real
  }

  /** The reverse fee percentage: the fee figures per requested unit, times
      (100 + slippage fraction); zero when no units are requested. */
  function ReverseFeePercent(protocolFeeUnits: real, refFeeUnits: real, minAskUnits: int, slippage: real): (percent: real)
    ensures minAskUnits <= 0 ==> percent == 0.0
    ensures minAskUnits > 0 ==> percent * minAskUnits as real == (protocolFeeUnits + refFeeUnits) * (100.0 + slippage)
  {
    if minAskUnits > 0 then
      var m := minAskUnits as real;
      var f := protocolFeeUnits + refFeeUnits;
      assert f / m * (100.0 + slippage) * m == f * (100.0 + slippage);
      f / m * (100.0 + slippage)
    else 0.0
  }

  /** `simulate_swap_reverse`: quote the input needed for `units` of the asked asset. */
  function ReverseSimulation(
    req: SimulateRequest, pool: Option<PoolRow>, data: PoolData, fees: FeeConfig, tonPool: Option<PoolRow>)
    : SimulationOutcome
  {
    match pool
    case None => SimulationOutcome(Err(PoolNotFound), req.slippageTolerance)
    case Some(p) =>
      var (inReserved, outReserved) := OrientReserves(p, data, req.offerAddress);
      if !ReverseGuardPasses(outReserved, req.units) then
        SimulationOutcome(Err(NotEnoughLiquidity), req.slippageTolerance)
      else if req.units > 0 && (outReserved - req.units) * (FeeDivider - data.lpFee) == 0 then
        SimulationOutcome(Err(ZeroDivision), req.slippageTolerance)
      else
        var offerUnits := CalculateInAmount(req.units, inReserved, outReserved, data.lpFee, req.slippageTolerance);
        if inReserved + offerUnits == 0 then SimulationOutcome(Err(ZeroDivision), req.slippageTolerance)
        else
          var impact := CalculatePriceImpact(offerUnits, inReserved);
          var slippage := req.slippageTolerance / 100.0;
          var minAskUnits := req.units;
          var hasRef := req.referralAddress.Some?;
          if data.protocolFee == 0 || (hasRef && data.refFee == 0) then
            SimulationOutcome(Err(ZeroDivision), slippage)
          else
            var protocolFeeUnits := ReverseFeeUnits(minAskUnits, slippage, data.protocolFee);
            var refFeeUnits := if hasRef then ReverseFeeUnits(minAskUnits, slippage, data.refFee) else 0.0;
            var feePercent := ReverseFeePercent(protocolFeeUnits, refFeeUnits, minAskUnits, slippage);
            match CalculateFeeInNanotons(offerUnits, req.offerAddress, fees, tonPool)
            case Err(e) => SimulationOutcome(Err(e), slippage)
            case Ok(tonFee) =>
              SimulationOutcome(Ok(SwapSimulateResponse(
                askAddress := req.askAddress,
                askUnits := minAskUnits,
                feeAddress := req.askAddress,
                feePercent := feePercent,
                feeUnits := Trunc(protocolFeeUnits + refFeeUnits),
                minAskUnits := minAskUnits,
                offerAddress := req.offerAddress,
                offerUnits := offerUnits,
                poolAddress := p.address,
                priceImpact := impact,
                routerAddress := p.routerAddress,
                slippageTolerance := slippage,
                swapRate := SwapRate(minAskUnits, offerUnits),
                tonFeeUnits := tonFee)), slippage)
  }

  /** The liquidity guard decides first, and it alone reports missing liquidity: the
      quote is refused with NotEnoughLiquidity exactly when the request exceeds the
      oriented output reserve, and then the request is left untouched whatever the fees
      and the fee pool. */
  lemma ReverseRefusesOverdraw(
    req: SimulateRequest, pool: PoolRow, data: PoolData, fees: FeeConfig, tonPool: Option<PoolRow>)
    ensures ReverseSimulation(req, Some(pool), data, fees, tonPool).response == Err(NotEnoughLiquidity)
        <==> OrientReserves(pool, data, req.offerAddress).1 < req.units
    ensures OrientReserves(pool, data, req.offerAddress).1 < req.units ==>
              ReverseSimulation(req, Some(pool), data, fees, tonPool)
              == SimulationOutcome(Err(NotEnoughLiquidity), req.slippageTolerance)
  {
  }

  /** Once the liquidity guard and both divisions of the quote pass, a zero protocol fee
      rate, or a zero referral fee rate on a referred request, raises ZeroDivisionError in
      the fee figures, after the slippage tolerance has been divided by 100. */
  lemma ReverseZeroFeeRateRaises(
    req: SimulateRequest, pool: PoolRow, data: PoolData, fees: FeeConfig, tonPool: Option<PoolRow>)
    requires var (inReserved, outReserved) := OrientReserves(pool, data, req.offerAddress);
             && req.units <= outReserved
             && (req.units <= 0 || (outReserved - req.units) * (FeeDivider - data.lpFee) != 0)
             && inReserved + CalculateInAmount(req.units, inReserved, outReserved, data.lpFee, req.slippageTolerance) != 0
    requires data.protocolFee == 0 || (req.referralAddress.Some? && data.refFee == 0)
    ensures ReverseSimulation(req, Some(pool), data, fees, tonPool)
         == SimulationOutcome(Err(ZeroDivision), req.slippageTolerance / 100.0)
  {
  }

  /** A reverse quote reports the requested units as both the output and its floor, the
      input `calculate_in_amount` asks for, and no referral fee without a referral; the
      input it reports, swapped forward with no protocol or referral fee, pays out at
      least the requested units. */
  lemma {:induction false} ReverseQuoteFigures(
    req: SimulateRequest, pool: Option<PoolRow>, data: PoolData, fees: FeeConfig, tonPool: Option<PoolRow>)
    requires 0.0 <= req.slippageTolerance
    requires pool.Some? ==> var (inR, outR) := OrientReserves(pool.value, data, req.offerAddress);
                            inR > 0 && outR > 0 && 0 <= data.lpFee < FeeDivider
    ensures var outcome' := ReverseSimulation(req, pool, data, fees, tonPool);
            outcome'.response.Ok? ==>
              var r := outcome'.response.value;
              var (inReserved, outReserved) := OrientReserves(pool.value, data, req.offerAddress);
              && pool.Some?
              && req.units <= outReserved
              && r.askUnits == r.minAskUnits == req.units
              && (req.units <= 0 || (outReserved - req.units) * (FeeDivider - data.lpFee) != 0)
              && r.offerUnits == CalculateInAmount(req.units, inReserved, outReserved, data.lpFee, req.slippageTolerance)
              && var slippage := req.slippageTolerance / 100.0;
              && data.protocolFee != 0
              && (req.referralAddress.Some? ==> data.refFee != 0)
              && var protocolFeeUnits := ReverseFeeUnits(req.units, slippage, data.protocolFee);
              && var refFeeUnits := if req.referralAddress.Some? then ReverseFeeUnits(req.units, slippage, data.refFee) else 0.0;
              && r.feeUnits == Trunc(protocolFeeUnits + refFeeUnits)
              && (req.referralAddress.None? ==> r.feeUnits == Trunc(protocolFeeUnits))
              && r.feePercent == ReverseFeePercent(protocolFeeUnits, refFeeUnits, req.units, slippage)
              && r.swapRate == SwapRate(req.units, r.offerUnits)
              && r.priceImpact == CalculatePriceImpact(r.offerUnits, inReserved)
              && CalculateFeeInNanotons(r.offerUnits, req.offerAddress, fees, tonPool) == Ok(r.tonFeeUnits)
              && r.askAddress == r.feeAddress == req.askAddress && r.offerAddress == req.offerAddress
              && r.poolAddress == pool.value.address && r.routerAddress == pool.value.routerAddress
              && r.slippageTolerance == outcome'.slippageAfter == slippage
              && (req.units > 0 ==>
                    && OutDenominator(r.offerUnits, inReserved, data.lpFee) > 0
                    && CalculateOutAmount(false, r.offerUnits, inReserved, outReserved, data.lpFee, 0, 0).askUnits >= req.units)
  {
    var outcome' := ReverseSimulation(req, pool, data, fees, tonPool);
    if outcome'.response.Ok? {
      var (inReserved, outReserved) := OrientReserves(pool.value, data, req.offerAddress);
      if req.units > 0 {
        assert req.units < outReserved;
        InAmountCoversOut(req.units, inReserved, outReserved, data.lpFee, req.slippageTolerance);
      }
    }
  }

  /** As written, the guard lets through a request for exactly the whole output reserve,
      and the quote then divides by zero instead of reporting missing liquidity. */
  lemma ReverseGuardAdmitsWholeReserve(
    req: SimulateRequest, pool: PoolRow, data: PoolData, fees: FeeConfig, tonPool: Option<PoolRow>)
    requires req.units > 0 && OrientReserves(pool, data, req.offerAddress).1 == req.units
    ensures ReverseGuardPasses(OrientReserves(pool, data, req.offerAddress).1, req.units)
    ensures ReverseSimulation(req, Some(pool), data, fees, tonPool)
         == SimulationOutcome(Err(ZeroDivision), req.slippageTolerance)
  {
  }

  /** The liquidity check as intended: a quote needs strictly less than the whole output
      reserve. */
  predicate SufficientLiquidity(outReserved: int, units: int) {
    units < outReserved
  }

  /** Every request the intended check lets through has a well-defined reverse quote,
      and a positive request whose pool has reserves on both sides gets an input that,
      swapped forward without protocol or referral fee, pays out at least what was asked. */
  lemma {:induction false} SufficientLiquidityQuotes(
    units: int, inReserved: int, outReserved: int, lpFee: int, slippage: real)
    requires SufficientLiquidity(outReserved, units) && 0 <= lpFee < FeeDivider
    ensures units <= 0 || (outReserved - units) * (FeeDivider - lpFee) > 0
    ensures units > 0 && inReserved > 0 && slippage >= 0.0 ==>
              var offer := CalculateInAmount(units, inReserved, outReserved, lpFee, slippage);
              && OutDenominator(offer, inReserved, lpFee) > 0
              && CalculateOutAmount(false, offer, inReserved, outReserved, lpFee, 0, 0).askUnits >= units
  {
    if units > 0 {
      assert (outReserved - units) * (FeeDivider - lpFee) > 0;
      if inReserved > 0 && slippage >= 0.0 {
        InAmountCoversOut(units, inReserved, outReserved, lpFee, slippage);
      }
    }
  }

  // ---------------------------------------------------------------------------
  // The request object the simulations mutate
  // ---------------------------------------------------------------------------

  /** The request of the quote endpoints; both simulations overwrite its slippage
      tolerance with a hundredth of it once the quote has been computed. */
  class SwapSimulateRequest {
    var offerAddress: Address
    var askAddress: Address
    var units: int
    var slippageTolerance: real
    var referralAddress: Option<Address>

    constructor (req: SimulateRequest)
      ensures Value() == req
    {
      offerAddress := req.offerAddress;
      askAddress := req.askAddress;
      units := req.units;
      slippageTolerance := req.slippageTolerance;
      referralAddress := req.referralAddress;
    }

    function Value(): SimulateRequest
      reads this
    {
      SimulateRequest(offerAddress, askAddress, units, slippageTolerance, referralAddress)
    }

    /** `simulate_swap` on this request. */
    method SimulateSwap(pool: Option<PoolRow>, data: PoolData, fees: FeeConfig, tonPool: Option<PoolRow>)
      returns (r: Result<SwapSimulateResponse>)
      modifies this
      ensures var outcome := ForwardSimulation(old(Value()), pool, data, fees, tonPool);
              r == outcome.response && Value() == old(Value()).(slippageTolerance := outcome.slippageAfter)
    {
      if pool.None? {
        return Err(PoolNotFound);
      }
      var p := pool.value;
      var inReserved, outReserved := OrientReserves(p, data, offerAddress).0, OrientReserves(p, data, offerAddress).1;
      if units > 0 && OutDenominator(units, inReserved, data.lpFee) == 0 {
        return Err(ZeroDivision);
      }
      var q := CalculateOutAmount(referralAddress.Some?, units, inReserved, outReserved,
                                  data.lpFee, data.protocolFee, data.refFee);
      if inReserved + units == 0 {
        return Err(ZeroDivision);
      }
      var priceImpact := CalculatePriceImpact(units, inReserved);
      slippageTolerance := slippageTolerance / 100.0;
      var minAskUnits := MinAskUnits(q.askUnits, slippageTolerance);
      var swapRate := SwapRate(q.askUnits, units);
      var feePercent := FeePercent(q.protocolFeeUnits, q.refFeeUnits, q.askUnits);
      var tonFee := CalculateFeeInNanotons(units, offerAddress, fees, tonPool);
      if tonFee.Err? {
        return Err(tonFee.error);
      }
      r := Ok(SwapSimulateResponse(
        askAddress := askAddress,
        askUnits := q.askUnits,
        feeAddress := askAddress,
        feePercent := feePercent,
        feeUnits := q.protocolFeeUnits + q.refFeeUnits,
        minAskUnits := minAskUnits,
        offerAddress := offerAddress,
        offerUnits := units,
        poolAddress := p.address,
        priceImpact := priceImpact,
        routerAddress := p.routerAddress,
        slippageTolerance := slippageTolerance,
        swapRate := swapRate,
        tonFeeUnits := tonFee.value));
    }

    /** `simulate_swap_reverse` on this request. */
    method SimulateSwapReverse(pool: Option<PoolRow>, data: PoolData, fees: FeeConfig, tonPool: Option<PoolRow>)
      returns (r: Result<SwapSimulateResponse>)
      modifies this
      ensures var outcome := ReverseSimulation(old(Value()), pool, data, fees, tonPool);
              r == outcome.response && Value() == old(Value()).(slippageTolerance := outcome.slippageAfter)
    {
      if pool.None? {
        return Err(PoolNotFound);
      }
      var p := pool.value;
      var inReserved, outReserved := OrientReserves(p, data, offerAddress).0, OrientReserves(p, data, offerAddress).1;
      if outReserved < units {
        return Err(NotEnoughLiquidity);
      }
      if units > 0 && (outReserved - units) * (FeeDivider - data.lpFee) == 0 {
        return Err(ZeroDivision);
      }
      var offerUnits := CalculateInAmount(units, inReserved, outReserved, data.lpFee, slippageTolerance);
      if inReserved + offerUnits == 0 {
        return Err(ZeroDivision);
      }
      var priceImpact := CalculatePriceImpact(offerUnits, inReserved);
      slippageTolerance := slippageTolerance / 100.0;
      var minAskUnits := units;
      var swapRate := SwapRate(minAskUnits, offerUnits);
      if data.protocolFee == 0 {
        return Err(ZeroDivision);
      }
      var protocolFeeUnits := ReverseFeeUnits(minAskUnits, slippageTolerance, data.protocolFee);
      var refFeeUnits := 0.0;
      if referralAddress.Some? {
        if data.refFee == 0 {
          return Err(ZeroDivision);
        }
        refFeeUnits := ReverseFeeUnits(minAskUnits, slippageTolerance, data.refFee);
      }
      var feePercent := ReverseFeePercent(protocolFeeUnits, refFeeUnits, minAskUnits, slippageTolerance);
      var tonFee := CalculateFeeInNanotons(offerUnits, offerAddress, fees, tonPool);
      if tonFee.Err? {
        return Err(tonFee.error);
      }
      r := Ok(SwapSimulateResponse(
        askAddress := askAddress,
        askUnits := minAskUnits,
        feeAddress := askAddress,
        feePercent := feePercent,
        feeUnits := Trunc(protocolFeeUnits + refFeeUnits),
        minAskUnits := minAskUnits,
        offerAddress := offerAddress,
        offerUnits := offerUnits,
        poolAddress := p.address,
        priceImpact := priceImpact,
        routerAddress := p.routerAddress,
        slippageTolerance := slippageTolerance,
        swapRate := swapRate,
        tonFeeUnits := tonFee.value));
    }
  }

  // ---------------------------------------------------------------------------
  // Swap transaction
  // ---------------------------------------------------------------------------

  /** The request of the swap endpoint. */
  datatype SwapRequest = SwapRequest(
    userWalletAddress: Address,
    offerJettonAddress: Address,
    offerAmount: int,
    askJettonAddress: Address,
    minAskAmount: int,
    forwardGasAmount: Option<int>,
    referralAddress: Option<Address>)

  /** A message of the transaction the wallet is asked to sign: the platform fee transfer,
      or the parameters handed to the router's swap builders (the cells they build are
      not part of this model). */
  datatype Message =
    | FeeMessage(to: Address, amount: int)
    | ProxyTonSwap(userWallet: Address, proxyTon: Address, askJetton: Address, offerAmount: int,
                   minAskAmount: int, forwardGasAmount: Option<int>, referral: Option<Address>, queryId: int)
    | JettonSwap(userWallet: Address, offerJetton: Address, askJetton: Address, offerAmount: int,
                 minAskAmount: int, forwardGasAmount: Option<int>, referral: Option<Address>, queryId: int)

  /** `swap`: the fee message followed by the swap message, valid for ten minutes from
      `now`. The query id is the one the transaction record was stored under. A TON offer
      goes through the proxy-TON router call; any other offer is a jetton swap, in which a
      TON ask is replaced by proxy TON. */
  function BuildSwapTransaction(
    req: SwapRequest, config: StonFiConfig, tonFeeAddress: Address, fees: FeeConfig, tonPool: Option<PoolRow>,
    now: real, queryId: int)
    : (tx: Result<TransactionData<Message>>)
    ensures tx.Ok? <==> CalculateFeeInNanotons(req.offerAmount, req.offerJettonAddress, fees, tonPool).Ok?
    ensures tx.Ok? ==>
      && |tx.value.messages| == 2
      && tx.value.messages[0] == FeeMessage(tonFeeAddress,
                                            CalculateFeeInNanotons(req.offerAmount, req.offerJettonAddress, fees, tonPool).value)
      && (req.offerJettonAddress == config.tonContractAddress <==> tx.value.messages[1].ProxyTonSwap?)
      && (tx.value.messages[1].JettonSwap? ==>
            tx.value.messages[1].askJetton ==
              (if req.askJettonAddress == config.tonContractAddress then config.proxyTonAddress else req.askJettonAddress))
      && tx.value.validUntil == ValidUntil(now)
  {
    match CalculateFeeInNanotons(req.offerAmount, req.offerJettonAddress, fees, tonPool)
    case Err(e) => Err(e)
    case Ok(feeNanotons) =>
      var feeMessage := FeeMessage(tonFeeAddress, feeNanotons);
      var swapMessage :=
        if req.offerJettonAddress == config.tonContractAddress then
          ProxyTonSwap(req.userWalletAddress, config.proxyTonAddress, req.askJettonAddress, req.offerAmount,
                       req.minAskAmount, req.forwardGasAmount, req.referralAddress, queryId)
        else
          var askJetton := if req.askJettonAddress == config.tonContractAddress then config.proxyTonAddress
                           else req.askJettonAddress;
          JettonSwap(req.userWalletAddress, req.offerJettonAddress, askJetton, req.offerAmount,
                     req.minAskAmount, req.forwardGasAmount, req.referralAddress, queryId);
      Ok(TransactionData(ValidUntil(now), [feeMessage, swapMessage]))
  }

  /** The swap message never names raw TON as the jetton to receive, and always carries
      the amounts and query id of the request. */
  lemma {:induction false} SwapNeverAsksRawTon(
    req: SwapRequest, config: StonFiConfig, tonFeeAddress: Address, fees: FeeConfig, tonPool: Option<PoolRow>,
    now: real, queryId: int)
    requires config.proxyTonAddress != config.tonContractAddress
    ensures var tx := BuildSwapTransaction(req, config, tonFeeAddress, fees, tonPool, now, queryId);
            tx.Ok? ==>
              var m := tx.value.messages[1];
              && (m.JettonSwap? ==> m.askJetton != config.tonContractAddress)
              && m.offerAmount == req.offerAmount && m.minAskAmount == req.minAskAmount && m.queryId == queryId
  {
    var tx := BuildSwapTransaction(req, config, tonFeeAddress, fees, tonPool, now, queryId);
    if tx.Ok? {
      var m := tx.value.messages[1];
      assert m.ProxyTonSwap? || m.JettonSwap?;
    }
  }
}

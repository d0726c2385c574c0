/** Constant-product pricing (src/dex/utils.py): the forward quote with its three
    fee layers, the reverse quote, price impact and the platform fee in nanotons.

    The source computes in floats and divides amounts and reserves by 1e9 before
    multiplying them, then multiplies the results back by 1e9. The model computes
    the exact values over `real`; `SourceBaseOut` and `SourceInRatio` keep the
    source's rescaled expressions, and `RescalingCancels` and `InRescalingCancels`
    prove that they are the exact values the model uses. */
module Pricing {
  import opened Common

  /** Fee rates are basis points out of this divider. */
  const FeeDivider: int := 10000

  /** The source divides amounts and reserves by this before multiplying them. */
  const Scale: real := 1000000000.0

  /** The triple returned by `calculate_out_amount`. */
  datatype OutQuote = OutQuote(askUnits: int, protocolFeeUnits: int, refFeeUnits: int)

  /** The fee rates a pool snapshot is assumed to carry (not checked by the source). */
  predicate ValidFees(lpFee: int, protocolFee: int, refFee: int) {
    0 <= lpFee < FeeDivider && 0 <= protocolFee && 0 <= refFee && protocolFee + refFee <= FeeDivider
  }

  /** The protocol fee rate that is charged: only a positive rate is applied. */
  function AppliedProtocolFee(protocolFee: int): int {
    if protocolFee > 0 then protocolFee else 0
  }

  /** The referral fee rate that is charged: only with a referral and a positive rate. */
  function AppliedRefFee(hasRef: bool, refFee: int): int {
    if hasRef && refFee > 0 then refFee else 0
  }

  // ---------------------------------------------------------------------------
  // Forward quote
  // ---------------------------------------------------------------------------

  /** `calculate_out_amount` divides by this (up to the 1e9 scale); for a positive input
      it must not be zero, or the source raises ZeroDivisionError. */
  function OutDenominator(amountIn: int, reserveIn: int, lpFee: int): int {
    reserveIn * FeeDivider + amountIn * (FeeDivider - lpFee)
  }

  /** The constant-product rule: an effective input u against input reserve c and
      output reserve ro pays out u * ro / (c + u). */
  function ConstantProduct(u: real, c: real, ro: real): real
    requires c + u != 0.0
  {
    u * ro / (c + u)
  }

  /** Exact gross output (before protocol and referral fees) for an input x: the LP
      fee is taken from the input, then the constant-product rule is applied, with
      the input reserve scaled by the fee divider. */
  function GrossOut(x: real, reserveIn: int, reserveOut: int, lpFee: int): real
    requires (reserveIn * FeeDivider) as real + x * (FeeDivider - lpFee) as real != 0.0
  {
    ConstantProduct(x * (FeeDivider - lpFee) as real, (reserveIn * FeeDivider) as real, reserveOut as real)
  }

  /** The source's `base_out`, with its 1e9 rescaling. */
  function SourceBaseOut(amountIn: int, reserveIn: int, reserveOut: int, lpFee: int): real
    requires OutDenominator(amountIn, reserveIn, lpFee) != 0
  {
    var amountInWithFee := amountIn as real / Scale * (FeeDivider - lpFee) as real;
    RescaledDenominator(amountIn as real, (FeeDivider - lpFee) as real, reserveIn as real, FeeDivider as real, Scale);
    (amountInWithFee * reserveOut as real / Scale)
      / (reserveIn as real / Scale * FeeDivider as real + amountInWithFee)
  }

  /** The part of g a fee rate in basis points takes. */
  function FeePart(g: real, rate: int): real {
    g * rate as real / FeeDivider as real
  }

  /** The fee split of `calculate_out_amount` on a gross output g (already scaled back
      by 1e9): the protocol part and the referral part are taken from g, and the three
      parts are truncated separately. */
  function SplitFees(g: real, hasRef: bool, protocolFee: int, refFee: int): OutQuote {
    var protocolFeeOut := if protocolFee > 0 then FeePart(g, protocolFee) else 0.0;
    var refFeeOut := if hasRef && refFee > 0 then FeePart(g, refFee) else 0.0;
    OutQuote(Trunc(g - (protocolFeeOut + refFeeOut)), Trunc(protocolFeeOut), Trunc(refFeeOut))
  }

  /** `calculate_out_amount`: the net output, the protocol fee and the referral fee for
      a positive input, all zero otherwise. */
  function CalculateOutAmount(
    hasRef: bool, amountIn: int, reserveIn: int, reserveOut: int,
    lpFee: int, protocolFee: int, refFee: int): (q: OutQuote)
    requires amountIn <= 0 || OutDenominator(amountIn, reserveIn, lpFee) != 0
    ensures amountIn <= 0 ==> q == OutQuote(0, 0, 0)
    ensures protocolFee <= 0 ==> q.protocolFeeUnits == 0
    ensures !(hasRef && refFee > 0) ==> q.refFeeUnits == 0
  {
    if amountIn <= 0 then OutQuote(0, 0, 0)
    else
      assert (reserveIn * FeeDivider) as real + amountIn as real * (FeeDivider - lpFee) as real
        == OutDenominator(amountIn, reserveIn, lpFee) as real;
      SplitFees(GrossOut(amountIn as real, reserveIn, reserveOut, lpFee), hasRef, protocolFee, refFee)
  }

  lemma RescaledDenominator(a: real, k: real, ri: real, f: real, s: real)
    requires s > 0.0 && ri * f + a * k != 0.0
    ensures ri / s * f + a / s * k == (ri * f + a * k) / s
    ensures ri / s * f + a / s * k != 0.0
  {
  }

  lemma CancelScale(a: real, k: real, ro: real, ri: real, f: real, s: real)
    requires s > 0.0 && ri * f + a * k != 0.0
    ensures ri / s * f + a / s * k != 0.0
    ensures (a / s * k * ro / s) / (ri / s * f + a / s * k) * s == a * k * ro / (ri * f + a * k)
  {
    RescaledDenominator(a, k, ri, f, s);
    var d := ri * f + a * k;
    assert a / s * k * ro / s == (a * k * ro) / (s * s);
    assert ((a * k * ro) / (s * s)) / (d / s) == (a * k * ro) / (s * d);
  }

  lemma ScaleFeePart(b: real, p: real, f: real, s: real)
    requires f != 0.0
    ensures (b * p / f) * s == (b * s) * p / f
  {
  }

  /** The 1e9 rescaling cancels: the source's `base_out`, and each fee part taken from
      it, multiplied back by 1e9 as the source does before truncating, are exactly the
      gross output and fee parts `CalculateOutAmount` truncates. */
  lemma RescalingCancels(amountIn: int, reserveIn: int, reserveOut: int, lpFee: int, rate: int)
    requires OutDenominator(amountIn, reserveIn, lpFee) != 0
    ensures (reserveIn * FeeDivider) as real + amountIn as real * (FeeDivider - lpFee) as real != 0.0
    ensures SourceBaseOut(amountIn, reserveIn, reserveOut, lpFee) * Scale
         == GrossOut(amountIn as real, reserveIn, reserveOut, lpFee)
    ensures (SourceBaseOut(amountIn, reserveIn, reserveOut, lpFee) * rate as real / FeeDivider as real) * Scale
         == GrossOut(amountIn as real, reserveIn, reserveOut, lpFee) * rate as real / FeeDivider as real
  {
    var a, k, ri, f := amountIn as real, (FeeDivider - lpFee) as real, reserveIn as real, FeeDivider as real;
    assert ri * f + a * k == OutDenominator(amountIn, reserveIn, lpFee) as real;
    assert (reserveIn * FeeDivider) as real == ri * f;
    CancelScale(a, k, reserveOut as real, ri, f, Scale);
    ScaleFeePart(SourceBaseOut(amountIn, reserveIn, reserveOut, lpFee), rate as real, f, Scale);
  }

  /** u * ro / (c + u) lies in [0, ro], and below ro when c > 0 and ro > 0. */
  lemma ConstantProductBounds(u: real, c: real, ro: real)
    requires u > 0.0 && c >= 0.0 && ro >= 0.0
    ensures 0.0 <= ConstantProduct(u, c, ro) <= ro
    ensures c > 0.0 && ro > 0.0 ==> ConstantProduct(u, c, ro) < ro
  {
    assert c + u > 0.0;
    NonNegativeProduct(ro, c);
    assert ro * (c + u) == ro * c + u * ro;
    QuotientAtMost(u * ro, c + u, ro);
    NonNegativeProduct(u, ro);
    NonNegativeQuotient(u * ro, c + u);
    if c > 0.0 && ro > 0.0 {
      PositiveProduct(ro, c);
      var d := c + u;
      assert u * ro < ro * d;
      QuotientBelow(u * ro, d, ro);
    }
  }

  /** u * ro / (c + u) does not decrease in u, and strictly increases when c > 0 and ro > 0. */
  lemma ConstantProductMonotone(u: real, v: real, c: real, ro: real)
    requires 0.0 < u <= v && c >= 0.0 && ro >= 0.0
    ensures ConstantProduct(u, c, ro) <= ConstantProduct(v, c, ro)
    ensures u < v && c > 0.0 && ro > 0.0 ==> ConstantProduct(u, c, ro) < ConstantProduct(v, c, ro)
  {
    CrossDifference(u, v, c, ro);
    NonNegativeProduct(ro, c);
    NonPositiveProduct(u - v, ro * c);
    DivMonotone(u * ro, c + u, v * ro, c + v);
    if u < v && c > 0.0 && ro > 0.0 {
      PositiveProduct(ro, c);
      PositiveProduct(v - u, ro * c);
      StrictDivMonotone(u * ro, c + u, v * ro, c + v);
    }
  }

  /** The cross products of two constant-product quotients differ by (u - v) * ro * c. */
  lemma CrossDifference(u: real, v: real, c: real, ro: real)
    ensures u * ro * (c + v) - v * ro * (c + u) == (u - v) * (ro * c)
  {
    var p, q := u * ro, v * ro;
    assert p * (c + v) == p * c + p * v;
    assert q * (c + u) == q * c + q * u;
    assert p * v == q * u;
    assert p * c - q * c == (u - v) * (ro * c);
  }

  lemma QuotientAtMost(n: real, d: real, m: real)
    requires d > 0.0 && n <= m * d
    ensures n / d <= m
  {
    assert n / d * d == n;
  }

  lemma NonNegativeQuotient(n: real, d: real)
    requires d > 0.0 && n >= 0.0
    ensures n / d >= 0.0
  {
  }

  lemma QuotientBelow(n: real, d: real, m: real)
    requires d > 0.0 && n < m * d
    ensures n / d < m
  {
    assert n / d * d == n;
  }

  lemma PositiveProduct(a: real, b: real)
    requires a > 0.0 && b > 0.0
    ensures a * b > 0.0
  {
  }

  lemma NonNegativeProduct(a: real, b: real)
    requires a >= 0.0 && b >= 0.0
    ensures a * b >= 0.0
  {
  }

  lemma NonPositiveProduct(a: real, b: real)
    requires a <= 0.0 && b >= 0.0
    ensures a * b <= 0.0
  {
  }

  /** a/b <= c/d for positive denominators follows from the cross-multiplied inequality. */
  lemma DivMonotone(a: real, b: real, c: real, d: real)
    requires b > 0.0 && d > 0.0 && a * d <= c * b
    ensures a / b <= c / d
  {
    assert a / b == (a * d) / (b * d);
    assert c / d == (c * b) / (b * d);
  }

  lemma StrictDivMonotone(a: real, b: real, c: real, d: real)
    requires b > 0.0 && d > 0.0 && a * d < c * b
    ensures a / b < c / d
  {
    assert a / b == (a * d) / (b * d);
    assert c / d == (c * b) / (b * d);
  }

  /** The exact gross output of a positive input lies in [0, reserveOut], below a positive
      output reserve when the input reserve is positive. */
  lemma GrossOutBounds(x: real, reserveIn: int, reserveOut: int, lpFee: int)
    requires x > 0.0 && reserveIn >= 0 && reserveOut >= 0 && 0 <= lpFee < FeeDivider
    ensures (reserveIn * FeeDivider) as real + x * (FeeDivider - lpFee) as real > 0.0
    ensures 0.0 <= GrossOut(x, reserveIn, reserveOut, lpFee) <= reserveOut as real
    ensures reserveIn > 0 && reserveOut > 0 ==> GrossOut(x, reserveIn, reserveOut, lpFee) < reserveOut as real
  {
    assert x * (FeeDivider - lpFee) as real > 0.0;
    ConstantProductBounds(x * (FeeDivider - lpFee) as real, (reserveIn * FeeDivider) as real, reserveOut as real);
  }

  /** The exact gross output grows with the input, strictly when both reserves are positive. */
  lemma GrossOutMonotone(x: real, y: real, reserveIn: int, reserveOut: int, lpFee: int)
    requires 0.0 < x <= y && reserveIn >= 0 && reserveOut >= 0 && 0 <= lpFee < FeeDivider
    ensures (reserveIn * FeeDivider) as real + x * (FeeDivider - lpFee) as real > 0.0
    ensures (reserveIn * FeeDivider) as real + y * (FeeDivider - lpFee) as real > 0.0
    ensures GrossOut(x, reserveIn, reserveOut, lpFee) <= GrossOut(y, reserveIn, reserveOut, lpFee)
    ensures x < y && reserveIn > 0 && reserveOut > 0 ==>
              GrossOut(x, reserveIn, reserveOut, lpFee) < GrossOut(y, reserveIn, reserveOut, lpFee)
  {
    var k := (FeeDivider - lpFee) as real;
    ScalePositive(x, y, k);
    ConstantProductMonotone(x * k, y * k, (reserveIn * FeeDivider) as real, reserveOut as real);
  }

  /** Scaling by a positive factor keeps positivity and order. */
  lemma ScalePositive(x: real, y: real, k: real)
    requires 0.0 < x <= y && k > 0.0
    ensures 0.0 < x * k <= y * k
    ensures x < y ==> x * k < y * k
  {
    PositiveProduct(x, k);
    NonNegativeProduct(y - x, k);
    assert y * k - x * k == (y - x) * k;
    if x < y {
      PositiveProduct(y - x, k);
    }
  }

  /** Splitting g >= 0 into the protocol part, the referral part and the rest gives three
      non-negative parts, the rest being the part left after both rates. */
  lemma FeeSplit(g: real, p: int, r: int)
    requires g >= 0.0 && 0 <= p && 0 <= r && p + r <= FeeDivider
    ensures 0.0 <= FeePart(g, p) && 0.0 <= FeePart(g, r)
    ensures g - (FeePart(g, p) + FeePart(g, r)) == FeePart(g, FeeDivider - p - r)
    ensures 0.0 <= FeePart(g, FeeDivider - p - r)
  {
    var f, pr, rr := FeeDivider as real, p as real, r as real;
    var rest := f - pr - rr;
    assert (FeeDivider - p - r) as real == rest;
    assert f == pr + rr + rest;
    Distribute(g, pr, rr, rest);
    NonNegativeProduct(g, pr);
    NonNegativeProduct(g, rr);
    NonNegativeProduct(g, rest);
  }

  /** g * (p + r + q) / f splits into the three parts. */
  lemma Distribute(g: real, p: real, r: real, q: real)
    ensures g * (p + r + q) / FeeDivider as real
            == g * p / FeeDivider as real + g * r / FeeDivider as real + g * q / FeeDivider as real
  {
  }

  /** A larger gross output leaves a larger part for the same rate. */
  lemma FeePartMonotone(g: real, g': real, rate: int)
    requires g <= g' && rate >= 0
    ensures FeePart(g, rate) <= FeePart(g', rate)
  {
    assert g * rate as real <= g' * rate as real;
  }

  /** Three separately truncated non-negative parts add up to at most their sum, and
      lose less than three units. */
  lemma TruncSum(a: real, b: real, c: real)
    requires a >= 0.0 && b >= 0.0 && c >= 0.0
    ensures Trunc(a) + Trunc(b) + Trunc(c) <= (a + b + c).Floor
    ensures a + b + c - 3.0 < (Trunc(a) + Trunc(b) + Trunc(c)) as real
  {
  }

  /** The fee split of a non-negative gross output: the three parts are non-negative,
      never add up to more than the gross output, lose less than three base units to
      truncation, and the net part is what is left after the applied protocol and
      referral rates. */
  lemma {:induction false} SplitFeesBounded(g: real, hasRef: bool, protocolFee: int, refFee: int)
    requires g >= 0.0 && 0 <= protocolFee && 0 <= refFee && protocolFee + refFee <= FeeDivider
    ensures var q := SplitFees(g, hasRef, protocolFee, refFee);
            var p, r := AppliedProtocolFee(protocolFee), AppliedRefFee(hasRef, refFee);
            && 0 <= q.askUnits && 0 <= q.protocolFeeUnits && 0 <= q.refFeeUnits
            && q.askUnits + q.protocolFeeUnits + q.refFeeUnits <= g.Floor
            && g - 3.0 < (q.askUnits + q.protocolFeeUnits + q.refFeeUnits) as real
            && q.askUnits == Trunc(FeePart(g, FeeDivider - p - r))
  {
    var p, r := AppliedProtocolFee(protocolFee), AppliedRefFee(hasRef, refFee);
    var pOut, rOut := FeePart(g, p), FeePart(g, r);
    assert FeePart(g, 0) == 0.0;
    assert SplitFees(g, hasRef, protocolFee, refFee) == OutQuote(Trunc(g - (pOut + rOut)), Trunc(pOut), Trunc(rOut));
    FeeSplit(g, p, r);
    TruncSum(g - (pOut + rOut), pOut, rOut);
  }

  /** The three parts of a forward quote are non-negative, never add up to more than the
      gross output, and truncating them separately loses less than three base units. */
  lemma {:induction false} OutAmountPartsBounded(
    hasRef: bool, amountIn: int, reserveIn: int, reserveOut: int,
    lpFee: int, protocolFee: int, refFee: int)
    requires amountIn > 0 && reserveIn >= 0 && reserveOut >= 0 && ValidFees(lpFee, protocolFee, refFee)
    ensures OutDenominator(amountIn, reserveIn, lpFee) > 0
    ensures (reserveIn * FeeDivider) as real + amountIn as real * (FeeDivider - lpFee) as real > 0.0
    ensures var g := GrossOut(amountIn as real, reserveIn, reserveOut, lpFee);
            var q := CalculateOutAmount(hasRef, amountIn, reserveIn, reserveOut, lpFee, protocolFee, refFee);
            && 0 <= q.askUnits && 0 <= q.protocolFeeUnits && 0 <= q.refFeeUnits
            && q.askUnits + q.protocolFeeUnits + q.refFeeUnits <= g.Floor
            && g - 3.0 < (q.askUnits + q.protocolFeeUnits + q.refFeeUnits) as real
  {
    PositiveInputDenominator(amountIn, reserveIn, lpFee);
    GrossOutBounds(amountIn as real, reserveIn, reserveOut, lpFee);
    SplitFeesBounded(GrossOut(amountIn as real, reserveIn, reserveOut, lpFee), hasRef, protocolFee, refFee);
  }

  /** With positive reserves, the net output is strictly below the output reserve:
      a swap can never drain the pool. */
  lemma {:induction false} OutAmountBelowReserve(
    hasRef: bool, amountIn: int, reserveIn: int, reserveOut: int,
    lpFee: int, protocolFee: int, refFee: int)
    requires reserveIn > 0 && reserveOut > 0 && ValidFees(lpFee, protocolFee, refFee)
    ensures amountIn <= 0 || OutDenominator(amountIn, reserveIn, lpFee) != 0
    ensures var q := CalculateOutAmount(hasRef, amountIn, reserveIn, reserveOut, lpFee, protocolFee, refFee);
            0 <= q.askUnits < reserveOut
  {
    if amountIn > 0 {
      OutAmountPartsBounded(hasRef, amountIn, reserveIn, reserveOut, lpFee, protocolFee, refFee);
      GrossOutBounds(amountIn as real, reserveIn, reserveOut, lpFee);
    }
  }

  /** The net output of the forward quote never decreases when the input grows. */
  lemma {:induction false} OutAmountMonotone(
    hasRef: bool, amountIn: int, amountIn': int, reserveIn: int, reserveOut: int,
    lpFee: int, protocolFee: int, refFee: int)
    requires amountIn <= amountIn' && reserveIn >= 0 && reserveOut >= 0 && ValidFees(lpFee, protocolFee, refFee)
    ensures amountIn <= 0 || OutDenominator(amountIn, reserveIn, lpFee) > 0
    ensures amountIn' <= 0 || OutDenominator(amountIn', reserveIn, lpFee) > 0
    ensures CalculateOutAmount(hasRef, amountIn, reserveIn, reserveOut, lpFee, protocolFee, refFee).askUnits
         <= CalculateOutAmount(hasRef, amountIn', reserveIn, reserveOut, lpFee, protocolFee, refFee).askUnits
  {
    if amountIn > 0 {
      PositiveInputDenominator(amountIn, reserveIn, lpFee);
      PositiveInputDenominator(amountIn', reserveIn, lpFee);
      GrossOutMonotone(amountIn as real, amountIn' as real, reserveIn, reserveOut, lpFee);
      GrossOutBounds(amountIn as real, reserveIn, reserveOut, lpFee);
      var g := GrossOut(amountIn as real, reserveIn, reserveOut, lpFee);
      var g' := GrossOut(amountIn' as real, reserveIn, reserveOut, lpFee);
      SplitFeesMonotone(g, g', hasRef, protocolFee, refFee);
    } else if amountIn' > 0 {
      OutAmountPartsBounded(hasRef, amountIn', reserveIn, reserveOut, lpFee, protocolFee, refFee);
    }
  }

  lemma PositiveInputDenominator(amountIn: int, reserveIn: int, lpFee: int)
    requires amountIn > 0 && reserveIn >= 0 && 0 <= lpFee < FeeDivider
    ensures OutDenominator(amountIn, reserveIn, lpFee) > 0
    ensures (reserveIn * FeeDivider) as real + amountIn as real * (FeeDivider - lpFee) as real > 0.0
  {
    assert amountIn * (FeeDivider - lpFee) > 0;
  }

  /** The net part of the fee split grows with the gross output. */
  lemma {:induction false} SplitFeesMonotone(g: real, g': real, hasRef: bool, protocolFee: int, refFee: int)
    requires 0.0 <= g <= g' && 0 <= protocolFee && 0 <= refFee && protocolFee + refFee <= FeeDivider
    ensures SplitFees(g, hasRef, protocolFee, refFee).askUnits <= SplitFees(g', hasRef, protocolFee, refFee).askUnits
  {
    SplitFeesBounded(g, hasRef, protocolFee, refFee);
    SplitFeesBounded(g', hasRef, protocolFee, refFee);
    var rest := FeeDivider - AppliedProtocolFee(protocolFee) - AppliedRefFee(hasRef, refFee);
    FeePartMonotone(g, g', rest);
    TruncMonotone(FeePart(g, rest), FeePart(g', rest));
  }

  // ---------------------------------------------------------------------------
  // Reverse quote
  // ---------------------------------------------------------------------------

  /** The source's `numerator / denominator` in `calculate_in_amount`, with its 1e9 rescaling. */
  function SourceInRatio(amountOut: int, reserveIn: int, reserveOut: int, lpFee: int): real
    requires (reserveOut - amountOut) * (FeeDivider - lpFee) != 0
  {
    var numerator := ((reserveIn as real / Scale) * (amountOut as real / Scale)) * 10000.0 * Scale;
    var denominator := (reserveOut - amountOut) as real / Scale * (10000 - lpFee) as real;
    assert denominator == ((reserveOut - amountOut) * (FeeDivider - lpFee)) as real / Scale;
    numerator / denominator
  }

  /** The exact input, before the safety margin, that the constant-product rule needs to
      pay out `amountOut`. */
  function InRatio(amountOut: int, reserveIn: int, reserveOut: int, lpFee: int): real
    requires (reserveOut - amountOut) * (FeeDivider - lpFee) != 0
  {
    (reserveIn * amountOut * FeeDivider) as real / ((reserveOut - amountOut) * (FeeDivider - lpFee)) as real
  }

  /** The 1e9 rescaling of `calculate_in_amount` cancels: its ratio is exactly `InRatio`. */
  lemma InRescalingCancels(amountOut: int, reserveIn: int, reserveOut: int, lpFee: int)
    requires (reserveOut - amountOut) * (FeeDivider - lpFee) != 0
    ensures SourceInRatio(amountOut, reserveIn, reserveOut, lpFee) == InRatio(amountOut, reserveIn, reserveOut, lpFee)
  {
    var ri, ao := reserveIn as real, amountOut as real;
    var d := ((reserveOut - amountOut) * (FeeDivider - lpFee)) as real;
    assert ((ri / Scale) * (ao / Scale)) * 10000.0 * Scale == (ri * ao * 10000.0) / Scale;
    assert ((ri * ao * 10000.0) / Scale) / (d / Scale) == (ri * ao * 10000.0) / d;
  }

  /** `calculate_in_amount`: the input needed for `amountOut`, plus one unit, inflated by a
      20 basis-point margin and the slippage tolerance (a percentage), floored. The source
      accepts `has_ref`, `protocol_fee` and `ref_fee` but never reads them, so they are not
      parameters here. */
  function CalculateInAmount(amountOut: int, reserveIn: int, reserveOut: int, lpFee: int, slippageTolerance: real)
    : (amountIn: int)
    requires amountOut <= 0 || (reserveOut - amountOut) * (FeeDivider - lpFee) != 0
    ensures amountOut <= 0 ==> amountIn == 0
  {
    if amountOut <= 0 then 0
    else
      var amountIn := InRatio(amountOut, reserveIn, reserveOut, lpFee) + 1.0;
      ((amountIn * (10020.0 + slippageTolerance * 100.0)) / 10000.0).Floor
  }

  /** The exact input `InRatio` pays out exactly `amountOut` under the constant-product rule. */
  lemma InRatioIsExact(amountOut: int, reserveIn: int, reserveOut: int, lpFee: int)
    requires 0 < amountOut < reserveOut && reserveIn > 0 && 0 <= lpFee < FeeDivider
    ensures (reserveOut - amountOut) * (FeeDivider - lpFee) > 0
    ensures InRatio(amountOut, reserveIn, reserveOut, lpFee) > 0.0
    ensures (reserveIn * FeeDivider) as real + InRatio(amountOut, reserveIn, reserveOut, lpFee) * (FeeDivider - lpFee) as real > 0.0
    ensures GrossOut(InRatio(amountOut, reserveIn, reserveOut, lpFee), reserveIn, reserveOut, lpFee) == amountOut as real
  {
    var eInt, kInt, cInt := reserveOut - amountOut, FeeDivider - lpFee, reserveIn * FeeDivider;
    var e, k, c, ao := eInt as real, kInt as real, cInt as real, amountOut as real;
    PositiveIntProduct(eInt, kInt);
    CastProduct(eInt, kInt);
    assert reserveIn * amountOut * FeeDivider == cInt * amountOut;
    CastProduct(cInt, amountOut);
    var x := InRatio(amountOut, reserveIn, reserveOut, lpFee);
    assert x == c * ao / (e * k);
    PositiveProduct(c, ao);
    DivideTwice(c * ao, e, k);
    ExactPayout(x * k, c, reserveOut as real, ao);
  }

  lemma PositiveIntProduct(i: int, j: int)
    requires i > 0 && j > 0
    ensures i * j > 0
  {
  }

  lemma CastProduct(i: int, j: int)
    ensures (i * j) as real == i as real * j as real
  {
  }

  /** n / (e k) is positive and n / (e k) * k == n / e, for n, e, k > 0. */
  lemma DivideTwice(n: real, e: real, k: real)
    requires n > 0.0 && e > 0.0 && k > 0.0
    ensures n / (e * k) > 0.0 && n / (e * k) * k == n / e
  {
    PositiveProduct(e, k);
  }

  lemma ExactPayout(u: real, c: real, ro: real, ao: real)
    requires 0.0 < ao < ro && c > 0.0 && u == c * ao / (ro - ao)
    ensures c + u > 0.0
    ensures ConstantProduct(u, c, ro) == ao
  {
    assert u * (ro - ao) == c * ao;
    assert u * ro == ao * (c + u);
  }

  /** The reverse quote over-delivers: with a non-negative slippage tolerance, feeding the
      input `calculate_in_amount` asks for back into the exact gross output of the forward
      formula pays out more than the desired amount; with no protocol or referral fee the
      forward quote itself delivers at least that amount. */
  lemma {:induction false} InAmountCoversOut(
    amountOut: int, reserveIn: int, reserveOut: int, lpFee: int, slippageTolerance: real)
    requires 0 < amountOut < reserveOut && reserveIn > 0 && 0 <= lpFee < FeeDivider && slippageTolerance >= 0.0
    ensures (reserveOut - amountOut) * (FeeDivider - lpFee) != 0
    ensures var amountIn := CalculateInAmount(amountOut, reserveIn, reserveOut, lpFee, slippageTolerance);
            && amountIn > 0
            && OutDenominator(amountIn, reserveIn, lpFee) > 0
            && (reserveIn * FeeDivider) as real + amountIn as real * (FeeDivider - lpFee) as real > 0.0
            && GrossOut(amountIn as real, reserveIn, reserveOut, lpFee) > amountOut as real
            && CalculateOutAmount(false, amountIn, reserveIn, reserveOut, lpFee, 0, 0).askUnits >= amountOut
  {
    InRatioIsExact(amountOut, reserveIn, reserveOut, lpFee);
    var x := InRatio(amountOut, reserveIn, reserveOut, lpFee);
    var amountIn := CalculateInAmount(amountOut, reserveIn, reserveOut, lpFee, slippageTolerance);
    MarginExceeds(x, slippageTolerance);
    assert amountIn as real > x;
    PositiveIntProduct(amountIn, FeeDivider - lpFee);
    CastProduct(amountIn, FeeDivider - lpFee);
    CastProduct(reserveIn, FeeDivider);
    GrossOutMonotone(x, amountIn as real, reserveIn, reserveOut, lpFee);
    var g := GrossOut(amountIn as real, reserveIn, reserveOut, lpFee);
    assert CalculateOutAmount(false, amountIn, reserveIn, reserveOut, lpFee, 0, 0)
        == SplitFees(g, false, 0, 0);
  }

  /** floor((x + 1) * (10020 + 100 s) / 10000) > x for x >= 0 and s >= 0. */
  lemma MarginExceeds(x: real, s: real)
    requires x >= 0.0 && s >= 0.0
    ensures (((x + 1.0) * (10020.0 + s * 100.0)) / 10000.0).Floor as real > x
  {
    var y := ((x + 1.0) * (10020.0 + s * 100.0)) / 10000.0;
    assert (x + 1.0) * (10020.0 + s * 100.0) >= (x + 1.0) * 10000.0;
    assert y >= x + 1.0;
  }

  // ---------------------------------------------------------------------------
  // Price impact
  // ---------------------------------------------------------------------------

  /** `calculate_price_impact`: the share, in percent, that `amount` takes of the reserve
      after it is added. */
  function CalculatePriceImpact(amount: int, reserved: int): (impact: real)
    requires reserved + amount != 0
    ensures amount == 0 ==> impact == 0.0
    ensures reserved > 0 && amount >= 0 ==> 0.0 <= impact < 100.0
    ensures reserved > 0 && amount >= 0 ==> 100.0 - impact == 100.0 * reserved as real / (reserved + amount) as real
  {
    if reserved > 0 && amount >= 0 then
      ShareOfTotal(amount as real, reserved as real);
      amount as real / (reserved + amount) as real * 100.0
    else amount as real / (reserved + amount) as real * 100.0
  }

  lemma ShareOfTotal(a: real, r: real)
    requires a >= 0.0 && r > 0.0
    ensures 0.0 <= a / (r + a) * 100.0 < 100.0
    ensures 100.0 - a / (r + a) * 100.0 == 100.0 * r / (r + a)
  {
    var d := r + a;
    assert a / d + r / d == 1.0 by {
      assert a / d + r / d == (a + r) / d;
    }
    assert r / d > 0.0;
    assert 100.0 * r / d == r / d * 100.0;
  }

  /** Price impact grows with the amount, strictly. */
  lemma PriceImpactMonotone(amount: int, amount': int, reserved: int)
    requires reserved > 0 && 0 <= amount < amount'
    ensures CalculatePriceImpact(amount, reserved) < CalculatePriceImpact(amount', reserved)
  {
    var r := reserved as real;
    var a, b := amount as real, amount' as real;
    assert 100.0 * r / (r + a) > 100.0 * r / (r + b) by {
      assert (100.0 * r) * (r + a) < (100.0 * r) * (r + b);
      StrictDivMonotone(100.0 * r, r + b, 100.0 * r, r + a);
    }
  }

  // ---------------------------------------------------------------------------
  // Platform fee in nanotons
  // ---------------------------------------------------------------------------

  /** The configuration entries the fee conversion reads. */
  datatype FeeConfig = FeeConfig(
    feePercent: real,               // config.swap.fee_percent
    tonContractAddress: Address,    // config.ton.ton_contract_address
    proxyTonAddress: Address)       // config.ston_fi.proxy_ton_address

  /** `calculate_asset_ton_rate`: TON per unit of the offered asset in the offer/TON pool
      found by the caller (`None` when the lookup found no pool). */
  function CalculateAssetTonRate(offerAddress: Address, tonPool: Option<PoolRow>): (rate: Result<real>)
    ensures tonPool.None? ==> rate == Err(PoolNotFound)
    ensures tonPool.Some? ==> rate.Err? ==> rate == Err(ZeroDivision)
    ensures rate.Ok? ==> (tonPool.Some? &&
      if offerAddress == tonPool.value.token0Address
       then tonPool.value.reserve0 != 0 && rate.value * tonPool.value.reserve0 as real == tonPool.value.reserve1 as real
       else tonPool.value.reserve1 != 0 && rate.value * tonPool.value.reserve1 as real == tonPool.value.reserve0 as real)
  {
    match tonPool
    case None => Err(PoolNotFound)
    case Some(pool) =>
      var (offerAssetReserve, tonReserve) :=
        if offerAddress == pool.token0Address then (pool.reserve0, pool.reserve1) else (pool.reserve1, pool.reserve0);
      if offerAssetReserve == 0 then Err(ZeroDivision)
      else Ok(tonReserve as real / offerAssetReserve as real)
  }

  /** The offered asset is TON itself or its proxy-TON wrapper. */
  predicate IsTon(offerAddress: Address, config: FeeConfig) {
    offerAddress in {config.tonContractAddress, config.proxyTonAddress}
  }

  /** `calculate_fee_in_nanotons`: the platform fee, `fee_percent` percent of the offered
      amount valued in TON, truncated. */
  function CalculateFeeInNanotons(offerAmount: int, offerAddress: Address, config: FeeConfig, tonPool: Option<PoolRow>)
    : (fee: Result<int>)
    ensures IsTon(offerAddress, config) ==> fee.Ok?
    ensures !IsTon(offerAddress, config) ==> (fee.Ok? <==> CalculateAssetTonRate(offerAddress, tonPool).Ok?)
    ensures !IsTon(offerAddress, config) && tonPool.None? ==> fee == Err(PoolNotFound)
    ensures fee.Err? ==> fee.error == PoolNotFound || fee.error == ZeroDivision
  {
    if IsTon(offerAddress, config) then
      Ok(Trunc((config.feePercent / 100.0) * offerAmount as real))
    else
      match CalculateAssetTonRate(offerAddress, tonPool)
      case Err(e) => Err(e)
      case Ok(rate) => Ok(Trunc((rate * config.feePercent / 100.0) * offerAmount as real))
  }

  /** For non-negative amounts, reserves and fee percentages the fee is the floor of
      `fee_percent` percent of the offer's value in TON: for a TON offer the value is the
      amount itself, otherwise the amount times the pool's TON-per-asset rate. */
  lemma FeeInNanotonsIsPercentOfValue(offerAmount: int, offerAddress: Address, config: FeeConfig, tonPool: Option<PoolRow>)
    requires offerAmount >= 0 && config.feePercent >= 0.0
    requires tonPool.Some? ==> tonPool.value.reserve0 >= 0 && tonPool.value.reserve1 >= 0
    ensures var fee := CalculateFeeInNanotons(offerAmount, offerAddress, config, tonPool);
            fee.Ok? ==>
              var value := if IsTon(offerAddress, config) then offerAmount as real
                           else CalculateAssetTonRate(offerAddress, tonPool).value * offerAmount as real;
              && 0 <= fee.value
              && fee.value as real * 100.0 <= config.feePercent * value < (fee.value + 1) as real * 100.0
  {
    if IsTon(offerAddress, config) {
      TonOfferFee(offerAmount, offerAddress, config, tonPool);
    } else if CalculateAssetTonRate(offerAddress, tonPool).Ok? {
      PoolOfferFee(offerAmount, offerAddress, config, tonPool);
    }
  }

  lemma TonOfferFee(offerAmount: int, offerAddress: Address, config: FeeConfig, tonPool: Option<PoolRow>)
    requires offerAmount >= 0 && config.feePercent >= 0.0 && IsTon(offerAddress, config)
    ensures var fee := CalculateFeeInNanotons(offerAmount, offerAddress, config, tonPool);
            && fee.Ok? && 0 <= fee.value
            && fee.value as real * 100.0 <= config.feePercent * offerAmount as real < (fee.value + 1) as real * 100.0
  {
    var fp, a := config.feePercent, offerAmount as real;
    PercentFloor(fp / 100.0 * a, fp, a);
  }

  lemma PoolOfferFee(offerAmount: int, offerAddress: Address, config: FeeConfig, tonPool: Option<PoolRow>)
    requires offerAmount >= 0 && config.feePercent >= 0.0 && !IsTon(offerAddress, config)
    requires tonPool.Some? ==> tonPool.value.reserve0 >= 0 && tonPool.value.reserve1 >= 0
    requires CalculateAssetTonRate(offerAddress, tonPool).Ok?
    ensures var fee := CalculateFeeInNanotons(offerAmount, offerAddress, config, tonPool);
            var value := CalculateAssetTonRate(offerAddress, tonPool).value * offerAmount as real;
            && fee.Ok? && 0 <= fee.value
            && fee.value as real * 100.0 <= config.feePercent * value < (fee.value + 1) as real * 100.0
  {
    var fp, a := config.feePercent, offerAmount as real;
    var rate := CalculateAssetTonRate(offerAddress, tonPool).value;
    var pool := tonPool.value;
    assert rate >= 0.0 by {
      if offerAddress == pool.token0Address {
        NonNegativeQuotient(pool.reserve1 as real, pool.reserve0 as real);
      } else {
        NonNegativeQuotient(pool.reserve0 as real, pool.reserve1 as real);
      }
    }
    NonNegativeProduct(rate, a);
    RegroupRate(rate, fp, a);
    PercentFloor(rate * fp / 100.0 * a, fp, rate * a);
  }

  /** A fee of `fp` percent of a non-negative value, truncated, is its floor. */
  lemma PercentFloor(e: real, fp: real, v: real)
    requires fp >= 0.0 && v >= 0.0 && e * 100.0 == fp * v
    ensures 0 <= Trunc(e)
    ensures Trunc(e) as real * 100.0 <= fp * v < (Trunc(e) + 1) as real * 100.0
  {
    NonNegativeProduct(fp, v);
  }

  lemma RegroupRate(rate: real, fp: real, a: real)
    ensures rate * fp / 100.0 * a * 100.0 == fp * (rate * a)
  {
  }
}

/** Share conversion, the fee curve, late penalties and utilization. */
module Pricing {
  import opened Numbers

  const BPS_DENOMINATOR := 10_000
  const VIRTUAL_ASSETS_OFFSET := 1_000_000
  const VIRTUAL_SHARES_OFFSET := 1_000_000_000
  const SECONDS_PER_DAY := 86_400

  datatype FeeCurve = FeeCurve(
    utilizationKinkBps: u16,
    baseRateBps: u16,
    kinkRateBps: u16,
    maxRateBps: u16,
    durationPerDayBps: u16,
    riskPremiumBps: u16,
    poolLossSurchargeBps: u16)
  {
    /** `FeeCurve::validate`. */
    predicate Valid() {
      && utilizationKinkBps <= BPS_DENOMINATOR
      && baseRateBps <= kinkRateBps <= maxRateBps <= BPS_DENOMINATOR
    }
  }

  // ---- Virtual shares ----

  /** `q` is the floor of `n / d`, said without division. */
  ghost predicate IsFloor(q: int, n: int, d: int) {
    q * d <= n < (q + 1) * d
  }

  function PreviewDeposit(amount: u64, totalAssets: u64, totalShares: u64): (r: Result<u64>)
    ensures r.Ok? ==>
              IsFloor(r.value, amount * (totalShares + VIRTUAL_SHARES_OFFSET), totalAssets + VIRTUAL_ASSETS_OFFSET)
    ensures r.Ok? ==> amount * (totalShares + VIRTUAL_SHARES_OFFSET) <= U128_MAX
    ensures r.Err? ==> r == Err(MathOverflow)
  {
    var sharesOff: u128 := totalShares + VIRTUAL_SHARES_OFFSET;
    var assetsOff: u128 := totalAssets + VIRTUAL_ASSETS_OFFSET;
    var numerator :- ToU128(amount * sharesOff);
    DivFloor(numerator, assetsOff);
    ToU64(numerator / assetsOff, MathOverflow)
  }

  function PreviewRedeem(shares: u64, totalAssets: u64, totalShares: u64): (r: Result<u64>)
    ensures r.Ok? ==>
              IsFloor(r.value, shares * (totalAssets + VIRTUAL_ASSETS_OFFSET), totalShares + VIRTUAL_SHARES_OFFSET)
    ensures r.Ok? ==> shares * (totalAssets + VIRTUAL_ASSETS_OFFSET) <= U128_MAX
    ensures r.Err? ==> r == Err(MathOverflow)
  {
    var assetsOff: u128 := totalAssets + VIRTUAL_ASSETS_OFFSET;
    var sharesOff: u128 := totalShares + VIRTUAL_SHARES_OFFSET;
    var numerator :- ToU128(shares * assetsOff);
    DivFloor(numerator, sharesOff);
    ToU64(numerator / sharesOff, MathOverflow)
  }

  /** Depositing and redeeming the minted shares at once never profits, and loses less
      than one share's worth of assets plus one atom. */
  lemma DepositRedeemRoundTrip(amount: u64, totalAssets: u64, totalShares: u64, minted: u64, returned: u64)
    requires PreviewDeposit(amount, totalAssets, totalShares) == Ok(minted)
    requires totalAssets + amount <= U64_MAX && totalShares + minted <= U64_MAX
    requires PreviewRedeem(minted, totalAssets + amount, totalShares + minted) == Ok(returned)
    ensures returned <= amount
    ensures (amount - returned) * (totalShares + VIRTUAL_SHARES_OFFSET)
            < (totalAssets + VIRTUAL_ASSETS_OFFSET) + (totalShares + VIRTUAL_SHARES_OFFSET)
  {
    FloorRoundTrip(amount, totalAssets + VIRTUAL_ASSETS_OFFSET, totalShares + VIRTUAL_SHARES_OFFSET, minted, returned);
  }

  lemma FloorRoundTrip(a: nat, assets: int, shares: int, s: nat, x: nat)
    requires 0 < assets && 0 < shares
    requires IsFloor(s, a * shares, assets)
    requires IsFloor(x, s * (assets + a), shares + s)
    ensures x <= a
    ensures (a - x) * shares < assets + shares
  {
    assert s * (assets + a) == s * assets + s * a;
    assert a * (shares + s) == a * shares + a * s;
    MulCancel(x, a, shares + s);
    var loss := a - x;
    assert loss * (shares + s) == a * (shares + s) - x * (shares + s);
    assert (x + 1) * (shares + s) == x * (shares + s) + shares + s;
    assert (s + 1) * assets == s * assets + assets;
    assert loss * (shares + s) < assets + shares + s;
    assert loss * (shares + s) == loss * shares + loss * s;
    if loss > 0 {
      MulMono(1, loss, s);
    }
  }

  /** Share price, compared by cross-multiplication: pool 1 is worth no more per share than pool 2. */
  ghost predicate PriceAtMost(assets1: int, shares1: int, assets2: int, shares2: int) {
    (assets1 + VIRTUAL_ASSETS_OFFSET) * (shares2 + VIRTUAL_SHARES_OFFSET)
    <= (assets2 + VIRTUAL_ASSETS_OFFSET) * (shares1 + VIRTUAL_SHARES_OFFSET)
  }

  lemma PriceTransitive(a1: nat, s1: nat, a2: nat, s2: nat, a3: nat, s3: nat)
    requires PriceAtMost(a1, s1, a2, s2) && PriceAtMost(a2, s2, a3, s3)
    ensures PriceAtMost(a1, s1, a3, s3)
  {
    CrossTransitive(a1 + VIRTUAL_ASSETS_OFFSET, s1 + VIRTUAL_SHARES_OFFSET,
                    a2 + VIRTUAL_ASSETS_OFFSET, s2 + VIRTUAL_SHARES_OFFSET,
                    a3 + VIRTUAL_ASSETS_OFFSET, s3 + VIRTUAL_SHARES_OFFSET);
  }

  lemma CrossTransitive(a1: int, s1: int, a2: int, s2: int, a3: int, s3: int)
    requires 0 < s1 && 0 < s2 && 0 < s3
    requires a1 * s2 <= a2 * s1 && a2 * s3 <= a3 * s2
    ensures a1 * s3 <= a3 * s1
  {
    MulMono(a1 * s2, a2 * s1, s3);
    MulMono(a2 * s3, a3 * s2, s1);
    assert (a1 * s3) * s2 == (a1 * s2) * s3;
    assert (a2 * s1) * s3 == (a2 * s3) * s1;
    assert (a3 * s1) * s2 == (a3 * s2) * s1;
    MulCancel(a1 * s3, a3 * s1, s2);
  }

  lemma DepositKeepsPrice(amount: nat, a: nat, s: nat, minted: nat)
    requires IsFloor(minted, amount * (s + VIRTUAL_SHARES_OFFSET), a + VIRTUAL_ASSETS_OFFSET)
    ensures PriceAtMost(a, s, a + amount, s + minted)
  {
    var assets, shares := a + VIRTUAL_ASSETS_OFFSET, s + VIRTUAL_SHARES_OFFSET;
    assert assets * (shares + minted) == assets * shares + minted * assets;
    assert (assets + amount) * shares == assets * shares + amount * shares;
  }

  lemma WithdrawKeepsPrice(burned: nat, a: nat, s: nat, returned: nat)
    requires IsFloor(returned, burned * (a + VIRTUAL_ASSETS_OFFSET), s + VIRTUAL_SHARES_OFFSET)
    requires returned <= a && burned <= s
    ensures PriceAtMost(a, s, a - returned, s - burned)
  {
    var assets, shares := a + VIRTUAL_ASSETS_OFFSET, s + VIRTUAL_SHARES_OFFSET;
    assert assets * (shares - burned) == assets * shares - burned * assets;
    assert (assets - returned) * shares == assets * shares - returned * shares;
  }

  /** With the share count fixed, the price follows the assets, strictly. */
  lemma PriceFollowsAssets(a1: int, a2: int, s: nat)
    ensures PriceAtMost(a1, s, a2, s) <==> a1 <= a2
  {
    var shares := s + VIRTUAL_SHARES_OFFSET;
    if a1 <= a2 {
      MulMono(a1 + VIRTUAL_ASSETS_OFFSET, a2 + VIRTUAL_ASSETS_OFFSET, shares);
    } else if PriceAtMost(a1, s, a2, s) {
      MulCancel(a1 + VIRTUAL_ASSETS_OFFSET, a2 + VIRTUAL_ASSETS_OFFSET, shares);
    }
  }

  // ---- The fee curve ----

  /** The rate before premiums: linear up to the kink, then linear to the maximum. */
  function UtilizationRate(utilizationBps: u64, c: FeeCurve): Result<u64> {
    var kink: int := c.utilizationKinkBps;
    if utilizationBps > kink && Max(BPS_DENOMINATOR - kink, 0) > 0 then
      var scaled :- ToU64((utilizationBps - kink) * Max(c.maxRateBps - c.kinkRateBps, 0), MathOverflow);
      ToU64(c.kinkRateBps + scaled / (BPS_DENOMINATOR - kink), ArithmeticPanic)
    else
      var scaled :- ToU64(utilizationBps * Max(c.kinkRateBps - c.baseRateBps, 0), MathOverflow);
      ToU64(c.baseRateBps + (if kink > 0 then scaled / kink else 0), ArithmeticPanic)
  }

  function SaturatingMul(a: u64, b: u64): u64 {
    if 0 <= a * b <= U64_MAX then a * b else U64_MAX
  }

  /** The capped rate: curve, plus duration premium, plus risk premium for up to five defaults. */
  function FeeRate(durationSeconds: u64, utilizationBps: u64, defaults: nat, c: FeeCurve): Result<u64> {
    var rate :- UtilizationRate(utilizationBps, c);
    var withDuration :-
      ToU64(rate + SaturatingMul(durationSeconds / SECONDS_PER_DAY, c.durationPerDayBps), MathOverflow);
    var withRisk :- ToU64(withDuration + SaturatingMul(Min(defaults, 5), c.riskPremiumBps), MathOverflow);
    Ok(Min(withRisk, c.maxRateBps))
  }

  function FeeAmount(principal: u64, durationSeconds: u64, utilizationBps: u64, defaults: nat,
                     c: FeeCurve): Result<u64>
  {
    var rate :- FeeRate(durationSeconds, utilizationBps, defaults, c);
    var product :- ToU128(principal * rate);
    ToU64(product / BPS_DENOMINATOR, MathOverflow)
  }

  /** `compute_fee_amount`, with the rate built up step by step as the program does. */
  method ComputeFeeAmount(principal: u64, durationSeconds: u64, utilizationBps: u64, defaults: nat, c: FeeCurve)
    returns (r: Result<u64>)
    ensures r == FeeAmount(principal, durationSeconds, utilizationBps, defaults, c)
  {
    var rate: u64 := c.baseRateBps;
    var kink: int := c.utilizationKinkBps;
    if utilizationBps > kink && BPS_DENOMINATOR - kink > 0 {
      var extra := utilizationBps - kink;
      var span := BPS_DENOMINATOR - kink;
      var kinkToMax := Max(c.maxRateBps - c.kinkRateBps, 0);
      var scaled :- ToU64(extra * kinkToMax, MathOverflow);
      rate :- ToU64(c.kinkRateBps + scaled / span, ArithmeticPanic);
    } else {
      var kinkMinusBase := Max(c.kinkRateBps - c.baseRateBps, 0);
      var scaled :- ToU64(utilizationBps * kinkMinusBase, MathOverflow);
      if kink > 0 {
        rate :- ToU64(rate + scaled / kink, ArithmeticPanic);
      }
    }
    var durationDays := durationSeconds / SECONDS_PER_DAY;
    rate :- ToU64(rate + SaturatingMul(durationDays, c.durationPerDayBps), MathOverflow);
    var riskFactor := Min(defaults, 5);
    rate :- ToU64(rate + SaturatingMul(riskFactor, c.riskPremiumBps), MathOverflow);
    rate := Min(rate, c.maxRateBps);
    var product :- ToU128(principal * rate);
    r := ToU64(product / BPS_DENOMINATOR, MathOverflow);
  }

  /** On a valid curve and utilization within the pool, the curve rate is defined,
      stays in [base, max], and sits at or below the kink rate exactly up to the kink. */
  lemma UtilizationRateBounds(u: u64, c: FeeCurve)
    requires c.Valid() && u <= BPS_DENOMINATOR
    ensures UtilizationRate(u, c).Ok?
    ensures c.baseRateBps <= UtilizationRate(u, c).value <= c.maxRateBps
    ensures u <= c.utilizationKinkBps ==> UtilizationRate(u, c).value <= c.kinkRateBps
    ensures u > c.utilizationKinkBps ==> c.kinkRateBps <= UtilizationRate(u, c).value
  {
    var kink: int := c.utilizationKinkBps;
    if u > kink {
      var rise, span := c.maxRateBps - c.kinkRateBps, BPS_DENOMINATOR - kink;
      MulMono(u - kink, span, rise);
      MulMono(0, u - kink, rise);
      MulMono(rise, BPS_DENOMINATOR, span);
      DivNonNegative((u - kink) * rise, span);
      assert rise * span == span * rise;
      DivAtMost((u - kink) * rise, span, rise);
    } else {
      var rise := c.kinkRateBps - c.baseRateBps;
      MulMono(u, kink, rise);
      MulMono(0, u, rise);
      MulMono(rise, BPS_DENOMINATOR, kink);
      assert rise * kink == kink * rise;
      if kink > 0 {
        DivNonNegative(u * rise, kink);
        DivAtMost(u * rise, kink, rise);
      }
    }
  }

  /** The curve rate is monotone in utilization, across the kink as well as on each side. */
  lemma UtilizationRateMonotone(u: u64, v: u64, c: FeeCurve)
    requires c.Valid() && u <= v <= BPS_DENOMINATOR
    ensures UtilizationRate(u, c).Ok? && UtilizationRate(v, c).Ok?
    ensures UtilizationRate(u, c).value <= UtilizationRate(v, c).value
  {
    var kink: int := c.utilizationKinkBps;
    UtilizationRateBounds(u, c);
    UtilizationRateBounds(v, c);
    if u > kink {
      var rise := c.maxRateBps - c.kinkRateBps;
      MulMono(u - kink, v - kink, rise);
      DivMono((u - kink) * rise, (v - kink) * rise, BPS_DENOMINATOR - kink);
    } else if v <= kink {
      var rise := c.kinkRateBps - c.baseRateBps;
      MulMono(u, v, rise);
      if kink > 0 {
        DivMono(u * rise, v * rise, kink);
      }
    }
  }

  lemma DurationPremiumFits(durationSeconds: u64, perDay: u16)
    ensures SaturatingMul(durationSeconds / SECONDS_PER_DAY, perDay) == (durationSeconds / SECONDS_PER_DAY) * perDay
    ensures 0 <= (durationSeconds / SECONDS_PER_DAY) * perDay <= U64_MAX - 1_000_000
  {
    var days := durationSeconds / SECONDS_PER_DAY;
    MulMono(perDay, U16_MAX, days);
    MulMono(0, perDay, days);
    assert perDay * days == days * perDay;
  }

  /** The rate never errors, never leaves [base, max], and rises with each of its inputs. */
  lemma FeeRateMonotone(d: u64, u: u64, n: nat, d': u64, u': u64, n': nat, c: FeeCurve)
    requires c.Valid() && d <= d' && u <= u' <= BPS_DENOMINATOR && n <= n'
    ensures FeeRate(d, u, n, c).Ok? && FeeRate(d', u', n', c).Ok?
    ensures c.baseRateBps <= FeeRate(d, u, n, c).value <= FeeRate(d', u', n', c).value <= c.maxRateBps
  {
    UtilizationRateMonotone(u, u', c);
    UtilizationRateBounds(u, c);
    UtilizationRateBounds(u', c);
    DurationPremiumFits(d, c.durationPerDayBps);
    DurationPremiumFits(d', c.durationPerDayBps);
    MulMono(d / SECONDS_PER_DAY, d' / SECONDS_PER_DAY, c.durationPerDayBps);
    MulMono(Min(n, 5), Min(n', 5), c.riskPremiumBps);
    MulMono(c.riskPremiumBps, U16_MAX, 5);
    MulMono(Min(n', 5), 5, c.riskPremiumBps);
    MulMono(0, Min(n, 5), c.riskPremiumBps);
  }

  /** The fee itself: defined for every principal, between the base and the maximum rate,
      and monotone in principal, duration, utilization and defaults together. */
  lemma FeeMonotone(p: u64, d: u64, u: u64, n: nat, p': u64, d': u64, u': u64, n': nat, c: FeeCurve)
    requires c.Valid() && p <= p' && d <= d' && u <= u' <= BPS_DENOMINATOR && n <= n'
    ensures FeeAmount(p, d, u, n, c).Ok? && FeeAmount(p', d', u', n', c).Ok?
    ensures p * c.baseRateBps / BPS_DENOMINATOR <= FeeAmount(p, d, u, n, c).value
    ensures FeeAmount(p, d, u, n, c).value <= FeeAmount(p', d', u', n', c).value
    ensures FeeAmount(p', d', u', n', c).value <= p' * c.maxRateBps / BPS_DENOMINATOR <= p'
  {
    FeeRateMonotone(d, u, n, d', u', n', c);
    var rate, rate' := FeeRate(d, u, n, c).value, FeeRate(d', u', n', c).value;
    MulMono(c.baseRateBps, rate, p);
    MulMono(rate, rate', p);
    MulMono(p, p', rate');
    MulMono(rate', c.maxRateBps, p');
    MulMono(c.maxRateBps, BPS_DENOMINATOR, p');
    MulMono(0, rate, p);
    DivMono(p * c.baseRateBps, p * rate, BPS_DENOMINATOR);
    DivMono(p * rate, p' * rate', BPS_DENOMINATOR);
    DivMono(p' * rate', p' * c.maxRateBps, BPS_DENOMINATOR);
    DivAtMost(p' * c.maxRateBps, BPS_DENOMINATOR, p');
    DivNonNegative(p * rate, BPS_DENOMINATOR);
  }

  /** Whatever the utilization, a fee that is computed at all is capped by the maximum rate. */
  lemma FeeCapped(p: u64, d: u64, u: u64, n: nat, c: FeeCurve)
    requires c.Valid() && FeeAmount(p, d, u, n, c).Ok?
    ensures FeeAmount(p, d, u, n, c).value <= p
  {
    var rate := FeeRate(d, u, n, c).value;
    MulMono(rate, BPS_DENOMINATOR, p);
    DivAtMost(p * rate, BPS_DENOMINATOR, p);
  }

  /** The curve rate in the curve's own figures: up to the kink, base plus the floor of a share of
      the first rise; above it, the kink rate plus the floor of a share of the second. */
  lemma UtilizationRateExactly(u: u64, c: FeeCurve)
    requires c.Valid() && u <= 10_000
    ensures
      var kink, base, mid, max := c.utilizationKinkBps, c.baseRateBps, c.kinkRateBps, c.maxRateBps;
      UtilizationRate(u, c)
      == Ok(if u > kink then mid + (u - kink) * (max - mid) / (10_000 - kink)
            else if kink > 0 then base + u * (mid - base) / kink
            else base)
  {
    UtilizationRateBounds(u, c);
  }

  /** Where the curve passes: the base rate at 0, the kink rate at a kink above 0, and at full
      utilization the maximum rate, except that a kink of 10,000 stops at the kink rate. */
  lemma CurvePoints(c: FeeCurve)
    requires c.Valid()
    ensures UtilizationRate(0, c) == Ok(c.baseRateBps)
    ensures c.utilizationKinkBps > 0 ==> UtilizationRate(c.utilizationKinkBps, c) == Ok(c.kinkRateBps)
    ensures UtilizationRate(10_000, c) == Ok(if c.utilizationKinkBps < 10_000 then c.maxRateBps else c.kinkRateBps)
  {
    hide UtilizationRate;
    var kink: int := c.utilizationKinkBps;
    UtilizationRateExactly(0, c);
    UtilizationRateExactly(kink, c);
    UtilizationRateExactly(10_000, c);
    if kink > 0 {
      FullShare(kink, c.kinkRateBps - c.baseRateBps);
    }
    if kink < 10_000 {
      FullShare(10_000 - kink, c.maxRateBps - c.kinkRateBps);
    }
    assert 0 * (c.kinkRateBps - c.baseRateBps) == 0;
  }

  lemma FullShare(span: nat, rise: nat)
    requires 0 < span
    ensures span * rise / span == rise && 0 / span == 0
  {
    assert span * rise == rise * span < (rise + 1) * span;
    DivUnique(span * rise, span, rise);
    DivUnique(0, span, 0);
  }

  /** The fee in the curve's own figures: the principal times the curve rate plus a premium per
      whole day and one per default up to five, capped at the maximum rate, over 10,000. */
  lemma FeeExactly(p: u64, seconds: u64, u: u64, defaults: nat, c: FeeCurve)
    requires c.Valid() && u <= 10_000
    ensures
      var kink, base, mid, max := c.utilizationKinkBps, c.baseRateBps, c.kinkRateBps, c.maxRateBps;
      var curveRate := if u > kink then mid + (u - kink) * (max - mid) / (10_000 - kink)
                       else if kink > 0 then base + u * (mid - base) / kink
                       else base;
      var rate := curveRate + (seconds / 86_400) * c.durationPerDayBps
                  + (if defaults < 5 then defaults else 5) * c.riskPremiumBps;
      FeeAmount(p, seconds, u, defaults, c) == Ok(p * (if rate < max then rate else max) / 10_000)
  {
    UtilizationRateExactly(u, c);
    DurationPremiumFits(seconds, c.durationPerDayBps);
    UtilizationRateBounds(u, c);
    var days, risk := seconds / 86_400, if defaults < 5 then defaults else 5;
    MulMono(c.riskPremiumBps, U16_MAX, risk);
    MulMono(0, c.riskPremiumBps, risk);
    assert c.riskPremiumBps * risk == risk * c.riskPremiumBps;
    var rate := UtilizationRate(u, c).value + days * c.durationPerDayBps + risk * c.riskPremiumBps;
    hide UtilizationRate;
    assert FeeRate(seconds, u, defaults, c) == Ok(if rate < c.maxRateBps then rate else c.maxRateBps);
    FeeMonotone(p, seconds, u, defaults, p, seconds, u, defaults, c);
  }

  // ---- Late penalty and utilization ----

  function LatePenaltyPerDay(principal: u64, c: FeeCurve): Result<u64> {
    var base := principal * 10 / BPS_DENOMINATOR;
    var surcharge: int := c.poolLossSurchargeBps;
    var total := if surcharge > 0 then base * (BPS_DENOMINATOR + surcharge) / BPS_DENOMINATOR else base;
    ToU64(total, MathOverflow)
  }

  /** Thirteen days of penalty, under the heaviest surcharge a curve can hold, stay below a tenth of the principal. */
  lemma LatePenaltyBound(principal: u64, c: FeeCurve)
    ensures LatePenaltyPerDay(principal, c).Ok?
    ensures 130 * LatePenaltyPerDay(principal, c).value <= principal
  {
    var base := principal * 10 / BPS_DENOMINATOR;
    var surcharge: int := c.poolLossSurchargeBps;
    MulMono(BPS_DENOMINATOR + surcharge, 75_535, base);
    DivMono(base * (BPS_DENOMINATOR + surcharge), base * 75_535, BPS_DENOMINATOR);
    DivNonNegative(base * (BPS_DENOMINATOR + surcharge), BPS_DENOMINATOR);
    assert 1_000 * base <= principal;
    assert (BPS_DENOMINATOR + surcharge) * base == base * (BPS_DENOMINATOR + surcharge);
  }

  /** A tenth of a percent of the principal, marked up by the surcharge. */
  lemma LatePenaltyExactly(principal: u64, c: FeeCurve)
    ensures LatePenaltyPerDay(principal, c) == Ok(principal / 1_000 * (10_000 + c.poolLossSurchargeBps) / 10_000)
  {
    LatePenaltyBound(principal, c);
  }

  function UtilizationBps(totalAssets: u64, deployed: u64): u64 {
    if totalAssets == 0 then BPS_DENOMINATOR
    else
      var utilization := deployed * BPS_DENOMINATOR / totalAssets;
      if 0 <= utilization <= U64_MAX then utilization else BPS_DENOMINATOR
  }

  lemma UtilizationWithinPool(totalAssets: u64, deployed: u64)
    requires deployed <= totalAssets
    ensures UtilizationBps(totalAssets, deployed) <= BPS_DENOMINATOR
  {
    if totalAssets != 0 {
      MulMono(deployed, totalAssets, BPS_DENOMINATOR);
      DivAtMost(deployed * BPS_DENOMINATOR, totalAssets, BPS_DENOMINATOR);
    }
  }

  /** The lent share of the assets in basis points, rounded down; an empty pool counts as fully used. */
  lemma UtilizationExactly(totalAssets: u64, deployed: u64)
    requires deployed <= totalAssets
    ensures UtilizationBps(totalAssets, deployed)
            == if totalAssets == 0 then 10_000 else deployed * 10_000 / totalAssets
  {
    if totalAssets != 0 {
      MulMono(deployed, totalAssets, BPS_DENOMINATOR);
      DivNonNegative(deployed * BPS_DENOMINATOR, totalAssets);
      DivAtMost(deployed * BPS_DENOMINATOR, totalAssets, BPS_DENOMINATOR);
    }
  }
}

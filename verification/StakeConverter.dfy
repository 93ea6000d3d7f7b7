/**
  Stake to resource and back (pkg/client/converter.go). The energy pair and the bandwidth pair
  are the same arithmetic: `limit` is the network's total resource, `weight` the total stake in
  TRX.
 */
module StakeConverter {
  import opened Decimals
  import opened Sun

  function StakedToResource(limit: Int64, weight: Int64, staked: Int64): real {
    if weight == 0 then 0.0
    else Times(Div(TRX(staked), weight as real), limit)
  }

  function ResourceToStaked(limit: Int64, weight: Int64, amount: real): Int64 {
    if limit == 0 then 0
    else CeilToSUN(Times(Div(amount, limit as real), weight) * 1e6)
  }

  /** The exact SUN figure `ResourceToStaked` rounds up. */
  function ExactStake(limit: Int64, weight: Int64, amount: real): real
    requires limit != 0
  {
    Times(Div(amount, limit as real), weight) * 1e6
  }

  lemma StakeIsCeil(limit: Int64, weight: Int64, amount: real)
    requires limit != 0 && 0.0 <= ExactStake(limit, weight, amount) <= MAX_INT64 as real
    ensures var s := ResourceToStaked(limit, weight, amount);
            ExactStake(limit, weight, amount) <= s as real < ExactStake(limit, weight, amount) + 1.0
  {
    CeilToSUNIsNeverShort(ExactStake(limit, weight, amount), 0.0);
  }

  lemma YieldIs(limit: Int64, weight: Int64, staked: Int64)
    requires weight != 0
    ensures StakedToResource(limit, weight, staked)
         == Round16(staked as real / 1e6 / weight as real) * limit as real
  {
    hide Round16;
  }

  lemma ExactStakeIs(limit: Int64, weight: Int64, amount: real)
    requires limit != 0
    ensures ExactStake(limit, weight, amount) == Round16(amount / limit as real) * weight as real * 1e6
  {
    hide Round16;
  }

  /** What staking for `amount` really yields: at least it, up to rounding, and less than one SUN's worth more. */
  lemma ResourceRoundTrip(limit: Int64, weight: Int64, amount: real)
    requires 1 <= limit && 1 <= weight && 0.0 <= amount
    requires ExactStake(limit, weight, amount) <= MAX_INT64 as real
    ensures var got := StakedToResource(limit, weight, ResourceToStaked(limit, weight, amount));
            var l, w := limit as real, weight as real;
            && amount - l / 1e16 <= got
            && got < amount + l / (1e6 * w) + l / 1e16
  {
    hide StakedToResource, ResourceToStaked, ExactStake, Round16, Div, Times;
    var s := ResourceToStaked(limit, weight, amount);
    ExactStakeIs(limit, weight, amount);
    NonNegativeStake(amount, limit as real, weight as real);
    StakeIsCeil(limit, weight, amount);
    YieldIs(limit, weight, s);
    RoundTripBounds(amount, limit as real, weight as real, Round16(amount / limit as real), s as real);
  }

  lemma RoundTripBounds(amount: real, l: real, w: real, d: real, s: real)
    requires 0.0 < l && 0.0 < w && d == Round16(amount / l)
    requires d * w * 1e6 <= s < d * w * 1e6 + 1.0
    ensures var got := Round16(s / 1e6 / w) * l;
            amount - l / 1e16 <= got < amount + l / (1e6 * w) + l / 1e16
  {
    Round16IsNear(amount / l);
    Round16IsNear(s / 1e6 / w);
    StakeQuotient(s, d, w);
    ScaleByLimit(amount, l, w, d, Round16(s / 1e6 / w));
  }

  lemma NonNegativeStake(amount: real, l: real, w: real)
    requires 0.0 <= amount && 0.0 < l && 0.0 < w
    ensures 0.0 <= Round16(amount / l) * w * 1e6
  {
    QuotientIsMonotone(0.0, amount, l);
    Round16IsMonotone(0.0, amount / l);
    ProductIsMonotone(0.0, Round16(amount / l), w);
  }

  /** Dividing the rounded stake by the weight gives back the quotient it was scaled from, up to one SUN. */
  lemma StakeQuotient(s: real, d: real, w: real)
    requires 0.0 < w && d * w * 1e6 <= s < d * w * 1e6 + 1.0
    ensures d <= s / 1e6 / w < d + 1.0 / (1e6 * w)
  {
    var t := s / 1e6;
    assert d * w <= t < d * w + 1.0 / 1e6;
    QuotientIsMonotone(d * w, t, w);
    assert d * w / w == d;
    var u := 1.0 / (1e6 * w);
    assert u * w == 1.0 / 1e6 by {
      assert u * (1e6 * w) == 1.0;
      assert u * w * 1e6 == 1.0;
    }
    assert (d + u) * w == d * w + u * w;
    assert t / w * w == t;
    if t / w >= d + u {
      ProductIsMonotone(d + u, t / w, w);
    }
  }

  lemma ScaleByLimit(amount: real, l: real, w: real, d: real, q: real)
    requires 0.0 < l && 0.0 < w
    requires amount / l - 5e-17 <= d <= amount / l + 5e-17
    requires d - 5e-17 <= q < d + 1.0 / (1e6 * w) + 5e-17
    ensures amount - l / 1e16 <= q * l
    ensures q * l < amount + l / (1e6 * w) + l / 1e16
  {
    var x, u := amount / l, 1.0 / (1e6 * w);
    assert x * l == amount;
    assert l / 1e16 == (2.0 * 5e-17) * l;
    assert l / (1e6 * w) == u * l;
    ProductIsMonotone(x - 2.0 * 5e-17, q, l);
    assert (x - 2.0 * 5e-17) * l == x * l - 2.0 * 5e-17 * l;
    var gap := x + u + 2.0 * 5e-17 - q;
    assert gap > 0.0 && gap * l > 0.0;
    assert gap * l == x * l + u * l + 2.0 * 5e-17 * l - q * l;
  }

  /** More stake never yields less. */
  lemma YieldIsMonotone(limit: Int64, weight: Int64, staked: Int64, staked': Int64)
    requires 0 <= limit && 0 <= weight && staked <= staked'
    ensures StakedToResource(limit, weight, staked) <= StakedToResource(limit, weight, staked')
  {
    if weight != 0 {
      DivIsMonotone(TRX(staked), TRX(staked'), weight as real);
      TimesIsMonotone(Div(TRX(staked), weight as real), Div(TRX(staked'), weight as real), limit);
    }
  }

  /** More of the resource never needs less stake. */
  lemma StakeIsMonotone(limit: Int64, weight: Int64, amount: real, amount': real)
    requires 0 <= limit && 0 <= weight && amount <= amount'
    ensures ResourceToStaked(limit, weight, amount) <= ResourceToStaked(limit, weight, amount')
  {
    if limit != 0 {
      DivIsMonotone(amount, amount', limit as real);
      TimesIsMonotone(Div(amount, limit as real), Div(amount', limit as real), weight);
      CeilToSUNIsNeverShort(ExactStake(limit, weight, amount), ExactStake(limit, weight, amount'));
    }
  }

  /** What a stake costs after asking for exactly what it yields. */
  function StakeAndBack(limit: Int64, weight: Int64, staked: Int64): Int64 {
    ResourceToStaked(limit, weight, StakedToResource(limit, weight, staked))
  }

  /** The exact SUN figure `StakeAndBack` rounds up. */
  function BackExact(weight: Int64, staked: Int64): real
    requires weight != 0
  {
    Times(Div(TRX(staked), weight as real), weight) * 1e6
  }

  lemma StakeAndBackIs(limit: Int64, weight: Int64, staked: Int64)
    requires 1 <= limit && 1 <= weight
    ensures StakeAndBack(limit, weight, staked) == CeilToSUN(BackExact(weight, staked))
  {
    hide Round16, CeilToSUN, Times;
    RoundedIsExact(TRX(staked) / weight as real, limit);
  }

  /** A rounded quotient survives being multiplied and divided again. */
  lemma RoundedIsExact(x: real, k: int)
    requires 0 < k
    ensures Div(Times(Round16(x), k), k as real) == Round16(x)
  {
    DivOfTimes(Round16(x), k);
    Round16IsExact(RoundHalfAway(x * 1e16));
  }

  lemma DivOfTimes(x: real, k: int)
    requires 0 < k
    ensures Div(Times(x, k), k as real) == Round16(x)
  {
    assert x * k as real / k as real == x;
  }

  /** Rounding a quotient moves the product by at most 5 * 10^-17 of the divisor; up, if it was a tie. */
  lemma ScaledBack(t: real, w: real)
    requires 0.0 <= t && 0.0 < w
    ensures t - 5e-17 * w < Round16(t / w) * w <= t + 5e-17 * w
  {
    hide Round16;
    QuotientIsMonotone(0.0, t, w);
    RoundedUpOnTie(t / w);
    QuotientTimes(t, w);
    NearbyProduct(t, t / w, Round16(t / w), w, 5e-17);
  }

  lemma NearbyProduct(t: real, x: real, q: real, w: real, e: real)
    requires 0.0 < w && x * w == t && x - e < q <= x + e
    ensures t - e * w < q * w <= t + e * w
  {
    ProductIsLess(x - e, q, w);
    ProductIsMonotone(q, x + e, w);
  }

  lemma QuotientTimes(t: real, w: real)
    requires w != 0.0
    ensures t / w * w == t
  {
  }

  lemma RoundedUpOnTie(x: real)
    requires 0.0 <= x
    ensures x - 5e-17 < Round16(x) <= x + 5e-17
  {
    assert x * 1e16 - 0.5 < RoundHalfAway(x * 1e16) as real <= x * 1e16 + 0.5;
  }

  lemma ProductIsLess(x: real, y: real, b: real)
    requires x < y && 0.0 < b
    ensures x * b < y * b
  {
    assert (y - x) * b > 0.0;
  }

  /** For any total stake, the stake comes back within 5 * 10^-11 SUN per TRX of it, and one SUN. */
  lemma StakeRoundTripBound(limit: Int64, weight: Int64, staked: Int64)
    requires 1 <= limit && 1 <= weight && 0 <= staked
    ensures var w := weight as real;
            staked as real - 5e-11 * w < StakeAndBack(limit, weight, staked) as real < staked as real + 5e-11 * w + 1.0
  {
    hide StakeAndBack, BackExact, CeilToSUN;
    StakeAndBackIs(limit, weight, staked);
    BackIsNear(weight, staked);
    CeilIsWithin(BackExact(weight, staked), staked, 5e-11 * weight as real);
  }

  lemma InSun(back: real, t: real, w: real, staked: int)
    requires t == staked as real / 1e6 && t - 5e-17 * w < back <= t + 5e-17 * w
    ensures staked as real - 5e-11 * w < back * 1e6 <= staked as real + 5e-11 * w
  {
  }

  lemma BackIsNear(weight: Int64, staked: Int64)
    requires 1 <= weight && 0 <= staked
    ensures var w := weight as real;
            staked as real - 5e-11 * w < BackExact(weight, staked) <= staked as real + 5e-11 * w
  {
    hide Round16;
    var t := TRX(staked);
    ScaledBack(t, weight as real);
    InSun(Round16(t / weight as real) * weight as real, t, weight as real, staked);
  }

  lemma CeilIsWithin(exact: real, staked: Int64, e: real)
    requires 0 <= staked && 0.0 < e && staked as real - e < exact <= staked as real + e
    ensures staked as real - e < CeilToSUN(exact) as real < staked as real + e + 1.0
  {
    CeilIsLeast(exact, MAX_INT64);
  }

  /** The largest total stake, in TRX, for which a stake comes back as itself or one SUN more. */
  const MAX_EXACT_WEIGHT: Int64 := 20_000_000_000

  ghost predicate ComesBack(limit: Int64, weight: Int64) {
    forall staked: Int64 :: 0 <= staked ==> staked <= StakeAndBack(limit, weight, staked) <= staked + 1
  }

  /** Asking for exactly what a stake yields costs that stake or one SUN more, for all stakes, iff the total is small enough. */
  lemma StakeRoundTripIff(limit: Int64, weight: Int64)
    requires 1 <= limit && 1 <= weight
    ensures ComesBack(limit, weight) <==> weight <= MAX_EXACT_WEIGHT
  {
    hide StakeAndBack;
    if weight <= MAX_EXACT_WEIGHT {
      forall staked: Int64 | 0 <= staked
        ensures staked <= StakeAndBack(limit, weight, staked) <= staked + 1
      {
        StakeComesBack(limit, weight, staked);
      }
    } else {
      OneSunIsLost(limit, weight);
    }
  }

  lemma StakeComesBack(limit: Int64, weight: Int64, staked: Int64)
    requires 1 <= limit && 1 <= weight <= MAX_EXACT_WEIGHT && 0 <= staked
    ensures staked <= StakeAndBack(limit, weight, staked) <= staked + 1
  {
    hide StakeAndBack, BackExact, CeilToSUN;
    StakeAndBackIs(limit, weight, staked);
    BackIsNear(weight, staked);
    CeilOfNearly(BackExact(weight, staked), staked);
  }

  lemma CeilOfNearly(exact: real, staked: Int64)
    requires 0 <= staked && staked as real - 1.0 < exact <= staked as real + 1.0
    ensures staked <= CeilToSUN(exact) <= staked + 1
  {
  }

  /** A stake of one SUN yields nothing, and nothing costs nothing. */
  lemma OneSunIsLost(limit: Int64, weight: Int64)
    requires 1 <= limit && MAX_EXACT_WEIGHT < weight
    ensures StakedToResource(limit, weight, 1) == 0.0 && StakeAndBack(limit, weight, 1) == 0
  {
    hide StakeAndBack, Round16, CeilToSUN;
    StakeAndBackIs(limit, weight, 1);
    TinyIsZero(TRX(1) / weight as real, weight as real);
    NothingIsFree();
  }

  lemma TinyIsZero(x: real, w: real)
    requires 2e10 < w && x == 1.0 / 1e6 / w
    ensures Round16(x) == 0.0
  {
    assert x * w == 1.0 / 1e6;
    if x >= 5e-17 {
      ProductIsLess(2e10, w, x);
      ProductIsMonotone(5e-17, x, 2e10);
    } else if x < 0.0 {
      ProductIsLess(x, 0.0, w);
    }
  }

  lemma NothingIsFree()
    ensures CeilToSUN(0.0) == 0
  {
  }
}

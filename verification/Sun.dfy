/** SUN, the fixed-scale TRX amount: 1e6 SUN to the TRX (pkg/units/units.go). */
module Sun {
  import opened Wrappers
  import opened Decimals

  datatype AmountError = SubSunPrecision | DoesNotFit

  function Saturate(i: int): Int64 {
    if IsInt64(i) then i
    else if i < 0 then MIN_INT64
    else MAX_INT64
  }

  /** Rounds up to a whole SUN, saturating at the int64 bounds. */
  function CeilToSUN(d: real): Int64 {
    Saturate(Ceil(d))
  }

  /** The price of an amount of energy or bandwidth at a fee in SUN per unit, rounded up, without bounds. */
  function Price(amount: real, fee: Int64): int {
    Ceil(Times(amount, fee))
  }

  function ToSUN(amount: real, fee: Int64): Int64 {
    Saturate(Price(amount, fee))
  }

  function FromTRX(trx: real): Result<Int64, AmountError> {
    var scaled := trx * 1e6;
    if scaled.Floor as real != scaled then Err(SubSunPrecision)
    else if !IsInt64(scaled.Floor) then Err(DoesNotFit)
    else Ok(scaled.Floor)
  }

  function TRX(s: Int64): real {
    s as real / 1e6
  }

  /** Never short of the exact amount below the top of the range, at most one SUN over it, and monotone. */
  lemma CeilToSUNIsNeverShort(d: real, e: real)
    ensures d <= MAX_INT64 as real ==> d <= CeilToSUN(d) as real
    ensures MIN_INT64 as real <= d <= MAX_INT64 as real ==> (CeilToSUN(d) as real) < d + 1.0
    ensures d > MAX_INT64 as real ==> CeilToSUN(d) == MAX_INT64
    ensures d <= e ==> CeilToSUN(d) <= CeilToSUN(e)
  {
    CeilIsLeast(d, MAX_INT64);
    CeilIsLeast(e, MAX_INT64);
    if d <= e {
      CeilIsMonotone(d, e);
    }
  }

  lemma PriceIsNeverShort(amount: real, fee: Int64)
    ensures Times(amount, fee) <= Price(amount, fee) as real < Times(amount, fee) + 1.0
  {
    CeilIsLeast(Times(amount, fee), 0);
  }

  lemma PriceIsMonotone(x: real, y: real, fee: Int64)
    requires x <= y && 0 <= fee
    ensures Price(x, fee) <= Price(y, fee)
  {
    TimesIsMonotone(x, y, fee);
    CeilIsMonotone(Times(x, fee), Times(y, fee));
  }

  /** FromTRX and TRX undo each other, and FromTRX accepts exactly the amounts TRX can produce. */
  lemma TrxRoundTrip(s: Int64, trx: real)
    ensures FromTRX(TRX(s)) == Ok(s)
    ensures FromTRX(trx) == Ok(s) <==> trx == TRX(s)
  {
    assert TRX(s) * 1e6 == s as real;
  }

  lemma FromTRXRejectsIff(trx: real)
    ensures FromTRX(trx).Err? <==> forall s: Int64 :: trx != TRX(s)
  {
    if FromTRX(trx).Ok? {
      TrxRoundTrip(FromTRX(trx).value, trx);
    } else {
      forall s: Int64
        ensures trx != TRX(s)
      {
        TrxRoundTrip(s, trx);
      }
    }
  }
}

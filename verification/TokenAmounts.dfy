/** TRC20 token amounts in minimal units (pkg/units/units.go). */
module TokenAmounts {
  import opened Wrappers
  import opened Numerals

  const MAX_TOKEN_BYTES := 32
  const MAX_TOKEN_DECIMALS := 78

  datatype AmountError = Missing | Negative | TooWide | BadDecimals | TooFine

  datatype TokenAmount = TokenAmount(v: nat)

  /** big.Int.Bytes: big-endian, no leading zeros. */
  function Bytes(v: nat): seq<nat> {
    ToDigits(256, v)
  }

  function FromTokenUnits(units: Option<int>): Result<TokenAmount, AmountError> {
    match units
    case None => Err(Missing)
    case Some(v) =>
      if v < 0 then Err(Negative)
      else if |Bytes(v)| > MAX_TOKEN_BYTES then Err(TooWide)
      else Ok(TokenAmount(v))
  }

  function Power10(k: nat): (p: real)
    ensures p > 0.0
  {
    if k == 0 then 1.0 else Power10(k - 1) * 10.0
  }

  function Shift(x: real, places: nat): real {
    x * Power10(places)
  }

  function ShiftDown(x: real, places: nat): real {
    x / Power10(places)
  }

  function FromTokenDecimal(amount: real, decimals: int): Result<TokenAmount, AmountError> {
    if decimals < 0 || decimals > MAX_TOKEN_DECIMALS then Err(BadDecimals)
    else WholeUnits(Shift(amount, decimals))
  }

  function WholeUnits(scaled: real): Result<TokenAmount, AmountError> {
    if scaled.Floor as real != scaled then Err(TooFine)
    else FromTokenUnits(Some(scaled.Floor))
  }

  function Decimal(a: TokenAmount, decimals: nat): real {
    ShiftDown(a.v as real, decimals)
  }

  /** Accepted are exactly the uint256 values, and they are kept. */
  lemma FromTokenUnitsIsUint256(units: int)
    ensures FromTokenUnits(Some(units)).Ok? <==> 0 <= units < TWO_256
    ensures FromTokenUnits(Some(units)).Ok? ==> FromTokenUnits(Some(units)).value.v == units
  {
    if 0 <= units {
      FitsWord(units);
    }
  }

  lemma WholeUnitsAccepts(a: TokenAmount, scaled: real)
    requires a.v < TWO_256
    ensures WholeUnits(scaled) == Ok(a) <==> scaled == a.v as real
  {
    FromTokenUnitsIsUint256(a.v);
    if WholeUnits(scaled).Ok? {
      FromTokenUnitsIsUint256(scaled.Floor);
    }
  }

  lemma ShiftsUndoEachOther(x: real, y: real, places: nat)
    ensures Shift(ShiftDown(x, places), places) == x
    ensures ShiftDown(x, places) == y <==> x == Shift(y, places)
  {
    Cancel(x, y, Power10(places));
  }

  lemma Cancel(x: real, y: real, p: real)
    requires p > 0.0
    ensures x / p * p == x
    ensures x / p == y <==> x == y * p
  {
  }

  /** A token amount and its human-facing decimal determine each other, for every scale a token may have. */
  lemma TokenDecimalRoundTrip(a: TokenAmount, amount: real, decimals: nat)
    requires decimals <= MAX_TOKEN_DECIMALS && a.v < TWO_256
    ensures FromTokenDecimal(Decimal(a, decimals), decimals) == Ok(a)
    ensures FromTokenDecimal(amount, decimals) == Ok(a) <==> amount == Decimal(a, decimals)
  {
    ShiftsUndoEachOther(a.v as real, amount, decimals);
    WholeUnitsAccepts(a, Shift(amount, decimals));
    WholeUnitsAccepts(a, Shift(Decimal(a, decimals), decimals));
  }
}

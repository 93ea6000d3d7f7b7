/** Who pays for a transfer's energy and bandwidth, and how much (pkg/client/estimate_transfer.go). */
module TransferPricing {
  import opened Decimals
  import opened Sun

  datatype ResourceUsage = ResourceUsage(bandwidth: real, energy: real, contractEnergy: real)
  {
    /** The energy the sender is accountable for. */
    function SenderEnergy(): real {
      if energy <= 0.0 then 0.0
      else if contractEnergy >= energy then 0.0
      else energy - contractEnergy
    }
  }

  datatype SenderResources = SenderResources(freeBandwidth: real, stakedBandwidth: real, stakedEnergy: real)
  {
    predicate AtMost(other: SenderResources) {
      && freeBandwidth <= other.freeBandwidth
      && stakedBandwidth <= other.stakedBandwidth
      && stakedEnergy <= other.stakedEnergy
    }
  }

  datatype TransferCharges = TransferCharges(
    bandwidth: Int64, energy: Int64, accountCreation: Int64, unstakedCreation: Int64)
  {
    function Sum(): int {
      bandwidth + energy + accountCreation + unstakedCreation
    }

    /** Plain int64 addition, wrapping. */
    function Total(): Int64 {
      WrapInt64(WrapInt64(WrapInt64(bandwidth + energy) + accountCreation) + unstakedCreation)
    }
  }

  datatype ChainParams = ChainParams(
    energyFee: Int64, transactionFee: Int64, createNewAccountFeeInSystemContract: Int64, createAccountFee: Int64)
  {
    predicate NonNegative() {
      && 0 <= energyFee && 0 <= transactionFee
      && 0 <= createNewAccountFeeInSystemContract && 0 <= createAccountFee
    }
  }

  function BillableBandwidth(needed: real, staked: real, free: real): real {
    if needed <= 0.0 then 0.0
    else if needed <= staked || needed <= free then 0.0
    else needed
  }

  function BillableEnergy(needed: real, available: real): real {
    if needed <= 0.0 then 0.0
    else
      var available' := if available < 0.0 then 0.0 else available;
      if needed <= available' then 0.0 else needed - available'
  }

  predicate CreateAccountNeedsFee(needed: real, staked: real) {
    needed > staked
  }

  /** The owner's percentage of a call, clipped to 0..100; the subtraction is int64's. */
  function OwnerPercent(consumeUserResourcePercent: Int64): (p: int)
    ensures 0 <= p <= 100
  {
    var p := WrapInt64(100 - consumeUserResourcePercent);
    if p <= 0 then 0 else if p > 100 then 100 else p
  }

  function ContractEnergyShare(total: real, consumeUserResourcePercent: Int64, originEnergyLimit: Int64,
                               originAvailable: real): real
  {
    var ownerPercent := OwnerPercent(consumeUserResourcePercent);
    if total <= 0.0 || ownerPercent == 0 then 0.0
    else
      Capped(FlooredPercent(total, ownerPercent), OwnerLimit(originEnergyLimit, originAvailable))
  }

  /** The percentage is applied with a rounding division, then truncated. */
  function FlooredPercent(total: real, percent: int): int {
    Div(Times(total, percent), 100.0).Floor
  }

  function Capped(share: int, limit: real): real {
    if limit <= 0.0 then 0.0
    else if share as real > limit then limit
    else share as real
  }

  function OwnerLimit(originEnergyLimit: Int64, originAvailable: real): real {
    if originAvailable < originEnergyLimit as real then originAvailable else originEnergyLimit as real
  }

  /** A contract's settings and its owner's energy, as the estimator reads them from the node. */
  datatype Contract = Contract(origin: string, consumeUserResourcePercent: Int64, originEnergyLimit: Int64,
                               originAvailable: real)

  /** No owner on record and a call by the owner itself are billed to the caller in full. */
  function ContractEnergySubsidy(from: string, contract: Contract, total: real): real {
    if total <= 0.0 || contract.origin == "" || contract.origin == from then 0.0
    else ContractEnergyShare(total, contract.consumeUserResourcePercent, contract.originEnergyLimit, contract.originAvailable)
  }

  /** What a TRC20 transfer consumes: the node reports the energy as an int64. */
  function Trc20Usage(from: string, contract: Contract, bandwidth: real, energyUsed: Int64): ResourceUsage {
    ResourceUsage(bandwidth, energyUsed as real, ContractEnergySubsidy(from, contract, energyUsed as real))
  }

  function BilledEnergy(u: ResourceUsage, a: SenderResources): real {
    BillableEnergy(u.SenderEnergy(), a.stakedEnergy)
  }

  function BilledBandwidth(u: ResourceUsage, a: SenderResources): real {
    BillableBandwidth(u.bandwidth, a.stakedBandwidth, a.freeBandwidth)
  }

  function ChargesOf(p: ChainParams, u: ResourceUsage, a: SenderResources, createsAccount: bool): TransferCharges {
    var energy := ToSUN(BilledEnergy(u, a), p.energyFee);
    if createsAccount then
      TransferCharges(0, energy, p.createNewAccountFeeInSystemContract,
                      if CreateAccountNeedsFee(u.bandwidth, a.stakedBandwidth) then p.createAccountFee else 0)
    else
      TransferCharges(ToSUN(BilledBandwidth(u, a), p.transactionFee), energy, 0, 0)
  }

  method PriceTransfer(p: ChainParams, usage: ResourceUsage, available: SenderResources, createsAccount: bool)
    returns (charges: TransferCharges, fee: Int64)
    ensures charges == ChargesOf(p, usage, available, createsAccount)
    ensures fee == charges.Total()
    ensures charges.bandwidth == 0 || charges.accountCreation == charges.unstakedCreation == 0
  {
    charges := TransferCharges(0, 0, 0, 0);
    charges := charges.(energy := ToSUN(BillableEnergy(usage.SenderEnergy(), available.stakedEnergy), p.energyFee));
    if createsAccount {
      charges := charges.(accountCreation := p.createNewAccountFeeInSystemContract);
      if CreateAccountNeedsFee(usage.bandwidth, available.stakedBandwidth) {
        charges := charges.(unstakedCreation := p.createAccountFee);
      }
    } else {
      var billed := BillableBandwidth(usage.bandwidth, available.stakedBandwidth, available.freeBandwidth);
      charges := charges.(bandwidth := ToSUN(billed, p.transactionFee));
    }
    fee := charges.Total();
  }

  // ----- Where the energy goes -----

  function Min(x: real, y: real): real { if x <= y then x else y }

  function Max(x: real, y: real): real { if x <= y then y else x }

  /** The owner's part, the sender's staked part and the billed part add up to the energy exactly when the owner's part is no more than all of it. */
  lemma EnergySplitsThreeWaysIff(u: ResourceUsage, staked: real)
    ensures u.energy == u.contractEnergy + Min(u.SenderEnergy(), Max(0.0, staked)) + BillableEnergy(u.SenderEnergy(), staked)
       <==> (if u.energy > 0.0 then u.contractEnergy <= u.energy else u.contractEnergy == u.energy)
  {
  }

  /** On a whole number of energy units the owner's share is the integer formula, capped. */
  lemma WholeShare(total: nat, percent: Int64, limit: Int64, available: real)
    ensures ContractEnergyShare(total as real, percent, limit, available)
         == Capped(total * OwnerPercent(percent) / 100, OwnerLimit(limit, available))
  {
    WholePercent(total, OwnerPercent(percent));
  }

  lemma WholePercent(total: nat, p: int)
    requires 0 <= p <= 100
    ensures FlooredPercent(total as real, p) == total * p / 100
    ensures total == 0 || p == 0 ==> total * p / 100 == 0
    ensures 0 <= total * p / 100 <= total
  {
    PercentOf(total, p);
    WholeDivision(total * p);
    assert total as real * p as real == (total * p) as real;
  }

  lemma WholeDivision(n: nat)
    ensures Div(n as real, 100.0).Floor == n / 100
  {
    var m := n * 100000000000000;
    assert n as real / 100.0 == m as real / 1e16;
    Round16IsExact(m);
    var q, r := n / 100, n % 100;
    assert n as real / 100.0 == q as real + r as real / 100.0;
  }

  lemma PercentOf(total: nat, p: int)
    requires 0 <= p <= 100
    ensures 0 <= total * p / 100 <= total
    ensures total * p / 100 <= (total + 1) * p / 100 <= total * p / 100 + 1
  {
    assert (total + 1) * p == total * p + p;
    assert 0 <= total * p <= total * 100;
  }

  /** The owner never pays more than the call, its own energy or its per-call limit, and never less than nothing. */
  lemma OwnerPaysWithinBounds(from: string, contract: Contract, bandwidth: real, energyUsed: Int64)
    ensures var u := Trc20Usage(from, contract, bandwidth, energyUsed);
            && 0.0 <= u.contractEnergy <= Max(0.0, u.energy)
            && (0.0 < u.contractEnergy ==>
                  u.contractEnergy <= contract.originAvailable && u.contractEnergy <= contract.originEnergyLimit as real)
  {
    if 0 < energyUsed {
      WholeShare(energyUsed, contract.consumeUserResourcePercent, contract.originEnergyLimit, contract.originAvailable);
      PercentOf(energyUsed, OwnerPercent(contract.consumeUserResourcePercent));
    }
  }

  lemma Trc20EnergySplitsThreeWays(from: string, contract: Contract, bandwidth: real, energyUsed: Int64, staked: real)
    requires 0 <= energyUsed
    ensures var u := Trc20Usage(from, contract, bandwidth, energyUsed);
            u.energy == u.contractEnergy + Min(u.SenderEnergy(), Max(0.0, staked)) + BillableEnergy(u.SenderEnergy(), staked)
  {
    OwnerPaysWithinBounds(from, contract, bandwidth, energyUsed);
    EnergySplitsThreeWaysIff(Trc20Usage(from, contract, bandwidth, energyUsed), staked);
  }

  /**
    On a fractional total the division rounds before it is floored, so the owner can be charged
    more than the whole call: exactly when it pays all of it, its cap leaves room, and the total
    is within half a unit of the sixteenth decimal of the next whole number.
   */
  lemma ShareExceedsTotalIff(total: real, percent: Int64, limit: Int64, available: real)
    requires 0.0 < total
    ensures ContractEnergyShare(total, percent, limit, available) > total
       <==> && OwnerPercent(percent) == 100
            && OwnerLimit(limit, available) > total
            && total >= total.Floor as real + 1.0 - 5e-17
  {
    var p := OwnerPercent(percent);
    if 0 < p {
      FlooredShareExceedsTotalIff(total, p);
    }
  }

  lemma FlooredShareExceedsTotalIff(total: real, p: int)
    requires 0.0 < total && 0 < p <= 100
    ensures p < 100 ==> FlooredPercent(total, p) as real <= total
    ensures p == 100 ==> (FlooredPercent(total, p) as real > total <==> total >= total.Floor as real + 1.0 - 5e-17)
  {
    if p == 100 {
      assert total * p as real / 100.0 == total;
      FloorOfRounded(total);
    } else {
      ShareOfPart(total, p);
    }
  }

  lemma FloorOfRounded(x: real)
    requires 0.0 < x
    ensures Round16(x).Floor == if x >= x.Floor as real + 1.0 - 5e-17 then x.Floor + 1 else x.Floor
  {
    var n := x.Floor;
    var m := RoundHalfAway(x * 1e16);
    var next := (n + 1) * 10000000000000000;
    assert next as real == (n as real + 1.0) * 1e16;
    assert next as real - 1e16 == n as real * 1e16;
    assert m >= next - 10000000000000000;
    assert m <= next;
    assert m == next <==> x * 1e16 + 0.5 >= next as real;
    assert m as real / 1e16 >= n as real;
  }

  lemma ShareOfPart(total: real, p: int)
    requires 0.0 < total && 0 < p < 100
    ensures FlooredPercent(total, p) as real <= total
  {
    PartOf(total, p);
    FloorOfHundredth(Times(total, p), total);
  }

  lemma PartOf(total: real, p: int)
    requires 0.0 < total && 0 < p < 100
    ensures 0.0 < Times(total, p) <= total * 99.0
  {
    var x := p as real;
    ProductIsMonotone(x, 99.0, total);
    ProductIsMonotone(1.0, x, total);
    assert Times(total, p) == x * total;
  }

  lemma FloorOfHundredth(m: real, total: real)
    requires 0.0 < m <= total * 99.0
    ensures Div(m, 100.0).Floor as real <= total
  {
    Round16IsNear(m / 100.0);
    if total >= 1e-14 {
      assert Div(m, 100.0) <= total;
    } else {
      assert Div(m, 100.0) < 1.0;
      assert Div(m, 100.0).Floor <= 0;
    }
  }

  // ----- The fee -----

  /** The charges added up without bounds, each rounded up. */
  function ExactFee(p: ChainParams, u: ResourceUsage, a: SenderResources, createsAccount: bool): int {
    Price(BilledEnergy(u, a), p.energyFee) +
    if createsAccount then FlatFees(p, u, a) else Price(BilledBandwidth(u, a), p.transactionFee)
  }

  lemma PriceIsNonNegative(amount: real, fee: Int64)
    requires 0.0 <= amount && 0 <= fee
    ensures 0 <= Price(amount, fee)
  {
    PriceIsMonotone(0.0, amount, fee);
    assert Price(0.0, fee) == 0;
  }

  lemma SaturatedTotal(b: nat, e: nat, creation: nat, unstaked: nat)
    requires IsInt64(creation) && IsInt64(unstaked)
    ensures TransferCharges(Saturate(b), Saturate(e), creation, unstaked).Total() == b + e + creation + unstaked
       <==> b + e + creation + unstaked <= MAX_INT64
  {
    if b + e + creation + unstaked <= MAX_INT64 {
      WrapKeepsInt64(b + e);
      WrapKeepsInt64(b + e + creation);
      WrapKeepsInt64(b + e + creation + unstaked);
    }
  }

  /** The fee is the unbounded sum of the rounded-up charges exactly when that sum is an int64. */
  lemma FeeIsExactIff(p: ChainParams, u: ResourceUsage, a: SenderResources, createsAccount: bool)
    requires p.NonNegative()
    ensures ChargesOf(p, u, a, createsAccount).Total() == ExactFee(p, u, a, createsAccount)
       <==> ExactFee(p, u, a, createsAccount) <= MAX_INT64
  {
    var e, b := Price(BilledEnergy(u, a), p.energyFee), Price(BilledBandwidth(u, a), p.transactionFee);
    PriceIsNonNegative(BilledEnergy(u, a), p.energyFee);
    PriceIsNonNegative(BilledBandwidth(u, a), p.transactionFee);
    if createsAccount {
      SaturatedTotal(0, e, p.createNewAccountFeeInSystemContract,
                     if CreateAccountNeedsFee(u.bandwidth, a.stakedBandwidth) then p.createAccountFee else 0);
    } else {
      SaturatedTotal(b, e, 0, 0);
    }
  }

  /** One unit of energy at the highest fee and one byte: the int64 total wraps to the most negative fee. */
  lemma OverflowingFeeIsNegative()
    ensures var p, u := ChainParams(MAX_INT64, 1, 0, 0), ResourceUsage(1.0, 1.0, 0.0);
            var a := SenderResources(0.0, 0.0, 0.0);
            ExactFee(p, u, a, false) == MAX_INT64 + 1 && ChargesOf(p, u, a, false).Total() == MIN_INT64
  {
    assert Price(1.0, MAX_INT64) == MAX_INT64 && Price(1.0, 1) == 1;
  }

  /** What the billed energy and bandwidth are worth exactly, or the flat fees for creating an account. */
  function Owed(p: ChainParams, u: ResourceUsage, a: SenderResources, createsAccount: bool): real {
    Times(BilledEnergy(u, a), p.energyFee) +
    if createsAccount then FlatFees(p, u, a) as real else Times(BilledBandwidth(u, a), p.transactionFee)
  }

  function FlatFees(p: ChainParams, u: ResourceUsage, a: SenderResources): int {
    p.createNewAccountFeeInSystemContract
    + if CreateAccountNeedsFee(u.bandwidth, a.stakedBandwidth) then p.createAccountFee else 0
  }

  /** Nothing that leaves the account is under-reported, and less than two SUN are over-reported. */
  lemma FeeIsNeverShort(p: ChainParams, u: ResourceUsage, a: SenderResources, createsAccount: bool)
    requires p.NonNegative() && ExactFee(p, u, a, createsAccount) <= MAX_INT64
    ensures Owed(p, u, a, createsAccount) <= ChargesOf(p, u, a, createsAccount).Total() as real
          < Owed(p, u, a, createsAccount) + 2.0
  {
    var e, b := BilledEnergy(u, a), BilledBandwidth(u, a);
    FeeIsExactIff(p, u, a, createsAccount);
    PriceIsNeverShort(e, p.energyFee);
    PriceIsNeverShort(b, p.transactionFee);
    hide Price, BilledEnergy, BilledBandwidth, ChargesOf, Times;
    assert ExactFee(p, u, a, createsAccount)
        == Price(e, p.energyFee) + if createsAccount then FlatFees(p, u, a) else Price(b, p.transactionFee);
  }

  /** Billing the whole transaction is never cheaper than billing what the two pools together leave over. */
  lemma BandwidthBillCoversShortfall(needed: real, staked: real, free: real)
    ensures BillableBandwidth(needed, staked, free) >= needed - Max(0.0, staked) - Max(0.0, free)
    ensures BillableBandwidth(needed, staked, free) in {0.0, needed}
  {
  }

  lemma FeesCompare(p: ChainParams, u: ResourceUsage, u': ResourceUsage, a: SenderResources, a': SenderResources, c: bool)
    requires p.NonNegative()
    requires BilledEnergy(u, a) <= BilledEnergy(u', a') && BilledBandwidth(u, a) <= BilledBandwidth(u', a')
    requires CreateAccountNeedsFee(u.bandwidth, a.stakedBandwidth) ==> CreateAccountNeedsFee(u'.bandwidth, a'.stakedBandwidth)
    requires ExactFee(p, u', a', c) <= MAX_INT64
    ensures ChargesOf(p, u, a, c).Total() <= ChargesOf(p, u', a', c).Total()
  {
    PriceIsMonotone(BilledEnergy(u, a), BilledEnergy(u', a'), p.energyFee);
    PriceIsMonotone(BilledBandwidth(u, a), BilledBandwidth(u', a'), p.transactionFee);
    assert ExactFee(p, u, a, c) <= ExactFee(p, u', a', c);
    FeeIsExactIff(p, u, a, c);
    FeeIsExactIff(p, u', a', c);
  }

  /** The fee never rises when the sender has more of anything. */
  lemma MoreResourcesNeverCostMore(p: ChainParams, u: ResourceUsage, a: SenderResources, a': SenderResources, c: bool)
    requires p.NonNegative() && a.AtMost(a') && ExactFee(p, u, a, c) <= MAX_INT64
    ensures ChargesOf(p, u, a', c).Total() <= ChargesOf(p, u, a, c).Total()
  {
    FeesCompare(p, u, u, a', a, c);
  }

  /** The fee never falls when the transaction needs more, the owner's part unchanged. */
  lemma MoreUsageNeverCostsLess(p: ChainParams, u: ResourceUsage, u': ResourceUsage, a: SenderResources, c: bool)
    requires p.NonNegative() && ExactFee(p, u', a, c) <= MAX_INT64
    requires u.bandwidth <= u'.bandwidth && u.energy <= u'.energy && u'.contractEnergy <= u.contractEnergy
    ensures ChargesOf(p, u, a, c).Total() <= ChargesOf(p, u', a, c).Total()
  {
    FeesCompare(p, u, u', a, a, c);
  }

  /** ... nor when a TRC20 call needs more energy, although the owner's floored share grows with it. */
  lemma MoreCallEnergyNeverCostsLess(p: ChainParams, from: string, contract: Contract, bandwidth: real,
                                     energy: Int64, energy': Int64, a: SenderResources)
    requires p.NonNegative() && energy <= energy'
    requires ExactFee(p, Trc20Usage(from, contract, bandwidth, energy'), a, false) <= MAX_INT64
    ensures ChargesOf(p, Trc20Usage(from, contract, bandwidth, energy), a, false).Total()
         <= ChargesOf(p, Trc20Usage(from, contract, bandwidth, energy'), a, false).Total()
  {
    SenderEnergyIsMonotone(from, contract, bandwidth, energy, energy');
    FeesCompare(p, Trc20Usage(from, contract, bandwidth, energy), Trc20Usage(from, contract, bandwidth, energy'), a, a, false);
  }

  lemma {:induction false} SenderPercentIsMonotone(total: nat, total': nat, p: int)
    requires 0 <= p <= 100 && total <= total'
    ensures total * p / 100 <= total' * p / 100
    ensures total - total * p / 100 <= total' - total' * p / 100
    decreases total'
  {
    if total < total' {
      SenderPercentIsMonotone(total, total' - 1, p);
      PercentOf(total' - 1, p);
    }
  }

  lemma SenderEnergyIsMonotone(from: string, contract: Contract, bandwidth: real, energy: Int64, energy': Int64)
    requires energy <= energy'
    ensures Trc20Usage(from, contract, bandwidth, energy).SenderEnergy()
         <= Trc20Usage(from, contract, bandwidth, energy').SenderEnergy()
  {
    OwnerPaysWithinBounds(from, contract, bandwidth, energy);
    OwnerPaysWithinBounds(from, contract, bandwidth, energy');
    if 0 < energy {
      var percent, limit, available := contract.consumeUserResourcePercent, contract.originEnergyLimit, contract.originAvailable;
      WholeShare(energy, percent, limit, available);
      WholeShare(energy', percent, limit, available);
      SenderPercentIsMonotone(energy, energy', OwnerPercent(percent));
    }
  }

  /** The fee never rises when the contract's owner has more energy or a higher per-call limit. */
  lemma RicherOwnerNeverCostsMore(p: ChainParams, from: string, contract: Contract, contract': Contract, bandwidth: real,
                                  energy: Int64, a: SenderResources)
    requires p.NonNegative()
    requires contract'.origin == contract.origin
    requires contract'.consumeUserResourcePercent == contract.consumeUserResourcePercent
    requires contract.originEnergyLimit <= contract'.originEnergyLimit && contract.originAvailable <= contract'.originAvailable
    requires ExactFee(p, Trc20Usage(from, contract, bandwidth, energy), a, false) <= MAX_INT64
    ensures ChargesOf(p, Trc20Usage(from, contract', bandwidth, energy), a, false).Total()
         <= ChargesOf(p, Trc20Usage(from, contract, bandwidth, energy), a, false).Total()
  {
    hide ChargesOf, ExactFee, BilledEnergy, BilledBandwidth, Trc20Usage;
    var u, u' := Trc20Usage(from, contract, bandwidth, energy), Trc20Usage(from, contract', bandwidth, energy);
    RicherOwnerPaysMore(from, contract, contract', bandwidth, energy);
    LessEnergyIsBilled(u', u, a);
    FeesCompare(p, u', u, a, a, false);
  }

  lemma RicherOwnerPaysMore(from: string, contract: Contract, contract': Contract, bandwidth: real, energy: Int64)
    requires contract'.origin == contract.origin
    requires contract'.consumeUserResourcePercent == contract.consumeUserResourcePercent
    requires contract.originEnergyLimit <= contract'.originEnergyLimit && contract.originAvailable <= contract'.originAvailable
    ensures var u, u' := Trc20Usage(from, contract, bandwidth, energy), Trc20Usage(from, contract', bandwidth, energy);
            u.bandwidth == u'.bandwidth && u.energy == u'.energy && u.contractEnergy <= u'.contractEnergy
  {
    if 0 < energy {
      hide ContractEnergyShare, FlooredPercent;
      WholeShare(energy, contract.consumeUserResourcePercent, contract.originEnergyLimit, contract.originAvailable);
      WholeShare(energy, contract.consumeUserResourcePercent, contract'.originEnergyLimit, contract'.originAvailable);
    }
  }

  lemma LessEnergyIsBilled(u: ResourceUsage, u': ResourceUsage, a: SenderResources)
    requires u.bandwidth <= u'.bandwidth && u.energy <= u'.energy && u'.contractEnergy <= u.contractEnergy
    ensures BilledEnergy(u, a) <= BilledEnergy(u', a) && BilledBandwidth(u, a) <= BilledBandwidth(u', a)
  {
  }
}

/**
 * Sizing in plain sums of money: the cost of a round trip item by item, and the limits a sized quantity keeps,
 * without the functions that compute them.
 */
module SizingByNumbers {
  import opened Wrappers
  import opened RoundTripCharges
  import opened Sizing

  // --- charges --------------------------------------------------------------------------------------

  /**
   * Buying for `bought` and selling for `sold`: brokerage on both orders; transaction tax, exchange and
   * regulator fees on the turnover; stamp duty on the purchase; the depository's fee on the sale; and tax on
   * brokerage, exchange fees and - as the broker does - regulator and depository fees.
   */
  function CostOf(s: ChargeSchedule, bought: real, sold: real): real {
    var turnover, orders := bought + sold, 2.0 * s.brokeragePerOrder;
    var exchange, regulator := s.exchangeRate * turnover, s.sebiPerCrore * turnover / 10000000.0;
    var taxed := orders + exchange + (if s.gstOnSebi then regulator else 0.0) + if s.dpIncludesGst then
      0.0 else s.dpPerSell;
    orders + s.sttRate * turnover + exchange + regulator + s.stampRateBuy * bought + s.dpPerSell + s.gstRate * taxed
  }

  lemma Shared(rate: real, x: real, y: real)
    ensures rate * (x + y) == rate * x + rate * y
  {}

  /** Two sides, each with its taxes, make the round trip. */
  lemma SidesAdd(s: ChargeSchedule, bought: real, sold: real)
    ensures Side(s, bought, true) + Side(s, sold, false) == CostOf(s, bought, sold)
  {
    var dp := if s.dpIncludesGst then 0.0 else s.dpPerSell;
    var sebiBuy, sebiSell := s.sebiPerCrore * bought / CRORE, s.sebiPerCrore * sold / CRORE;
    var taxedBuy := s.brokeragePerOrder + s.exchangeRate * bought + (if s.gstOnSebi then sebiBuy else 0.0) + 0.0;
    var taxedSell := s.brokeragePerOrder + s.exchangeRate * sold + (if s.gstOnSebi then sebiSell else 0.0) + dp;
    Shared(s.exchangeRate, bought, sold);
    Shared(s.sttRate, bought, sold);
    Shared(s.sebiPerCrore, bought, sold);
    Shared(s.gstRate, taxedBuy, taxedSell);
  }

  /** What a round trip costs: nothing without shares, else the items above on what is bought and sold. */
  function TripCost(s: ChargeSchedule, quantity: int, entry: real, exit: real): real {
    if quantity <= 0 then 0.0 else CostOf(s, quantity as real * entry, quantity as real * exit)
  }

  lemma RoundTripIs(s: ChargeSchedule, quantity: int, entry: real, exit: real)
    ensures Total(RoundTrip(s, quantity, entry, exit)) == TripCost(s, quantity, entry, exit)
  {
    if quantity > 0 {
      SidesAdd(s, quantity as real * entry, quantity as real * exit);
    }
  }

  /** The published rates, by a worked example: 100 shares bought at 500 and sold at 450. */
  lemma WorkedCharges()
    ensures RoundTrip(ScheduleOf(Upstox), 100, 500.0, 450.0) == Charges(
      20.0 + 50.0 + 1.535 + 0.05 + 7.5 + 0.18 * (20.0 + 1.535),
      20.0 + 45.0 + 1.3815 + 0.045 + 20.0 + 0.18 * (20.0 + 1.3815 + 20.0))
    ensures RoundTrip(ScheduleOf(Dhan), 100, 500.0, 450.0) == Charges(
      50.0 + 1.534950 + 0.05 + 7.5 + 0.18 * (1.534950 + 0.05),
      45.0 + 1.3814550 + 0.045 + 12.5 + 0.18 * (1.3814550 + 0.045 + 12.5))
    ensures RoundTrip(ScheduleOf(Zerodha), 100, 500.0, 450.0) == Charges(
      50.0 + 1.535 + 0.05 + 7.5 + 0.18 * (1.535 + 0.05),
      45.0 + 1.3815 + 0.045 + 15.34 + 0.18 * (1.3815 + 0.045))
  {}

  // --- limits -----------------------------------------------------------------------------------------

  /** So many shares at so much each. */
  function Money(quantity: int, each: real): real {
    quantity as real * each
  }

  /** What the position loses when its stop is hit: the fall to the stop, and the round trip at its cost above. */
  function LossOf(spec: SizingInput, quantity: nat): real {
    Money(quantity, spec.entry - spec.stop) + Total(RoundTrip(spec.charges, quantity, spec.entry, spec.stop))
  }

  /** The part of the price paid with money of one's own, for every share. */
  function OwnMoney(quantity: int, entry: real, share: real): real {
    quantity as real * (entry * share)
  }

  lemma MoneyIs(quantity: int, each: real, money: real)
    ensures money == Times(quantity, each) <==> money == Money(quantity, each)
  {}

  lemma OwnMoneyIs(quantity: int, entry: real, share: real, used: real)
    ensures used == Times(quantity, entry * share) <==> used == OwnMoney(quantity, entry, share)
  {}

  lemma LossIs(spec: SizingInput, quantity: nat)
    ensures RiskCurve(spec)(quantity) == LossOf(spec, quantity)
  {
    MoneyIs(quantity, spec.entry - spec.stop, Times(quantity, spec.entry - spec.stop));
  }

  /**
   * A loss within the risk per trade - a percentage of the capital, or a sum - and within the heat left; money
   * of one's own within the percentage of the capital for one position, and within the free capital.
   */
  ghost predicate Keeps(spec: SizingInput, loss: real, own: real) {
    && (if spec.risk.mode.Percent? then 100.0 * loss <= spec.capital * spec.risk.value else loss <= spec.risk.value)
    && (spec.heatLeft.Some? ==> loss <= 0.0 || loss <= spec.heatLeft.value)
    && (own <= 0.0 || 100.0 * own <= spec.capital * spec.maxAllocationPct)
    && (spec.freeCapital.Some? ==> own <= 0.0 || own <= spec.freeCapital.value)
  }

  lemma Percent(x: real, capital: real, pct: real)
    ensures x <= capital * pct / 100.0 <==> 100.0 * x <= capital * pct
  {}

  lemma KeepsIs(spec: SizingInput, riskAt: int -> real, quantity: nat, own: real)
    requires own == Times(quantity, spec.entry * spec.ownShare)
    ensures FitsAll(spec, riskAt, quantity) <==> Keeps(spec, riskAt(quantity), own)
  {
    Percent(riskAt(quantity), spec.capital, spec.risk.value);
    Percent(own, spec.capital, spec.maxAllocationPct);
  }

  /** A sized quantity is a whole number of lots, and of these exactly the ones up to it keep every limit. */
  lemma SizedIs(spec: SizingInput, r: SizingResult, quantity: nat)
    requires NoRebates(spec.charges) && Answers(spec, Ok(r)) && spec.lotSize >= 1 && quantity % spec.lotSize == 0
    ensures r.quantity % spec.lotSize == 0
    ensures Keeps(spec, LossOf(spec, quantity), OwnMoney(quantity, spec.entry, spec.ownShare))
      <==> quantity <= r.quantity
  {
    var riskAt, loss := SomeCurve(spec, r, quantity);
    LargestIs(spec, riskAt, r, quantity, loss);
  }

  lemma SomeCurve(spec: SizingInput, r: SizingResult, quantity: nat) returns (riskAt: int -> real, loss: real)
    requires NoRebates(spec.charges) && Answers(spec, Ok(r)) && spec.lotSize >= 1
    ensures Found(spec, riskAt, true, r.quantity, r.limitedBy, r.allowed)
    ensures riskAt(quantity) == loss && loss == LossOf(spec, quantity)
  {
    riskAt, loss := RiskCurve(spec), LossOf(spec, quantity);
    LossAt(spec, riskAt, quantity);
  }

  lemma LossAt(spec: SizingInput, riskAt: int -> real, quantity: nat)
    requires riskAt == RiskCurve(spec)
    ensures riskAt(quantity) == LossOf(spec, quantity)
  {
    LossIs(spec, quantity);
  }

  lemma LargestIs(spec: SizingInput, riskAt: int -> real, r: SizingResult, quantity: nat, loss: real)
    requires spec.lotSize >= 1 && Found(spec, riskAt, true, r.quantity, r.limitedBy, r.allowed)
    requires riskAt(quantity) == loss && quantity % spec.lotSize == 0
    ensures r.quantity % spec.lotSize == 0
    ensures Keeps(spec, loss, OwnMoney(quantity, spec.entry, spec.ownShare)) <==> quantity <= r.quantity
  {
    LargestAt(spec, riskAt, r.quantity, quantity);
    var own := OwnMoney(quantity, spec.entry, spec.ownShare);
    OwnMoneyIs(quantity, spec.entry, spec.ownShare, own);
    KeepsIs(spec, riskAt, quantity, own);
  }

  lemma LargestAt(spec: SizingInput, riskAt: int -> real, most: nat, quantity: nat)
    requires spec.lotSize >= 1 && Largest(spec, riskAt, most) && quantity % spec.lotSize == 0
    ensures FitsAll(spec, riskAt, quantity) <==> quantity <= most
  {
    Remainder(quantity, spec.lotSize);
    var lots: nat := quantity / spec.lotSize;
    assert Shares(lots, spec.lotSize) == quantity;
  }

  /** One limit alone. */
  ghost predicate KeepsOne(spec: SizingInput, limit: Limit, loss: real, own: real) {
    match limit
    case Risk => if spec.risk.mode.Percent? then
      100.0 * loss <= spec.capital * spec.risk.value else loss <= spec.risk.value
    case Heat => spec.heatLeft.Some? ==> loss <= 0.0 || loss <= spec.heatLeft.value
    case Allocation => own <= 0.0 || 100.0 * own <= spec.capital * spec.maxAllocationPct
    case FreeCapital => spec.freeCapital.Some? ==> own <= 0.0 || own <= spec.freeCapital.value
  }

  lemma KeepsOneIs(spec: SizingInput, riskAt: int -> real, limit: Limit, quantity: nat, own: real)
    requires own == Times(quantity, spec.entry * spec.ownShare)
    ensures Fits(spec, riskAt, limit, quantity) <==> KeepsOne(spec, limit, riskAt(quantity), own)
  {
    Percent(riskAt(quantity), spec.capital, spec.risk.value);
    Percent(own, spec.capital, spec.maxAllocationPct);
  }

  /** The quantity each limit allows on its own: of the whole lots, exactly the ones up to it keep that limit. */
  lemma LimitIs(spec: SizingInput, r: SizingResult, limit: Limit, quantity: nat)
    requires NoRebates(spec.charges) && Answers(spec, Ok(r)) && spec.lotSize >= 1 && quantity % spec.lotSize == 0
    requires limit in r.allowed
    ensures r.allowed[limit] % spec.lotSize == 0
    ensures KeepsOne(spec, limit, LossOf(spec, quantity), OwnMoney(quantity, spec.entry, spec.ownShare))
      <==> quantity <= r.allowed[limit]
  {
    var riskAt, loss := SomeCurve(spec, r, quantity);
    AllowedIs(spec, riskAt, limit, r.allowed[limit], quantity, loss);
  }

  lemma AllowedIs(spec: SizingInput, riskAt: int -> real, limit: Limit, most: nat, quantity: nat, loss: real)
    requires spec.lotSize >= 1 && Allows(spec, riskAt, true, limit, most)
    requires riskAt(quantity) == loss && quantity % spec.lotSize == 0
    ensures KeepsOne(spec, limit, loss, OwnMoney(quantity, spec.entry, spec.ownShare)) <==> quantity <= most
  {
    var own := OwnMoney(quantity, spec.entry, spec.ownShare);
    OwnMoneyIs(quantity, spec.entry, spec.ownShare, own);
    JustUpToAt(spec, riskAt, limit, most, quantity);
    KeepsOneIs(spec, riskAt, limit, quantity, own);
  }

  lemma JustUpToAt(spec: SizingInput, riskAt: int -> real, limit: Limit, most: nat, quantity: nat)
    requires spec.lotSize >= 1 && JustUpTo(spec, riskAt, limit, most) && quantity % spec.lotSize == 0
    ensures Fits(spec, riskAt, limit, quantity) <==> quantity <= most
  {
    Remainder(quantity, spec.lotSize);
    var lots: nat := quantity / spec.lotSize;
    assert Shares(lots, spec.lotSize) == quantity;
  }

  /**
   * An entry for each limit there is. The quantity is the smallest of them; of equals, risk comes before heat,
   * allocation and free capital.
   */
  ghost predicate Binding(allowed: map<Limit, nat>, quantity: nat, limitedBy: Limit, heat: bool, free: bool) {
    && Risk in allowed && Allocation in allowed && (Heat in allowed <==> heat) && (FreeCapital in allowed <==> free)
    && limitedBy in allowed && allowed[limitedBy] == quantity
    && (forall limit :: limit in allowed ==> quantity <= allowed[limit])
    && (!limitedBy.Risk? ==> quantity < allowed[Risk])
    && (!limitedBy.Risk? && !limitedBy.Heat? && heat ==> quantity < allowed[Heat])
    && (limitedBy.FreeCapital? ==> quantity < allowed[Allocation])
  }

  lemma FoundBinding(spec: SizingInput, riskAt: int -> real, grows: bool, quantity: nat, limitedBy: Limit,
      allowed: map<Limit, nat>)
    requires spec.lotSize >= 1 && Found(spec, riskAt, grows, quantity, limitedBy, allowed)
    ensures Binding(allowed, quantity, limitedBy, spec.heatLeft.Some?, spec.freeCapital.Some?)
  {}

  lemma BindingIs(spec: SizingInput, r: SizingResult)
    requires Answers(spec, Ok(r)) && spec.lotSize >= 1
    ensures Binding(r.allowed, r.quantity, r.limitedBy, spec.heatLeft.Some?, spec.freeCapital.Some?)
  {
    FoundBinding(spec, RiskCurve(spec), NoRebates(spec.charges), r.quantity, r.limitedBy, r.allowed);
  }

  /** The figures beside the quantity, in the same terms. */
  lemma ValueIs(spec: SizingInput, r: SizingResult)
    requires Figures(spec, r)
    ensures r.positionValue == Money(r.quantity, spec.entry)
  {
    MoneyIs(r.quantity, spec.entry, r.positionValue);
  }

  lemma CapitalUsedIs(spec: SizingInput, r: SizingResult)
    requires Figures(spec, r)
    ensures r.capitalUsed == OwnMoney(r.quantity, spec.entry, spec.ownShare)
  {
    OwnMoneyIs(r.quantity, spec.entry, spec.ownShare, r.capitalUsed);
  }

  lemma LossAtStopIs(spec: SizingInput, r: SizingResult)
    requires Figures(spec, r)
    ensures r.lossAtStop + Total(r.charges) == LossOf(spec, r.quantity)
  {
    LossIs(spec, r.quantity);
  }
}

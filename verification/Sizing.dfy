/** src/swingdash/domain/risk/sizing.py: the largest position within the limits of risk and capital. */
module Sizing {
  import opened Wrappers
  import opened RoundTripCharges

  datatype RiskMode = Percent | Amount

  datatype RiskSpec = RiskSpec(mode: RiskMode, value: real)

  function AmountOf(risk: RiskSpec, capital: real): real {
    if risk.mode.Percent? then capital * risk.value / 100.0 else risk.value
  }

  /** Of several that bind together, the earlier one here is reported. */
  datatype Limit = Risk | Heat | Allocation | FreeCapital

  const LIMITS: seq<Limit> := [Risk, Heat, Allocation, FreeCapital]

  /** `ownShare`: what part of the value is one's own money. */
  datatype SizingInput = SizingInput(
    capital: real,
    risk: RiskSpec,
    entry: real,
    stop: real,
    maxAllocationPct: real,
    freeCapital: Option<real>,
    heatLeft: Option<real>,
    lotSize: int,
    charges: ChargeSchedule,
    ownShare: real)

  datatype SizingResult = SizingResult(
    quantity: nat,
    entry: real,
    stop: real,
    capital: real,
    positionValue: real,
    capitalUsed: real,
    lossAtStop: real,
    charges: Charges,
    riskBudget: real,
    limitedBy: Limit,
    allowed: map<Limit, nat>)

  datatype RiskInputError = CapitalNotSet | RiskNotPositive | StopOutOfRange | LotTooSmall

  function InputError(spec: SizingInput): (error: Option<RiskInputError>)
    ensures error.None? <==>
      0.0 < spec.capital && 0.0 < spec.risk.value && 0.0 < spec.stop < spec.entry && 1 <= spec.lotSize
    ensures error == Some(CapitalNotSet) <==> spec.capital <= 0.0
    ensures error == Some(LotTooSmall) ==> spec.lotSize < 1
    ensures error == Some(StopOutOfRange) ==> spec.stop <= 0.0 || spec.entry <= spec.stop
    ensures error == Some(RiskNotPositive) ==> spec.risk.value <= 0.0
  {
    if spec.capital <= 0.0 then Some(CapitalNotSet)
    else if spec.risk.value <= 0.0 then Some(RiskNotPositive)
    else if !(0.0 < spec.stop < spec.entry) then Some(StopOutOfRange)
    else if spec.lotSize < 1 then Some(LotTooSmall)
    else None
  }

  /** The inputs that can be sized. */
  predicate Checked(spec: SizingInput) {
    InputError(spec).None? && 0.0 < spec.ownShare
  }

  /** ... with charges that are charges. */
  predicate Sizable(spec: SizingInput) {
    Checked(spec) && NoRebates(spec.charges)
  }

  function Times(quantity: int, each: real): real {
    quantity as real * each
  }

  function HasLimit(spec: SizingInput, limit: Limit): bool {
    match limit
    case Heat => spec.heatLeft.Some?
    case FreeCapital => spec.freeCapital.Some?
    case _ => true
  }

  /** The sum a limit keeps to; nothing is left of one that is already overdrawn. */
  function Budget(spec: SizingInput, limit: Limit): real
    requires HasLimit(spec, limit)
  {
    match limit
    case Risk => AmountOf(spec.risk, spec.capital)
    case Heat => MaxReal(0.0, spec.heatLeft.value)
    case Allocation => MaxReal(0.0, spec.capital * spec.maxAllocationPct / 100.0)
    case FreeCapital => MaxReal(0.0, spec.freeCapital.value)
  }

  /** `lots` whole lots, in shares. */
  function Shares(lots: int, lot: pos): int {
    lots * lot
  }

  lemma AtLeastOneLot(lots: int, lot: pos)
    requires lots >= 1
    ensures lots * lot >= lot
  {
    assert (lots - 1) * lot >= 0;
  }

  lemma Apart(a: int, b: int, lot: pos)
    ensures (a - b) * lot == Shares(a, lot) - Shares(b, lot)
  {}

  lemma SharesOrder(a: int, b: int, lot: pos)
    ensures a <= b <==> Shares(a, lot) <= Shares(b, lot)
  {
    if a < b {
      Apart(b, a, lot);
      AtLeastOneLot(b - a, lot);
    } else if b < a {
      Apart(a, b, lot);
      AtLeastOneLot(a - b, lot);
    }
  }

  lemma Remainder(shares: int, lot: pos)
    ensures shares == Shares(shares / lot, lot) + shares % lot
  {}

  /** Whole lots divide evenly. */
  lemma LotsOfShares(lots: int, lot: pos)
    ensures Shares(lots, lot) / lot == lots && Shares(lots, lot) % lot == 0
  {
    var shares := Shares(lots, lot);
    var k := shares / lot;
    Remainder(shares, lot);
    Apart(lots, k, lot);
    if lots > k {
      AtLeastOneLot(lots - k, lot);
    } else if lots < k {
      Apart(k, lots, lot);
      AtLeastOneLot(k - lots, lot);
    }
  }

  // --- the two searches ------------------------------------------------------------------------------

  /** Python's `math.floor(shares / lot)`, no less than zero. */
  function LotsIn(shares: real, lot: pos): nat {
    Max(0, (shares / lot as real).Floor)
  }

  function WholeLots(shares: real, lot: pos): int {
    Shares(LotsIn(shares, lot), lot)
  }

  lemma Quotient(x: real, y: real, k: real)
    requires 0.0 < y
    ensures k <= x / y <==> k * y <= x
  {
    var q := x / y;
    assert q * y == x;
    if k <= q {
      Product(q - k, y);
    } else {
      assert 0.0 < (k - q) * y;
    }
  }

  /** Whole lots are exactly the lots that fit. */
  lemma WholeLotsExact(shares: real, lot: pos, lots: nat)
    requires 0.0 <= shares
    ensures lots <= LotsIn(shares, lot) <==> Shares(lots, lot) as real <= shares
  {
    Quotient(shares, lot as real, lots as real);
    Quotient(shares, lot as real, 0.0);
  }

  lemma MoreShares(a: int, b: int, each: real)
    requires a <= b && 0.0 <= each
    ensures Times(a, each) <= Times(b, each)
  {
    Product((b - a) as real, each);
  }

  // --- the search under charges ---------------------------------------------------------------------------

  /** A risk that only grows with the quantity and is never below the risk without charges. */
  ghost predicate Grows(riskAt: int -> real, perShare: real) {
    && riskAt(0) == 0.0
    && (forall a: nat, b: nat :: a <= b ==> riskAt(a) <= riskAt(b))
    && (forall q: nat :: Times(q, perShare) <= riskAt(q))
  }

  /** No lots beyond the budget without charges can fit it with them. */
  lemma BeyondBudget(budget: real, riskAt: int -> real, perShare: real, lot: pos, lots: nat)
    requires 0.0 <= budget && 0.0 < perShare && Grows(riskAt, perShare)
    requires lots > LotsIn(budget / perShare, lot)
    ensures riskAt(Shares(lots, lot)) > budget
  {
    var shares: nat := Shares(lots, lot) by {
      SharesOrder(0, lots, lot);
    }
    Quotient(budget, perShare, 0.0);
    WholeLotsExact(budget / perShare, lot, lots);
    Quotient(budget, perShare, shares as real);
    assert Times(shares, perShare) <= riskAt(shares);
  }

  /** More lots than these do not fit. */
  ghost predicate NoneFits(budget: real, riskAt: int -> real, lot: pos, lots: int) {
    forall m: nat :: lots < m ==> riskAt(Shares(m, lot)) > budget
  }

  /** When this many lots do not fit, no more do. */
  lemma TooMany(budget: real, riskAt: int -> real, perShare: real, lot: pos, lots: nat)
    requires Grows(riskAt, perShare) && riskAt(Shares(lots, lot)) > budget
    ensures NoneFits(budget, riskAt, lot, lots - 1)
  {
    forall m: nat | lots - 1 < m ensures riskAt(Shares(m, lot)) > budget {
      SharesOrder(0, lots, lot);
      SharesOrder(lots, m, lot);
    }
  }

  /** When this many lots fit and no more do, just the lots up to them fit. */
  lemma JustThese(budget: real, riskAt: int -> real, perShare: real, lot: pos, lots: nat)
    requires Grows(riskAt, perShare) && riskAt(Shares(lots, lot)) <= budget && NoneFits(budget, riskAt, lot, lots)
    ensures forall m: nat :: riskAt(Shares(m, lot)) <= budget <==> Shares(m, lot) <= Shares(lots, lot)
  {
    forall m: nat ensures riskAt(Shares(m, lot)) <= budget <==> Shares(m, lot) <= Shares(lots, lot) {
      SharesOrder(0, m, lot);
      SharesOrder(0, lots, lot);
      SharesOrder(m, lots, lot);
    }
  }

  /** Bisects for the most whole lots that, with what trading them costs, risk no more than the budget. */
  method MostLots(budget: real, riskAt: int -> real, perShare: real, lot: pos, ghost grows: bool)
    returns (quantity: nat)
    requires 0.0 <= budget && 0.0 < perShare && FromNothing(riskAt)
    requires grows ==> Grows(riskAt, perShare)
    ensures quantity % lot == 0 && riskAt(quantity) <= budget
    ensures grows ==>
      forall m: nat :: riskAt(Shares(m, lot)) <= budget <==> Shares(m, lot) <= quantity
  {
    var low, high := 0, WholeLots(budget / perShare, lot) / lot;
    LotsOfShares(LotsIn(budget / perShare, lot), lot);
    if grows {
      forall m: nat | high < m ensures riskAt(Shares(m, lot)) > budget {
        BeyondBudget(budget, riskAt, perShare, lot, m);
      }
    }
    while low < high
      invariant 0 <= low <= high
      invariant riskAt(Shares(low, lot)) <= budget
      invariant grows ==> NoneFits(budget, riskAt, lot, high)
    {
      var middle := (low + high + 1) / 2;
      if riskAt(Shares(middle, lot)) <= budget {
        low := middle;
      } else {
        if grows {
          TooMany(budget, riskAt, perShare, lot, middle);
        }
        high := middle - 1;
      }
    }
    SharesOrder(0, low, lot);
    LotsOfShares(low, lot);
    quantity := Shares(low, lot);
    if grows {
      JustThese(budget, riskAt, perShare, lot, low);
    }
  }

  /** Whole lots of capital: exactly the lots whose capital fits. */
  method LotsWithin(budget: real, perShare: real, lot: pos) returns (quantity: nat)
    requires 0.0 <= budget && 0.0 < perShare
    ensures quantity % lot == 0 && Times(quantity, perShare) <= budget
    ensures forall m: nat :: Times(Shares(m, lot), perShare) <= budget <==> Shares(m, lot) <= quantity
  {
    var most := LotsIn(budget / perShare, lot);
    SharesOrder(0, most, lot);
    LotsOfShares(most, lot);
    quantity := WholeLots(budget / perShare, lot);
    Quotient(budget, perShare, 0.0);
    forall m: nat ensures Times(Shares(m, lot), perShare) <= budget <==> Shares(m, lot) <= quantity {
      WholeLotsExact(budget / perShare, lot, m);
      Quotient(budget, perShare, Shares(m, lot) as real);
      SharesOrder(m, most, lot);
    }
  }

  // --- the risk of a position ---------------------------------------------------------------------------

  /** By quantity: the loss down to the stop and the cost of the round trip. */
  function RiskCurve(spec: SizingInput): int -> real {
    q => Times(q, spec.entry - spec.stop) + Total(RoundTrip(spec.charges, q, spec.entry, spec.stop))
  }

  function CostCurve(perShare: real, jump: real, each: real): int -> real {
    q => Times(q, perShare) + Cost(jump, each, q)
  }

  lemma CostCurveGrows(perShare: real, jump: real, each: real)
    requires 0.0 <= perShare && 0.0 <= jump && 0.0 <= each
    ensures Grows(CostCurve(perShare, jump, each), perShare)
  {
    var curve := CostCurve(perShare, jump, each);
    forall a: nat, b: nat | a <= b ensures curve(a) <= curve(b) {
      MoreShares(a, b, perShare);
      CostMonotone(jump, each, a, b);
    }
    forall q: nat ensures Times(q, perShare) <= curve(q) {
      CostMonotone(jump, each, 0, q);
    }
  }

  lemma GrowsSame(f: int -> real, g: int -> real, perShare: real)
    requires (forall q :: f(q) == g(q)) && Grows(g, perShare)
    ensures Grows(f, perShare)
  {}

  lemma SameRisk(loss: real, charges: real, cost: real, risk: real, curve: real)
    requires risk == loss + charges && curve == loss + cost && charges == cost
    ensures risk == curve
  {}

  lemma RiskCurveIsCost(spec: SizingInput, jump: real, each: real, q: int)
    requires jump == Jump(spec.charges) && each == PerShare(spec.charges, spec.entry, spec.stop)
    ensures RiskCurve(spec)(q) == CostCurve(spec.entry - spec.stop, jump, each)(q)
  {
    RoundTripIsAffine(spec.charges, q, spec.entry, spec.stop);
    SameRisk(
      Times(q, spec.entry - spec.stop), Total(RoundTrip(spec.charges, q, spec.entry, spec.stop)), Cost(jump, each, q),
      RiskCurve(spec)(q), CostCurve(spec.entry - spec.stop, jump, each)(q));
  }

  ghost predicate FromNothing(riskAt: int -> real) {
    riskAt(0) == 0.0
  }

  lemma NothingLost(each: real, charges: Charges, risk: real)
    requires risk == Times(0, each) + Total(charges) && charges == Charges(0.0, 0.0)
    ensures risk == 0.0
  {}

  /** Without shares there is no risk, whatever the charges. */
  lemma NothingAtRisk(spec: SizingInput)
    ensures FromNothing(RiskCurve(spec))
  {
    NothingLost(spec.entry - spec.stop, RoundTrip(spec.charges, 0, spec.entry, spec.stop), RiskCurve(spec)(0));
  }

  lemma RiskCurveGrows(spec: SizingInput)
    requires NoRebates(spec.charges) && 0.0 < spec.stop < spec.entry
    ensures Grows(RiskCurve(spec), spec.entry - spec.stop)
  {
    var jump, each := Jump(spec.charges), PerShare(spec.charges, spec.entry, spec.stop);
    forall q ensures RiskCurve(spec)(q) == CostCurve(spec.entry - spec.stop, jump, each)(q) {
      RiskCurveIsCost(spec, jump, each, q);
    }
    PerShareNonNegative(spec.charges, spec.entry, spec.stop);
    CostCurveGrows(spec.entry - spec.stop, jump, each);
    GrowsSame(RiskCurve(spec), CostCurve(spec.entry - spec.stop, jump, each), spec.entry - spec.stop);
  }

  // --- the limits ---------------------------------------------------------------------------------------------

  /** `quantity` shares keep the limit, when there is one. */
  predicate Fits(spec: SizingInput, riskAt: int -> real, limit: Limit, quantity: int) {
    HasLimit(spec, limit) ==>
      (if limit.Risk? || limit.Heat? then riskAt(quantity) else Times(quantity, spec.entry * spec.ownShare))
      <= Budget(spec, limit)
  }

  predicate FitsAll(spec: SizingInput, riskAt: int -> real, quantity: int) {
    && Fits(spec, riskAt, Risk, quantity)
    && Fits(spec, riskAt, Heat, quantity)
    && Fits(spec, riskAt, Allocation, quantity)
    && Fits(spec, riskAt, FreeCapital, quantity)
  }

  /**
   * `most` is a whole number of lots that keeps the limit, and just the lots up to it do: for a risk limit,
   * when the risk `grows` with the quantity.
   */
  ghost predicate Allows(spec: SizingInput, riskAt: int -> real, grows: bool, limit: Limit, most: nat)
    requires spec.lotSize >= 1
  {
    && most % spec.lotSize == 0 && Fits(spec, riskAt, limit, most)
    && (grows || !(limit.Risk? || limit.Heat?) ==> JustUpTo(spec, riskAt, limit, most))
  }

  ghost predicate JustUpTo(spec: SizingInput, riskAt: int -> real, limit: Limit, most: nat)
    requires spec.lotSize >= 1
  {
    (forall m: nat :: Fits(spec, riskAt, limit, Shares(m, spec.lotSize)) <==> Shares(m, spec.lotSize) <= most)
  }

  function Rank(limit: Limit): nat {
    match limit
    case Risk => 0
    case Heat => 1
    case Allocation => 2
    case FreeCapital => 3
  }

  /** One entry for each limit there is. */
  ghost predicate AllowedFor(spec: SizingInput, riskAt: int -> real, grows: bool, allowed: map<Limit, nat>)
    requires spec.lotSize >= 1
  {
    && (forall limit: Limit :: limit in allowed <==> HasLimit(spec, limit))
    && (forall limit :: limit in allowed ==> Allows(spec, riskAt, grows, limit, allowed[limit]))
  }

  lemma BudgetNonNegative(spec: SizingInput, limit: Limit)
    requires InputError(spec).None? && HasLimit(spec, limit)
    ensures 0.0 <= Budget(spec, limit)
  {
    if limit.Risk? && spec.risk.mode.Percent? {
      Product(spec.capital, spec.risk.value);
    }
  }

  method AllowedByRisk(spec: SizingInput, riskAt: int -> real, ghost grows: bool, limit: Limit) returns (most: nat)
    requires Checked(spec) && FromNothing(riskAt) && (grows ==> Grows(riskAt, spec.entry - spec.stop))
    requires HasLimit(spec, limit) && (limit.Risk? || limit.Heat?)
    ensures Allows(spec, riskAt, grows, limit, most)
  {
    BudgetNonNegative(spec, limit);
    most := MostLots(Budget(spec, limit), riskAt, spec.entry - spec.stop, spec.lotSize, grows);
  }

  method AllowedByCapital(spec: SizingInput, ghost riskAt: int -> real, ghost grows: bool, limit: Limit)
    returns (most: nat)
    requires Checked(spec)
    requires HasLimit(spec, limit) && !(limit.Risk? || limit.Heat?)
    ensures Allows(spec, riskAt, grows, limit, most)
  {
    BudgetNonNegative(spec, limit);
    Product(spec.entry, spec.ownShare);
    most := LotsWithin(Budget(spec, limit), spec.entry * spec.ownShare, spec.lotSize);
  }

  method AllowedQuantities(spec: SizingInput, riskAt: int -> real, ghost grows: bool) returns (allowed: map<Limit, nat>)
    requires Checked(spec) && FromNothing(riskAt) && (grows ==> Grows(riskAt, spec.entry - spec.stop))
    ensures AllowedFor(spec, riskAt, grows, allowed)
  {
    var byRisk := AllowedByRisk(spec, riskAt, grows, Risk);
    allowed := map[Risk := byRisk];
    if spec.heatLeft.Some? {
      var byHeat := AllowedByRisk(spec, riskAt, grows, Heat);
      allowed := allowed[Heat := byHeat];
    }
    var byAllocation := AllowedByCapital(spec, riskAt, grows, Allocation);
    allowed := allowed[Allocation := byAllocation];
    if spec.freeCapital.Some? {
      var byFree := AllowedByCapital(spec, riskAt, grows, FreeCapital);
      allowed := allowed[FreeCapital := byFree];
    }
  }

  /** The smallest allowed quantity, and the first limit in declared order that allows no more. */
  method Tightest(allowed: map<Limit, nat>) returns (quantity: nat, limitedBy: Limit)
    requires Risk in allowed
    ensures limitedBy in allowed && allowed[limitedBy] == quantity
    ensures forall limit :: limit in allowed ==> quantity <= allowed[limit]
    ensures forall limit :: limit in allowed && Rank(limit) < Rank(limitedBy) ==> quantity < allowed[limit]
  {
    quantity, limitedBy := allowed[Risk], Risk;
    for i := 1 to |LIMITS|
      invariant limitedBy in allowed && allowed[limitedBy] == quantity
      invariant forall limit :: limit in allowed && Rank(limit) < i ==> quantity <= allowed[limit]
      invariant forall limit :: limit in allowed && Rank(limit) < Rank(limitedBy) ==> quantity < allowed[limit]
    {
      assert Rank(LIMITS[i]) == i;
      assert forall limit: Limit :: Rank(limit) == i ==> limit == LIMITS[i];
      if LIMITS[i] in allowed && allowed[LIMITS[i]] < quantity {
        quantity, limitedBy := allowed[LIMITS[i]], LIMITS[i];
      }
    }
  }

  // --- the sizing ---------------------------------------------------------------------------------------------

  /**
   * The quantity divides into lots; of everything that does, exactly what is no larger keeps every limit
   * at once.
   */
  ghost predicate Largest(spec: SizingInput, riskAt: int -> real, quantity: nat)
    requires spec.lotSize >= 1
  {
    && quantity % spec.lotSize == 0
    && (forall m: nat :: FitsAll(spec, riskAt, Shares(m, spec.lotSize)) <==> Shares(m, spec.lotSize) <= quantity)
  }

  lemma TightestIsLargest(spec: SizingInput, riskAt: int -> real, allowed: map<Limit, nat>, quantity: nat,
      limitedBy: Limit)
    requires spec.lotSize >= 1 && AllowedFor(spec, riskAt, true, allowed)
    requires limitedBy in allowed && allowed[limitedBy] == quantity
    requires forall limit :: limit in allowed ==> quantity <= allowed[limit]
    ensures Largest(spec, riskAt, quantity)
  {
    forall m: nat
      ensures FitsAll(spec, riskAt, Shares(m, spec.lotSize)) <==> Shares(m, spec.lotSize) <= quantity
    {
      var shares := Shares(m, spec.lotSize);
      assert forall limit :: limit in allowed ==> JustUpTo(spec, riskAt, limit, allowed[limit]);
      if FitsAll(spec, riskAt, shares) {
        assert Fits(spec, riskAt, limitedBy, shares);
      } else {
        var broken := if !Fits(spec, riskAt, Risk, shares) then Risk
          else if !Fits(spec, riskAt, Heat, shares) then Heat
          else if !Fits(spec, riskAt, Allocation, shares) then Allocation
          else FreeCapital;
        assert HasLimit(spec, broken) && broken in allowed;
      }
    }
  }

  /** The first limit that allows no more than `quantity`. */
  ghost predicate FirstBinding(allowed: map<Limit, nat>, quantity: nat, limitedBy: Limit) {
    && limitedBy in allowed && allowed[limitedBy] == quantity
    && (forall limit :: limit in allowed ==> quantity <= allowed[limit])
    && (forall limit :: limit in allowed && Rank(limit) < Rank(limitedBy) ==> quantity < allowed[limit])
  }

  /** What the search finds: the largest quantity, when the risk `grows` with it, and the limit that binds. */
  ghost predicate Found(
      spec: SizingInput, riskAt: int -> real, grows: bool, quantity: nat, limitedBy: Limit, allowed: map<Limit, nat>)
    requires spec.lotSize >= 1
  {
    && (grows ==> Largest(spec, riskAt, quantity))
    && AllowedFor(spec, riskAt, grows, allowed)
    && FirstBinding(allowed, quantity, limitedBy)
  }

  /** The whole search, for any risk that starts from nothing. */
  method Size(spec: SizingInput, riskAt: int -> real, ghost grows: bool)
    returns (quantity: nat, limitedBy: Limit, allowed: map<Limit, nat>)
    requires Checked(spec) && FromNothing(riskAt) && (grows ==> Grows(riskAt, spec.entry - spec.stop))
    ensures Found(spec, riskAt, grows, quantity, limitedBy, allowed)
  {
    allowed := AllowedQuantities(spec, riskAt, grows);
    quantity, limitedBy := Tightest(allowed);
    if grows {
      TightestIsLargest(spec, riskAt, allowed, quantity, limitedBy);
    }
  }

  /** The figures beside the quantity: its value, the capital it ties up and what its stop loses. */
  ghost predicate Figures(spec: SizingInput, r: SizingResult) {
    && r.entry == spec.entry && r.stop == spec.stop && r.capital == spec.capital
    && r.positionValue == Times(r.quantity, spec.entry)
    && r.capitalUsed == Times(r.quantity, spec.entry * spec.ownShare)
    && r.lossAtStop + Total(r.charges) == RiskCurve(spec)(r.quantity)
    && r.riskBudget <= Budget(spec, Risk)
    && (spec.heatLeft.Some? ==> r.riskBudget <= Budget(spec, Heat))
    && (r.riskBudget == Budget(spec, Risk) || (spec.heatLeft.Some? && r.riskBudget == Budget(spec, Heat)))
  }

  function Report(spec: SizingInput, quantity: nat, limitedBy: Limit, allowed: map<Limit, nat>): SizingResult {
    var value := Times(quantity, spec.entry);
    SizingResult(
      quantity, spec.entry, spec.stop, spec.capital, value, value * spec.ownShare,
      Times(quantity, spec.entry - spec.stop), RoundTrip(spec.charges, quantity, spec.entry, spec.stop),
      if spec.heatLeft.Some? then MinReal(Budget(spec, Risk), Budget(spec, Heat)) else Budget(spec, Risk),
      limitedBy, allowed)
  }

  lemma Associates(q: int, entry: real, share: real)
    ensures Times(q, entry) * share == Times(q, entry * share)
  {}

  lemma ReportFigures(spec: SizingInput, quantity: nat, limitedBy: Limit, allowed: map<Limit, nat>)
    ensures Figures(spec, Report(spec, quantity, limitedBy, allowed))
  {
    Associates(quantity, spec.entry, spec.ownShare);
  }

  /** The search, and its outcome with the figures beside it. */
  method SizeChecked(spec: SizingInput, riskAt: int -> real, ghost grows: bool) returns (sized: SizingResult)
    requires Checked(spec) && FromNothing(riskAt) && (grows ==> Grows(riskAt, spec.entry - spec.stop))
    ensures Found(spec, riskAt, grows, sized.quantity, sized.limitedBy, sized.allowed)
    ensures Figures(spec, sized)
  {
    var quantity, limitedBy, allowed := Size(spec, riskAt, grows);
    ReportFigures(spec, quantity, limitedBy, allowed);
    sized := Report(spec, quantity, limitedBy, allowed);
  }

  /** The sizing a caller is promised: the largest, when no rate of the schedule is a rebate. */
  ghost predicate IsSized(spec: SizingInput, r: SizingResult)
    requires spec.lotSize >= 1
  {
    && Found(spec, RiskCurve(spec), NoRebates(spec.charges), r.quantity, r.limitedBy, r.allowed)
    && Figures(spec, r)
  }

  /** The first thing wrong with the input, or a sizing. */
  ghost predicate Answers(spec: SizingInput, sized: Result<SizingResult, RiskInputError>) {
    match sized
    case Err(error) => InputError(spec) == Some(error)
    case Ok(r) => InputError(spec).None? && IsSized(spec, r)
  }

  method SizePosition(spec: SizingInput) returns (sized: Result<SizingResult, RiskInputError>)
    requires 0.0 < spec.ownShare
    ensures Answers(spec, sized)
  {
    var error := InputError(spec);
    if error.Some? {
      return Err(error.value);
    }
    if NoRebates(spec.charges) {
      RiskCurveGrows(spec);
    }
    NothingAtRisk(spec);
    var checked := SizeChecked(spec, RiskCurve(spec), NoRebates(spec.charges));
    sized := Ok(checked);
  }
}

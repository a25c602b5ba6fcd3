/**
 * What the open positions put at risk (src/swingdash/domain/risk/discipline.py) and the portfolio they add up
 * to (src/swingdash/domain/risk/portfolio.py).
 */
module Portfolio {
  import opened Wrappers
  import opened Sums
  import opened PositionTable

  // --- discipline ---------------------------------------------------------------------------------------

  // How far below the planned stop, as a part of it, a stop may lie.
  const STOP_TOLERANCE := 0.005

  datatype Breach = NoStop | StopBreached | Oversized | StopWidened

  /** How far below the price a missing or broken stop is taken to be. */
  datatype AssumedStop = AssumedStop(percent: real, atrMultiple: Option<real>)

  const DEFAULT_ASSUMED := AssumedStop(8.0, Some(1.5))

  /** `price` less a part of it. */
  function Cut(price: real, part: real): real {
    price * (1.0 - part)
  }

  function Below(assumed: AssumedStop, price: real, atr: Option<real>): real {
    var stop :=
      if assumed.atrMultiple.Some? && atr.Some? && atr.value > 0.0 then price - assumed.atrMultiple.value * atr.value
      else Cut(price, assumed.percent / 100.0);
    MaxReal(0.0, stop)
  }

  function When<T>(condition: bool, x: T): seq<T> {
    if condition then [x] else []
  }

  /** The position's own stop can be measured to: there is one, and the price is not below it. */
  predicate StopUsable(p: Position, price: Option<real>) {
    p.stop.Some? && (price.None? || price.value >= p.stop.value)
  }

  /** What is not followed on an open position. */
  function Breaches(p: Position, price: Option<real>): (found: seq<Breach>)
    ensures p.closedOn.Some? ==> found == []
    ensures p.closedOn.None? ==>
      && (NoStop in found <==> p.stop.None?)
      && (StopBreached in found <==> p.stop.Some? && !StopUsable(p, price))
      && (Oversized in found <==> p.plannedQuantity.Some? && p.quantity > p.plannedQuantity.value)
      && (StopWidened in found <==>
           p.stop.Some? && p.plannedStop.Some? && p.stop.value < p.plannedStop.value * 0.995)
  {
    if p.closedOn.Some? then []
    else
      When(p.stop.None?, NoStop)
      + When(p.stop.Some? && price.Some? && price.value < p.stop.value, StopBreached)
      + When(p.plannedQuantity.Some? && p.quantity > p.plannedQuantity.value, Oversized)
      + When(
          p.stop.Some? && p.plannedStop.Some? &&
            p.stop.value < p.plannedStop.value * (1.0 - STOP_TOLERANCE), StopWidened)
  }

  /** `quantity` shares at so much each. */
  function Worth(quantity: int, each: real): real {
    each * quantity as real
  }

  datatype PositionRisk = PositionRisk(stop: real, assumed: bool, amount: real, breaches: seq<Breach>)

  function RiskOf(p: Position, price: Option<real>, atr: Option<real>, assumed: AssumedStop): PositionRisk {
    var found := Breaches(p, price);
    if StopUsable(p, price) then
      PositionRisk(p.stop.value, false, Worth(p.quantity, MaxReal(0.0, p.entry - p.stop.value)), found)
    else
      var basis := if price.Some? then price.value else p.entry;
      var stop := Below(assumed, basis, atr);
      PositionRisk(stop, true, Worth(p.quantity, basis - stop), found)
  }

  lemma WorthNonNegative(quantity: int, each: real)
    requires 0 <= quantity && 0.0 <= each
    ensures 0.0 <= Worth(quantity, each)
  {}

  lemma ShareOf(price: real, part: real)
    requires 0.0 <= price && 0.0 <= part
    ensures Cut(price, part) <= price
  {
    assert 0.0 <= price * part;
    assert price * (1.0 - part) == price - price * part;
  }

  lemma NonNegativeProduct(x: real, y: real)
    requires 0.0 <= x && 0.0 <= y
    ensures 0.0 <= x * y
  {}

  lemma BelowPrice(assumed: AssumedStop, price: real, atr: Option<real>)
    requires 0.0 <= price && 0.0 <= assumed.percent && (assumed.atrMultiple.Some? ==> 0.0 <= assumed.atrMultiple.value)
    ensures 0.0 <= Below(assumed, price, atr) <= price
  {
    if assumed.atrMultiple.Some? && atr.Some? && atr.value > 0.0 {
      NonNegativeProduct(assumed.atrMultiple.value, atr.value);
    } else {
      ShareOf(price, assumed.percent / 100.0);
    }
  }

  /** The size is the planned one or less, and the stop the planned one or higher. */
  ghost predicate FollowsPlan(p: Position) {
    && p.stop.Some?
    && (p.plannedQuantity.Some? ==> p.quantity <= p.plannedQuantity.value)
    && (p.plannedStop.Some? ==> 0.0 <= p.plannedStop.value <= p.stop.value)
  }

  /** Nothing is flagged on a position that follows its plan, at a price not below its stop. */
  lemma NothingFlagged(p: Position, price: Option<real>)
    requires FollowsPlan(p) && StopUsable(p, price)
    ensures Breaches(p, price) == []
  {}

  /** No position can offset the risk of another. */
  lemma RiskNonNegative(p: Position, price: Option<real>, atr: Option<real>, assumed: AssumedStop)
    requires 0 <= p.quantity && 0.0 <= p.entry && (price.Some? ==> 0.0 <= price.value)
    requires 0.0 <= assumed.percent && (assumed.atrMultiple.Some? ==> 0.0 <= assumed.atrMultiple.value)
    ensures 0.0 <= RiskOf(p, price, atr, assumed).amount
    ensures RiskOf(p, price, atr, assumed).assumed <==> !StopUsable(p, price)
  {
    if StopUsable(p, price) {
      WorthNonNegative(p.quantity, MaxReal(0.0, p.entry - p.stop.value));
    } else {
      var basis := if price.Some? then price.value else p.entry;
      BelowPrice(assumed, basis, atr);
      WorthNonNegative(p.quantity, basis - Below(assumed, basis, atr));
    }
  }

  // --- the summary --------------------------------------------------------------------------------------

  function Lookup<T>(table: map<int, T>, id: int): Option<T> {
    if id in table then Some(table[id]) else None
  }

  /** The figures a summary is computed from: each position's price and risk, where known. */
  datatype Market = Market(risks: map<int, PositionRisk>, prices: map<int, real>)

  /** The risk of an open position: the given one, or else measured to its stop or a default assumed one. */
  function RiskIn(m: Market, p: Position): PositionRisk {
    if p.id in m.risks then m.risks[p.id] else RiskOf(p, Lookup(m.prices, p.id), None, DEFAULT_ASSUMED)
  }

  function OpenCount(p: Position): int {
    if p.closedOn.None? then 1 else 0
  }

  function OpenValue(p: Position): real {
    if p.closedOn.None? then Worth(p.quantity, p.entry) else 0.0
  }

  function PriceIn(m: Market, p: Position): real {
    if p.id in m.prices then m.prices[p.id] else p.entry
  }

  function CurrentValue(m: Market): Position -> real {
    (p: Position) => if p.closedOn.None? then Worth(p.quantity, PriceIn(m, p)) else 0.0
  }

  function HeatPart(m: Market): Position -> real {
    (p: Position) => if p.closedOn.None? then RiskIn(m, p).amount else 0.0
  }

  function AssumedHeatPart(m: Market): Position -> real {
    (p: Position) => if p.closedOn.None? && RiskIn(m, p).assumed then RiskIn(m, p).amount else 0.0
  }

  function Pnl(p: Position, price: real): real {
    Worth(p.quantity, price - p.entry)
  }

  function RealisedPnl(p: Position): real {
    if p.closedOn.Some? && p.exitPrice.Some? then Pnl(p, p.exitPrice.value) else 0.0
  }

  function ClosedCharges(p: Position): real {
    if p.closedOn.Some? then p.charges else 0.0
  }

  function Occurrences(found: seq<Breach>, breach: Breach): nat {
    if found == [] then 0
    else Occurrences(found[..|found| - 1], breach) + if found[|found| - 1] == breach then 1 else 0
  }

  function BreachPart(m: Market, breach: Breach): Position -> int {
    (p: Position) => if p.closedOn.None? then Occurrences(RiskIn(m, p).breaches, breach) else 0
  }

  datatype Summary = Summary(
    capital: real,
    openCount: int,
    capitalUsed: real,
    currentValue: real,
    heat: real,
    assumedHeat: real,
    heatLimitPct: real,
    realisedPnl: real,
    charges: real,
    breaches: map<Breach, int>)

  function FreeCapital(s: Summary): real {
    MaxReal(0.0, s.capital - s.capitalUsed)
  }

  function HeatLimit(capital: real, pct: real): real {
    capital * pct / 100.0
  }

  function HeatLeft(s: Summary): real {
    MaxReal(0.0, HeatLimit(s.capital, s.heatLimitPct) - s.heat)
  }

  /** Counts of the breaches of `positions`, without zeros. */
  ghost predicate Tallies(counts: map<Breach, int>, positions: seq<Position>, m: Market) {
    forall b: Breach :: (b in counts <==> Count(BreachPart(m, b), positions) > 0)
      && (b in counts ==> counts[b] == Count(BreachPart(m, b), positions))
  }

  /** One count up per breach found. */
  method AddBreaches(counts: map<Breach, int>, found: seq<Breach>) returns (more: map<Breach, int>)
    requires forall b :: b in counts ==> counts[b] > 0
    ensures forall b :: b in more ==> more[b] > 0
    ensures forall b: Breach ::
      (if b in more then more[b] else 0) == (if b in counts then counts[b] else 0) + Occurrences(found, b)
  {
    more := counts;
    for i := 0 to |found|
      invariant forall b :: b in more ==> more[b] > 0
      invariant forall b: Breach ::
        (if b in more then more[b] else 0) == (if b in counts then counts[b] else 0) + Occurrences(found[..i], b)
    {
      var breach := found[i];
      assert found[..i + 1][..i] == found[..i];
      more := more[breach := (if breach in more then more[breach] else 0) + 1];
    }
    assert found[..|found|] == found;
  }

  /** The figures of the summary, each a sum over the positions. */
  ghost predicate Adds(s: Summary, positions: seq<Position>, m: Market) {
    && s.openCount == Count(OpenCount, positions)
    && s.capitalUsed == Sum(OpenValue, positions)
    && s.currentValue == Sum(CurrentValue(m), positions)
    && s.heat == Sum(HeatPart(m), positions)
    && s.assumedHeat == Sum(AssumedHeatPart(m), positions)
    && s.realisedPnl == Sum(RealisedPnl, positions)
    && s.charges == Sum(ClosedCharges, positions)
    && Tallies(s.breaches, positions, m)
  }

  lemma TalliesSnoc(counts: map<Breach, int>, more: map<Breach, int>, positions: seq<Position>, p: Position, m: Market)
    requires Tallies(counts, positions, m)
    requires forall b :: b in more ==> more[b] > 0
    requires forall b: Breach ::
      (if b in more then more[b] else 0) == (if b in counts then counts[b] else 0)
        + if p.closedOn.None? then Occurrences(RiskIn(m, p).breaches, b) else 0
    ensures Tallies(more, positions + [p], m)
  {
    forall b: Breach
      ensures (b in more <==> Count(BreachPart(m, b), positions + [p]) > 0)
           && (b in more ==> more[b] == Count(BreachPart(m, b), positions + [p]))
    {
      CountSnoc(BreachPart(m, b), positions, p);
      BreachCountNonNegative(m, b, positions);
    }
  }

  lemma {:induction false} BreachCountNonNegative(m: Market, b: Breach, positions: seq<Position>)
    ensures 0 <= Count(BreachPart(m, b), positions)
  {
    if positions != [] {
      BreachCountNonNegative(m, b, positions[..|positions| - 1]);
    }
  }

  /** The summary with one more position. */
  ghost function With(s: Summary, p: Position, m: Market, breaches: map<Breach, int>): Summary {
    s.(openCount := s.openCount + OpenCount(p), capitalUsed := s.capitalUsed + OpenValue(p),
       currentValue := s.currentValue + CurrentValue(m)(p), heat := s.heat + HeatPart(m)(p),
       assumedHeat := s.assumedHeat + AssumedHeatPart(m)(p), realisedPnl := s.realisedPnl + RealisedPnl(p),
       charges := s.charges + ClosedCharges(p), breaches := breaches)
  }

  lemma AddsSnoc(s: Summary, positions: seq<Position>, p: Position, m: Market, more: map<Breach, int>)
    requires Adds(s, positions, m) && Tallies(more, positions + [p], m)
    ensures Adds(With(s, p, m, more), positions + [p], m)
  {
    CountSnoc(OpenCount, positions, p);
    SumSnoc(OpenValue, positions, p);
    SumSnoc(CurrentValue(m), positions, p);
    SumSnoc(HeatPart(m), positions, p);
    SumSnoc(AssumedHeatPart(m), positions, p);
    SumSnoc(RealisedPnl, positions, p);
    SumSnoc(ClosedCharges, positions, p);
  }

  method IncludeOpen(s: Summary, p: Position, m: Market, breaches: map<Breach, int>) returns (after: Summary)
    requires p.closedOn.None?
    ensures after == With(s, p, m, breaches)
  {
    var price, risk := Lookup(m.prices, p.id), RiskIn(m, p);
    after := s.(
      openCount := s.openCount + 1,
      capitalUsed := s.capitalUsed + Worth(p.quantity, p.entry),
      currentValue := s.currentValue + Worth(p.quantity, if price.Some? then price.value else p.entry),
      heat := s.heat + risk.amount,
      assumedHeat := if risk.assumed then s.assumedHeat + risk.amount else s.assumedHeat,
      breaches := breaches);
  }

  method IncludeClosed(s: Summary, p: Position, ghost m: Market) returns (after: Summary)
    requires p.closedOn.Some?
    ensures after == With(s, p, m, s.breaches)
  {
    after := s.(
      realisedPnl := if p.exitPrice.Some? then s.realisedPnl + Pnl(p, p.exitPrice.value) else s.realisedPnl,
      charges := s.charges + p.charges);
  }

  method Summarise(positions: seq<Position>, capital: real, heatLimitPct: real, m: Market) returns (s: Summary)
    ensures s.capital == capital && s.heatLimitPct == heatLimitPct
    ensures Adds(s, positions, m)
  {
    s := Summary(capital, 0, 0.0, 0.0, 0.0, 0.0, heatLimitPct, 0.0, 0.0, map[]);
    for i := 0 to |positions|
      invariant s.capital == capital && s.heatLimitPct == heatLimitPct
      invariant Adds(s, positions[..i], m)
    {
      assert positions[..i + 1] == positions[..i] + [positions[i]];
      if positions[i].closedOn.None? {
        var risk := RiskIn(m, positions[i]);
        var found := AddBreaches(s.breaches, risk.breaches);
        TalliesSnoc(s.breaches, found, positions[..i], positions[i], m);
        AddsSnoc(s, positions[..i], positions[i], m, found);
        s := IncludeOpen(s, positions[i], m, found);
      } else {
        TalliesSnoc(s.breaches, s.breaches, positions[..i], positions[i], m);
        AddsSnoc(s, positions[..i], positions[i], m, s.breaches);
        s := IncludeClosed(s, positions[i], m);
      }
    }
    assert positions[..|positions|] == positions;
  }
}

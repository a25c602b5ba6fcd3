/**
 * The portfolio in plain sums of money: what each position risks, gains and uses, and what a whole run of
 * trades keeps, without the functions that compute them.
 */
module RiskByNumbers {
  import opened Wrappers
  import opened Sums
  import opened Sizing
  import opened PositionTable
  import opened Portfolio
  import opened RiskRun

  // --- one position -----------------------------------------------------------------------------------

  function NotNegative(x: real): real {
    if x < 0.0 then 0.0 else x
  }

  /**
   * An assumed stop: so many true ranges below the price where both are known, else so many percent below it;
   * never below zero.
   */
  lemma AssumedStopIs(assumed: AssumedStop, price: real, atr: Option<real>)
    ensures Below(assumed, price, atr) == NotNegative(
      if assumed.atrMultiple.Some? && atr.Some? && atr.value > 0.0 then price - assumed.atrMultiple.value * atr.value
      else (100.0 - assumed.percent) * price / 100.0)
  {
    PartOf(price, assumed.percent);
  }

  lemma PartOf(price: real, percent: real)
    ensures Cut(price, percent / 100.0) == (100.0 - percent) * price / 100.0
  {
    var part := percent / 100.0;
    assert price * (1.0 - part) == price * (100.0 - 100.0 * part) / 100.0;
  }

  /**
   * What a position can lose: from its entry down to its stop, nothing when the stop is above the entry; with
   * no stop, or the price already below it, from the price - or the entry - down to the assumed stop.
   */
  lemma RiskIs(p: Position, price: Option<real>, atr: Option<real>, assumed: AssumedStop)
    ensures
      var risk := RiskOf(p, price, atr, assumed);
      if p.stop.Some? && (price.None? || p.stop.value <= price.value) then
        && !risk.assumed && risk.stop == p.stop.value
        && risk.amount == p.quantity as real * if p.entry <= p.stop.value then 0.0 else p.entry - p.stop.value
      else
        var from := if price.Some? then price.value else p.entry;
        && risk.assumed && risk.stop == Below(assumed, from, atr)
        && risk.amount == p.quantity as real * (from - risk.stop)
  {}

  /** Gained on a closed position: the way from the entry to the exit, for every share. */
  lemma GainIs(p: Position)
    ensures RealisedPnl(p) ==
      if p.closedOn.Some? && p.exitPrice.Some? then p.quantity as real * (p.exitPrice.value - p.entry) else 0.0
  {}

  // --- totals --------------------------------------------------------------------------------------------

  /** What the open positions cost at their entries. */
  function Used(list: seq<Position>): real {
    if list == [] then 0.0
    else
      var p := list[|list| - 1];
      Used(list[..|list| - 1]) + if p.closedOn.None? then p.quantity as real * p.entry else 0.0
  }

  /** What they can lose down to their stops. */
  function AtStops(list: seq<Position>): real {
    if list == [] then 0.0
    else
      var p := list[|list| - 1];
      AtStops(list[..|list| - 1])
      + if p.closedOn.None? && p.stop.Some? && p.stop.value < p.entry then p.quantity as real * (p.entry - p.stop.value)
        else 0.0
  }

  /** What the closed ones gained. */
  function Gained(list: seq<Position>): real {
    if list == [] then 0.0
    else
      var p := list[|list| - 1];
      Gained(list[..|list| - 1])
      + if p.closedOn.Some? && p.exitPrice.Some? then p.quantity as real * (p.exitPrice.value - p.entry) else 0.0
  }

  /** Charges of the closed ones. */
  function Charged(list: seq<Position>): real {
    if list == [] then 0.0
    else
      var p := list[|list| - 1];
      Charged(list[..|list| - 1]) + if p.closedOn.Some? then p.charges else 0.0
  }

  /** What the open ones are worth at the known prices, at their entries where none is known. */
  function ValueAt(list: seq<Position>, prices: map<int, real>): real {
    if list == [] then 0.0
    else
      var p := list[|list| - 1];
      ValueAt(list[..|list| - 1], prices)
      + if p.closedOn.None? then p.quantity as real * (if p.id in prices then prices[p.id] else p.entry) else 0.0
  }

  /** What an open position risks when nobody measured it: down to its stop, or eight percent below the price. */
  function Unmeasured(p: Position, prices: map<int, real>): real {
    var from := if p.id in prices then prices[p.id] else p.entry;
    if p.stop.Some? && (p.id in prices ==> p.stop.value <= from) then
      p.quantity as real * if p.entry <= p.stop.value then 0.0 else p.entry - p.stop.value
    else
      p.quantity as real * if from < 0.0 then from else from - 0.92 * from
  }

  /** What the open ones risk: as measured, where it was. */
  function AtRisk(list: seq<Position>, m: Market): real {
    if list == [] then 0.0
    else
      var p := list[|list| - 1];
      AtRisk(list[..|list| - 1], m)
      + if p.closedOn.Some? then 0.0
        else if p.id in m.risks then m.risks[p.id].amount
        else Unmeasured(p, m.prices)
  }

  function OpenOnes(list: seq<Position>): int {
    if list == [] then 0
    else OpenOnes(list[..|list| - 1]) + if list[|list| - 1].closedOn.None? then 1 else 0
  }

  lemma UnmeasuredIs(p: Position, prices: map<int, real>)
    ensures RiskOf(p, Lookup(prices, p.id), None, DEFAULT_ASSUMED).amount == Unmeasured(p, prices)
  {
    var from := if p.id in prices then prices[p.id] else p.entry;
    AssumedStopIs(DEFAULT_ASSUMED, from, None);
    RiskIs(p, Lookup(prices, p.id), None, DEFAULT_ASSUMED);
  }

  lemma OpenTerms(p: Position)
    ensures OpenValue(p) == if p.closedOn.None? then p.quantity as real * p.entry else 0.0
    ensures StopHeat(p) ==
      if p.closedOn.None? && p.stop.Some? && p.stop.value < p.entry then p.quantity as real * (p.entry - p.stop.value)
      else 0.0
  {}

  lemma {:induction false} OpenTotals(list: seq<Position>)
    ensures Sum(OpenValue, list) == Used(list) && Sum(StopHeat, list) == AtStops(list)
    ensures Count(OpenCount, list) == OpenOnes(list)
  {
    if list != [] {
      OpenTotals(list[..|list| - 1]);
      OpenTerms(list[|list| - 1]);
    }
  }

  lemma {:induction false} ClosedTotals(list: seq<Position>)
    ensures Sum(RealisedPnl, list) == Gained(list) && Sum(ClosedCharges, list) == Charged(list)
  {
    if list != [] {
      ClosedTotals(list[..|list| - 1]);
      GainIs(list[|list| - 1]);
    }
  }

  lemma ValueTerm(p: Position, m: Market)
    ensures CurrentValue(m)(p) ==
      if p.closedOn.None? then p.quantity as real * (if p.id in m.prices then m.prices[p.id] else p.entry) else 0.0
  {}

  lemma {:induction false} ValueIs(list: seq<Position>, m: Market)
    ensures Sum(CurrentValue(m), list) == ValueAt(list, m.prices)
  {
    if list != [] {
      ValueIs(list[..|list| - 1], m);
      ValueTerm(list[|list| - 1], m);
    }
  }

  lemma HeatTerm(p: Position, m: Market)
    ensures HeatPart(m)(p) ==
      if p.closedOn.Some? then 0.0 else if p.id in m.risks then m.risks[p.id].amount else Unmeasured(p, m.prices)
  {
    if p.id !in m.risks {
      UnmeasuredIs(p, m.prices);
    }
  }

  lemma {:induction false} HeatIs(list: seq<Position>, m: Market)
    ensures Sum(HeatPart(m), list) == AtRisk(list, m)
  {
    if list != [] {
      HeatIs(list[..|list| - 1], m);
      HeatTerm(list[|list| - 1], m);
    }
  }

  /** The figures of a summary, as sums over its positions. */
  lemma SummaryIs(s: Summary, list: seq<Position>, m: Market)
    requires Adds(s, list, m)
    ensures s.openCount == OpenOnes(list) && s.capitalUsed == Used(list) && s.currentValue == ValueAt(list, m.prices)
    ensures s.realisedPnl == Gained(list) && s.charges == Charged(list) && s.heat == AtRisk(list, m)
  {
    OpenTotals(list);
    ClosedTotals(list);
    ValueIs(list, m);
    HeatIs(list, m);
  }

  lemma PercentOf(x: real, capital: real, pct: real)
    ensures x <= HeatLimit(capital, pct) <==> 100.0 * x <= capital * pct
  {}

  /** What a summary leaves for the next trade: capital not used, and heat up to the limit's percentage. */
  lemma LeftIs(s: Summary)
    ensures Portfolio.FreeCapital(s) == if s.capital <= s.capitalUsed then 0.0 else s.capital - s.capitalUsed
    ensures 100.0 * HeatLeft(s) ==
      if s.capital * s.heatLimitPct <= 100.0 * s.heat then 0.0 else s.capital * s.heatLimitPct - 100.0 * s.heat
  {
    PercentOf(s.heat, s.capital, s.heatLimitPct);
  }

  /** Every open position is measured on its own price and true range. */
  ghost predicate Measured(risks: map<int, PositionRisk>, list: seq<Position>, quotes: Quotes, assumed: AssumedStop) {
    forall i :: 0 <= i < |list| && list[i].closedOn.None? ==>
      var p := list[i];
      && p.id in risks
      && risks[p.id] == RiskOf(
           p, if p.id in quotes.prices then Some(quotes.prices[p.id]) else None,
           if p.id in quotes.atrs then Some(quotes.atrs[p.id]) else None, assumed)
  }

  /** What a portfolio leaves for a new trade. */
  ghost predicate Leaves(spec: SizingInput, s: RiskSettings, used: real, heat: real) {
    && spec.freeCapital == Some(NotNegative(s.capital - used))
    && spec.heatLeft.Some?
    && 100.0 * spec.heatLeft.value == NotNegative(s.capital * s.maxHeatPct - 100.0 * heat)
  }

  lemma {:induction false} MarketIs(rows: Table, quotes: Quotes, assumed: AssumedStop, list: seq<Position>)
    returns (heat: real, used: real)
    requires ListsRows(list, rows) && forall id :: id in rows ==> rows[id].id == id
    ensures
      var m := MarketOf(rows, quotes, assumed);
      && Measured(m.risks, list, quotes, assumed)
      && heat == HeatOf(rows, quotes, assumed) == AtRisk(list, m) && used == UsedOf(rows) == Used(list)
  {
    var m := MarketOf(rows, quotes, assumed);
    heat, used := AtRisk(list, m), Used(list);
    ListSum(HeatPart(m), list, rows);
    ListSum(OpenValue, list, rows);
    OpenTotals(list);
    HeatIs(list, m);
  }

  lemma LeavesIs(spec: SizingInput, s: RiskSettings, used: real, heat: real)
    requires spec.freeCapital == Some(MaxReal(0.0, s.capital - used))
    requires spec.heatLeft == Some(MaxReal(0.0, HeatLimit(s.capital, s.maxHeatPct) - heat))
    ensures Leaves(spec, s, used, heat)
  {
    PercentOf(heat, s.capital, s.maxHeatPct);
  }

  /** A trade is sized on what the open positions leave: the capital they do not use, and the heat up to the limit. */
  lemma SpecIs(rows: Table, quotes: Quotes, s: RiskSettings, risk: RiskSpec, entry: real, stop: real, lot: int,
      list: seq<Position>)
    requires ListsRows(list, rows) && forall id :: id in rows ==> rows[id].id == id
    ensures
      var spec, m := SpecFor(rows, quotes, s, risk, entry, stop, lot), MarketOf(rows, quotes, s.assumed);
      && spec.capital == s.capital && spec.risk == risk && spec.entry == entry && spec.stop == stop
      && spec.lotSize == lot && spec.maxAllocationPct == s.maxAllocationPct && spec.ownShare == 1.0
      && Measured(m.risks, list, quotes, s.assumed) && Leaves(spec, s, Used(list), AtRisk(list, m))
  {
    var heat, used := MarketIs(rows, quotes, s.assumed, list);
    LeavesIs(SpecFor(rows, quotes, s, risk, entry, stop, lot), s, used, heat);
  }

  // --- a run ------------------------------------------------------------------------------------------------

  /**
   * What the open positions can lose down to their stops is at most the limit's percentage of the capital, and
   * what they cost at most the capital.
   */
  ghost predicate KeepsLimits(list: seq<Position>, s: RiskSettings) {
    100.0 * AtStops(list) <= s.capital * s.maxHeatPct && Used(list) <= s.capital
  }

  lemma SafeTotals(rows: Table, s: RiskSettings, list: seq<Position>) returns (heat: real, used: real)
    requires Safe(rows, s) && ListsRows(list, rows)
    ensures heat == AtStops(list) && heat <= HeatLimit(s.capital, s.maxHeatPct)
    ensures used == Used(list) && used <= s.capital
  {
    heat, used := Sum(StopHeat, list), Sum(OpenValue, list);
    ListSum(StopHeat, list, rows);
    ListSum(OpenValue, list, rows);
    OpenTotals(list);
  }

  /** A safe portfolio, by its rows. */
  lemma SafeIs(rows: Table, s: RiskSettings, list: seq<Position>)
    requires Safe(rows, s) && ListsRows(list, rows)
    ensures KeepsLimits(list, s)
  {
    var heat, used := SafeTotals(rows, s, list);
    PercentOf(heat, s.capital, s.maxHeatPct);
  }

  /** Over every run from an empty portfolio, however its rows are listed. */
  lemma RunKeepsLimits(states: seq<Table>, steps: seq<Step>, s: RiskSettings, n: nat, list: seq<Position>)
    requires Run(states, steps, s) && 0.0 <= s.capital && 0.0 <= s.maxHeatPct && n < |states|
    requires ListsRows(list, states[n])
    ensures KeepsLimits(list, s)
  {
    RunIsSafe(states, steps, s, n, Quotes(map[], map[]));
    SafeIs(states[n], s, list);
  }
}

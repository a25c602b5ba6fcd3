/**
 * Trading runs over the positions table (src/swingdash/services/risk.py): as long as trades are taken at the
 * sized quantity, the portfolio never risks more than its heat limit nor uses more than its capital.
 */
module RiskRun {
  import opened Wrappers
  import opened Dates
  import opened Ordering
  import opened Sums
  import opened RoundTripCharges
  import opened Sizing
  import opened PositionTable
  import opened Portfolio

  // --- sums over the table ------------------------------------------------------------------------------

  ghost function TableSum(f: Position -> real, rows: Table): real
    decreases rows.Keys
  {
    if rows.Keys == {} then 0.0
    else
      var id := Pick(rows.Keys);
      TableSum(f, rows - {id}) + f(rows[id])
  }

  lemma {:induction false} TableSumWithout(f: Position -> real, rows: Table, id: int)
    requires id in rows
    ensures TableSum(f, rows) == TableSum(f, rows - {id}) + f(rows[id])
    decreases rows.Keys
  {
    var first := Pick(rows.Keys);
    if first != id {
      TableSumWithout(f, rows - {first}, id);
      TableSumWithout(f, rows - {id}, first);
      assert rows - {first} - {id} == rows - {id} - {first};
    }
  }

  /** Writing one row changes the sum by that row. */
  lemma TableSumSet(f: Position -> real, rows: Table, id: int, p: Position)
    ensures id !in rows ==> TableSum(f, rows[id := p]) == TableSum(f, rows) + f(p)
    ensures id in rows ==> TableSum(f, rows[id := p]) == TableSum(f, rows) - f(rows[id]) + f(p)
  {
    TableSumWithout(f, rows[id := p], id);
    if id in rows {
      TableSumWithout(f, rows, id);
      assert rows[id := p] - {id} == rows - {id};
    } else {
      assert rows[id := p] - {id} == rows;
    }
  }

  lemma {:induction false} TableSumSame(f: Position -> real, g: Position -> real, rows: Table)
    requires forall id :: id in rows ==> f(rows[id]) == g(rows[id])
    ensures TableSum(f, rows) == TableSum(g, rows)
    decreases rows.Keys
  {
    if rows.Keys != {} {
      var id := Pick(rows.Keys);
      TableSumWithout(f, rows, id);
      TableSumWithout(g, rows, id);
      TableSumSame(f, g, rows - {id});
    }
  }

  lemma EmptyListing(list: seq<Position>, rows: Table)
    requires ListsRows(list, rows)
    ensures list == [] <==> rows.Keys == {}
  {
    if rows.Keys != {} {
      var id := Pick(rows.Keys);
      assert id in rows && rows[id] in list;
    }
    if list != [] {
      assert list[0].id in rows.Keys;
    }
  }

  /** However the rows are listed, their sum is the table's. */
  lemma {:induction false} ListSum(f: Position -> real, list: seq<Position>, rows: Table)
    requires ListsRows(list, rows) && forall id :: id in rows ==> rows[id].id == id
    ensures Sum(f, list) == TableSum(f, rows)
    decreases list
  {
    EmptyListing(list, rows);
    if list != [] {
      var last := list[|list| - 1];
      var front, rest := list[..|list| - 1], rows - {last.id};
      forall id | id in rest ensures rest[id] in front {
        assert rows[id] in list;
        assert rows[id] != last;
      }
      ListSum(f, front, rest);
      TableSumWithout(f, rows, last.id);
    }
  }

  // --- the portfolio --------------------------------------------------------------------------------------

  datatype RiskSettings = RiskSettings(
    capital: real,
    risk: RiskSpec,
    maxAllocationPct: real,
    maxHeatPct: real,
    broker: Broker,
    assumed: AssumedStop)

  /** The last prices and true ranges known, by position. */
  datatype Quotes = Quotes(prices: map<int, real>, atrs: map<int, real>)

  function RisksOf(rows: Table, quotes: Quotes, assumed: AssumedStop): map<int, PositionRisk> {
    map id | id in rows && rows[id].closedOn.None? ::
      RiskOf(rows[id], Lookup(quotes.prices, id), Lookup(quotes.atrs, id), assumed)
  }

  function MarketOf(rows: Table, quotes: Quotes, assumed: AssumedStop): Market {
    Market(RisksOf(rows, quotes, assumed), quotes.prices)
  }

  ghost function HeatOf(rows: Table, quotes: Quotes, assumed: AssumedStop): real {
    TableSum(HeatPart(MarketOf(rows, quotes, assumed)), rows)
  }

  ghost function UsedOf(rows: Table): real {
    TableSum(OpenValue, rows)
  }

  function LimitOf(s: RiskSettings): real {
    HeatLimit(s.capital, s.maxHeatPct)
  }

  /** The loss from the entry down to the stop. */
  function StopHeat(p: Position): real {
    if p.closedOn.None? && p.stop.Some? then Worth(p.quantity, MaxReal(0.0, p.entry - p.stop.value)) else 0.0
  }

  /** Every open position has a stop, and no known price is below it. */
  ghost predicate AtOrAboveStops(rows: Table, quotes: Quotes) {
    forall id :: id in rows && rows[id].closedOn.None? ==> StopUsable(rows[id], Lookup(quotes.prices, id))
  }

  /** Above their stops, positions risk just what those stops can lose. */
  lemma HeatIsStopHeat(rows: Table, quotes: Quotes, assumed: AssumedStop)
    requires AtOrAboveStops(rows, quotes) && forall id :: id in rows ==> rows[id].id == id
    ensures HeatOf(rows, quotes, assumed) == TableSum(StopHeat, rows)
  {
    TableSumSame(HeatPart(MarketOf(rows, quotes, assumed)), StopHeat, rows);
  }

  /** The sizing of a new trade on the portfolio as it stands. */
  ghost function SpecFor(rows: Table, quotes: Quotes, s: RiskSettings, risk: RiskSpec, entry: real, stop: real,
      lot: int)
    : SizingInput
  {
    SizingInput(
      s.capital, risk, entry, stop, s.maxAllocationPct,
      Some(MaxReal(0.0, s.capital - UsedOf(rows))),
      Some(MaxReal(0.0, LimitOf(s) - HeatOf(rows, quotes, s.assumed))),
      lot, ScheduleOf(s.broker), 1.0)
  }

  // --- runs -------------------------------------------------------------------------------------------------

  /** `Take`: a trade at the sized quantity, on the quotes of that moment. */
  datatype Step =
    | Take(row: Position, quotes: Quotes, risk: RiskSpec, lot: int)
    | Exit(id: int, exitPrice: real, closedOn: Day)
    | RaiseStop(id: int, stop: real, note: string)

  /** A trade as the tab enters it. */
  ghost predicate IsTrade(row: Position, rows: Table, quotes: Quotes, s: RiskSettings, risk: RiskSpec, lot: int) {
    && row.id !in rows && row.closedOn.None? && row.stop.Some? && row.quantity > 0
    && var spec := SpecFor(rows, quotes, s, risk, row.entry, row.stop.value, lot);
    && InputError(spec).None?
    && Largest(spec, RiskCurve(spec), row.quantity)
  }

  ghost predicate Next(a: Table, step: Step, b: Table, s: RiskSettings) {
    match step
    case Take(row, quotes, risk, lot) =>
      AtOrAboveStops(a, quotes) && IsTrade(row, a, quotes, s, risk, lot) && b == a[row.id := row]
    case Exit(id, exitPrice, closedOn) =>
      id in a && b == a[id := Exited(a[id], exitPrice, closedOn)]
    case RaiseStop(id, stop, note) =>
      && id in a && a[id].stop.Some? && a[id].stop.value <= stop
      && b == a[id := Edited(a[id], a[id].quantity, a[id].entry, Some(stop), note, a[id].openedOn)]
  }

  /** Held within the limits, whatever the prices do above the stops. */
  ghost predicate Safe(rows: Table, s: RiskSettings) {
    && (forall id :: id in rows ==>
      rows[id].id == id && rows[id].stop.Some? && 0 <= rows[id].quantity && 0.0 <= rows[id].entry)
    && TableSum(StopHeat, rows) <= LimitOf(s)
    && UsedOf(rows) <= s.capital
  }

  lemma EmptyIsSafe(s: RiskSettings)
    requires 0.0 <= s.capital && 0.0 <= s.maxHeatPct
    ensures Safe(map[], s)
  {
    NonNegativeProduct(s.capital, s.maxHeatPct);
  }

  /** A quantity with the property of the sized one keeps every limit. */
  lemma LargestFits(spec: SizingInput, riskAt: int -> real, quantity: nat)
    requires spec.lotSize >= 1 && Largest(spec, riskAt, quantity)
    ensures FitsAll(spec, riskAt, quantity)
  {
    Remainder(quantity, spec.lotSize);
    assert Shares(quantity / spec.lotSize, spec.lotSize) == quantity;
  }

  /** The stop loses no more than the heat left, and the capital tied up is no more than the free capital. */
  ghost predicate WithinLeft(spec: SizingInput, quantity: nat) {
    && (spec.heatLeft.Some? ==> Times(quantity, spec.entry - spec.stop) <= Budget(spec, Heat))
    && (spec.freeCapital.Some? ==> Times(quantity, spec.entry * spec.ownShare) <= Budget(spec, FreeCapital))
  }

  lemma LargestWithin(spec: SizingInput, riskAt: int -> real, quantity: nat)
    requires Sizable(spec) && Grows(riskAt, spec.entry - spec.stop) && Largest(spec, riskAt, quantity)
    ensures WithinLeft(spec, quantity)
  {
    LargestFits(spec, riskAt, quantity);
    assert Times(quantity, spec.entry - spec.stop) <= riskAt(quantity);
  }

  /** A sized trade loses no more at its stop than the heat left, and ties up no more than the free capital. */
  lemma SizedWithin(spec: SizingInput, quantity: nat)
    requires Sizable(spec) && Largest(spec, RiskCurve(spec), quantity)
    ensures WithinLeft(spec, quantity)
  {
    RiskCurveGrows(spec);
    LargestWithin(spec, RiskCurve(spec), quantity);
  }

  lemma TimesIsWorth(quantity: int, each: real)
    ensures Times(quantity, each) == Worth(quantity, each)
  {}

  /** What the sized trade adds is still free. */
  lemma TradeFits(row: Position, rows: Table, quotes: Quotes, s: RiskSettings, risk: RiskSpec, lot: int)
    requires Safe(rows, s) && AtOrAboveStops(rows, quotes) && IsTrade(row, rows, quotes, s, risk, lot)
    ensures StopHeat(row) <= LimitOf(s) - TableSum(StopHeat, rows)
    ensures OpenValue(row) <= s.capital - UsedOf(rows)
    ensures 0.0 < row.entry
  {
    var spec := SpecFor(rows, quotes, s, risk, row.entry, row.stop.value, lot);
    HeatIsStopHeat(rows, quotes, s.assumed);
    SizedWithin(spec, row.quantity);
    assert row.entry * 1.0 == row.entry;
    TimesIsWorth(row.quantity, row.entry);
    TimesIsWorth(row.quantity, row.entry - row.stop.value);
  }

  lemma TakeKeepsSafe(a: Table, row: Position, quotes: Quotes, s: RiskSettings, risk: RiskSpec, lot: int)
    requires Safe(a, s) && AtOrAboveStops(a, quotes) && IsTrade(row, a, quotes, s, risk, lot)
    ensures Safe(a[row.id := row], s)
  {
    TradeFits(row, a, quotes, s, risk, lot);
    TableSumSet(StopHeat, a, row.id, row);
    TableSumSet(OpenValue, a, row.id, row);
  }

  /** Replacing a row by one that risks and uses no more is safe. */
  lemma LessKeepsSafe(a: Table, id: int, p: Position, s: RiskSettings)
    requires Safe(a, s) && id in a && p.id == id && p.stop.Some? && 0 <= p.quantity && 0.0 <= p.entry
    requires StopHeat(p) <= StopHeat(a[id]) && OpenValue(p) <= OpenValue(a[id])
    ensures Safe(a[id := p], s)
  {
    TableSumSet(StopHeat, a, id, p);
    TableSumSet(OpenValue, a, id, p);
  }

  lemma StopHeatFalls(p: Position, stop: real)
    requires p.stop.Some? && p.stop.value <= stop && 0 <= p.quantity
    ensures 0.0 <= StopHeat(p.(stop := Some(stop))) <= StopHeat(p)
  {
    var before, after := MaxReal(0.0, p.entry - p.stop.value), MaxReal(0.0, p.entry - stop);
    WorthNonNegative(p.quantity, after);
    WorthGrows(p.quantity, after, before);
  }

  lemma WorthGrows(quantity: int, a: real, b: real)
    requires 0 <= quantity && a <= b
    ensures Worth(quantity, a) <= Worth(quantity, b)
  {
    NonNegativeProduct(b - a, quantity as real);
    assert b * quantity as real == a * quantity as real + (b - a) * quantity as real;
  }

  lemma StepKeepsSafe(a: Table, step: Step, b: Table, s: RiskSettings)
    requires Safe(a, s) && Next(a, step, b, s)
    ensures Safe(b, s)
  {
    match step
    case Take(row, quotes, risk, lot) =>
      TakeKeepsSafe(a, row, quotes, s, risk, lot);
    case Exit(id, exitPrice, closedOn) =>
      StopHeatFalls(a[id], a[id].stop.value);
      assert a[id].(stop := a[id].stop) == a[id];
      WorthNonNegative(a[id].quantity, a[id].entry);
      LessKeepsSafe(a, id, b[id], s);
    case RaiseStop(id, stop, note) =>
      StopHeatFalls(a[id], stop);
      assert StopHeat(b[id]) == StopHeat(a[id].(stop := Some(stop)));
      LessKeepsSafe(a, id, b[id], s);
  }

  ghost predicate Run(states: seq<Table>, steps: seq<Step>, s: RiskSettings) {
    && |states| == |steps| + 1 && states[0] == map[]
    && forall i :: 0 <= i < |steps| ==> Next(states[i], steps[i], states[i + 1], s)
  }

  lemma StepKeepsPlans(a: Table, step: Step, b: Table, s: RiskSettings)
    requires Next(a, step, b, s) && (step.Take? ==> FollowsPlan(step.row))
    requires forall id :: id in a ==> FollowsPlan(a[id])
    ensures forall id :: id in b ==> FollowsPlan(b[id])
  {}

  /**
   * When every trade of the run is entered on its plan, no open position is ever flagged at a price not
   * below its stop: raising a stop does not widen it, and nothing makes a position larger.
   */
  lemma {:induction false} RunIsDisciplined(states: seq<Table>, steps: seq<Step>, s: RiskSettings, n: nat)
    requires Run(states, steps, s) && n < |states|
    requires forall i :: 0 <= i < |steps| && steps[i].Take? ==> FollowsPlan(steps[i].row)
    ensures forall id :: id in states[n] ==> FollowsPlan(states[n][id])
    ensures forall id, price :: id in states[n] && StopUsable(states[n][id], price) ==>
      Breaches(states[n][id], price) == []
  {
    if n > 0 {
      RunIsDisciplined(states, steps, s, n - 1);
      StepKeepsPlans(states[n - 1], steps[n - 1], states[n], s);
    }
    forall id, price | id in states[n] && StopUsable(states[n][id], price)
      ensures Breaches(states[n][id], price) == []
    {
      NothingFlagged(states[n][id], price);
    }
  }

  /** A trade stays what it was made as, in size, price and plan; its initial stop stays and its stop never falls. */
  ghost predicate StaysTrade(before: Position, after: Position) {
    && SameOrigin(before, after)
    && after.quantity == before.quantity && after.entry == before.entry && after.openedOn == before.openedOn
    && (before.initialStop.Some? ==> after.initialStop == before.initialStop)
    && (before.stop.Some? ==> after.stop.Some? && before.stop.value <= after.stop.value)
    && (before.closedOn.Some? ==> after.closedOn.Some?)
  }

  lemma StepKeepsTrade(a: Table, step: Step, b: Table, s: RiskSettings, id: int)
    requires Next(a, step, b, s) && id in a
    ensures id in b && StaysTrade(a[id], b[id])
  {}

  lemma StepOfRun(states: seq<Table>, steps: seq<Step>, s: RiskSettings, n: nat, id: int)
    requires Run(states, steps, s) && n < |steps| && id in states[n]
    ensures id in states[n + 1] && StaysTrade(states[n][id], states[n + 1][id])
  {
    StepKeepsTrade(states[n], steps[n], states[n + 1], s, id);
  }

  lemma StaysOn(a: Position, b: Position, c: Position)
    requires StaysTrade(a, b) && StaysTrade(b, c)
    ensures StaysTrade(a, c)
  {}

  /** No trade of a run is ever lost, and what it set out to risk stays on record. */
  lemma {:induction false} TradesStay(states: seq<Table>, steps: seq<Step>, s: RiskSettings, i: nat, j: nat, id: int)
    requires Run(states, steps, s) && i <= j < |states| && id in states[i]
    ensures id in states[j] && StaysTrade(states[i][id], states[j][id])
    decreases j - i
  {
    if i < j {
      TradesStay(states, steps, s, i, j - 1, id);
      StepOfRun(states, steps, s, j - 1, id);
      StaysOn(states[i][id], states[j - 1][id], states[j][id]);
    }
  }

  /**
   * From an empty portfolio, any run of sized trades, exits and raised stops keeps the total heat within the
   * limit and the capital used within the capital, at any prices not below the stops.
   */
  lemma {:induction false} RunIsSafe(states: seq<Table>, steps: seq<Step>, s: RiskSettings, n: nat, quotes: Quotes)
    requires Run(states, steps, s) && 0.0 <= s.capital && 0.0 <= s.maxHeatPct && n < |states|
    ensures Safe(states[n], s)
    ensures UsedOf(states[n]) <= s.capital
    ensures AtOrAboveStops(states[n], quotes) ==> HeatOf(states[n], quotes, s.assumed) <= LimitOf(s)
  {
    if n == 0 {
      EmptyIsSafe(s);
    } else {
      RunIsSafe(states, steps, s, n - 1, quotes);
      StepKeepsSafe(states[n - 1], steps[n - 1], states[n], s);
    }
    if AtOrAboveStops(states[n], quotes) {
      HeatIsStopHeat(states[n], quotes, s.assumed);
    }
  }
}

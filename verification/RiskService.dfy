/**
 * src/swingdash/services/risk.py: sizing on the portfolio as it stands, and the changes to positions. The
 * list of positions is cached between changes.
 */
module RiskService {
  import opened Wrappers
  import opened Dates
  import opened RoundTripCharges
  import opened Sizing
  import opened Ledger
  import opened PositionTable
  import opened Portfolio
  import opened RiskRun

  // An imported entry price may be typed back rounded to the paisa.
  const PRICE_TOLERANCE := 0.005

  datatype Error =
    | UnknownStock
    | QuantityTooSmall
    | PricesNotPositive
    | StopNotBelowEntry
    | InFuture
    | NoSuchPosition
    | OwnedByBroker
    | ExitBeforeEntry
    | ExitPriceNotPositive
    | NotSizable(reason: RiskInputError)

  function CheckPosition(quantity: int, entry: real, stop: Option<real>): Option<Error> {
    if quantity <= 0 then Some(QuantityTooSmall)
    else if entry <= 0.0 || (stop.Some? && stop.value <= 0.0) then Some(PricesNotPositive)
    else None
  }

  function Abs(x: real): real {
    if x < 0.0 then -x else x
  }

  function OpenError(key: Option<string>, quantity: int, entry: real, stop: Option<real>, openedOn: Day, today: Day)
    : (error: Option<Error>)
    ensures error.None? <==>
      && key.Some? && 0 < quantity && 0.0 < entry && openedOn <= today
      && (stop.Some? ==> 0.0 < stop.value < entry)
  {
    if key.None? then Some(UnknownStock)
    else if CheckPosition(quantity, entry, stop).Some? then CheckPosition(quantity, entry, stop)
    else if stop.Some? && stop.value >= entry then Some(StopNotBelowEntry)
    else if openedOn > today then Some(InFuture)
    else None
  }

  function UpdateError(rows: Table, id: int, quantity: int, entry: real, stop: Option<real>, openedOn: Option<Day>,
      today: Day)
    : (error: Option<Error>)
    ensures error.None? <==>
      && 0 < quantity && 0.0 < entry && (stop.Some? ==> 0.0 < stop.value) && id in rows
      && var day := if openedOn.Some? then openedOn.value else rows[id].openedOn;
      && day <= today && (rows[id].closedOn.Some? ==> day <= rows[id].closedOn.value)
      && (rows[id].source != Manual ==>
           && quantity == rows[id].quantity && day == rows[id].openedOn
           && -0.005 <= entry - rows[id].entry <= 0.005)
  {
    if CheckPosition(quantity, entry, stop).Some? then CheckPosition(quantity, entry, stop)
    else if id !in rows then Some(NoSuchPosition)
    else
      var p := rows[id];
      var day := if openedOn.Some? then openedOn.value else p.openedOn;
      if p.source != Manual
         && (quantity != p.quantity || Abs(entry - p.entry) > PRICE_TOLERANCE || day != p.openedOn)
      then Some(OwnedByBroker)
      else if day > today then Some(InFuture)
      else if p.closedOn.Some? && day > p.closedOn.value then Some(ExitBeforeEntry)
      else None
  }

  function CloseError(rows: Table, id: int, exitPrice: real, closedOn: Day, today: Day): (error: Option<Error>)
    ensures error.None? <==>
      && 0.0 < exitPrice && id in rows && rows[id].source == Manual && rows[id].openedOn <= closedOn <= today
  {
    if exitPrice <= 0.0 then Some(ExitPriceNotPositive)
    else if id !in rows then Some(NoSuchPosition)
    else if rows[id].source != Manual then Some(OwnedByBroker)
    else if closedOn > today then Some(InFuture)
    else if closedOn < rows[id].openedOn then Some(ExitBeforeEntry)
    else None
  }

  lemma LeftIsSpec(summary: Summary, rows: Table, quotes: Quotes, s: RiskSettings)
    requires summary.capital == s.capital && summary.heatLimitPct == s.maxHeatPct
    requires summary.heat == HeatOf(rows, quotes, s.assumed) && summary.capitalUsed == UsedOf(rows)
    ensures Portfolio.FreeCapital(summary) == MaxReal(0.0, s.capital - UsedOf(rows))
    ensures HeatLeft(summary) == MaxReal(0.0, LimitOf(s) - HeatOf(rows, quotes, s.assumed))
  {}

  /** A position entered at the sized quantity is a trade of the run. */
  lemma SizedIsTrade(row: Position, rows: Table, quotes: Quotes, s: RiskSettings, risk: RiskSpec, lot: int,
      sized: SizingResult)
    requires row.id !in rows && row.closedOn.None? && row.stop.Some? && row.quantity == sized.quantity > 0
    requires Answers(SpecFor(rows, quotes, s, risk, row.entry, row.stop.value, lot), Ok(sized))
    ensures IsTrade(row, rows, quotes, s, risk, lot)
  {}

  lemma TradeIsNext(row: Position, rows: Table, quotes: Quotes, s: RiskSettings, risk: RiskSpec, lot: int,
      spec: SizingInput, sized: SizingResult)
    requires AtOrAboveStops(rows, quotes)
    requires row.id !in rows && row.closedOn.None? && row.stop.Some? && row.quantity == sized.quantity > 0
    requires spec == SpecFor(rows, quotes, s, risk, row.entry, row.stop.value, lot) && Answers(spec, Ok(sized))
    ensures Next(rows, Take(row, quotes, risk, lot), rows[row.id := row], s)
    ensures Safe(rows, s) ==> Safe(rows[row.id := row], s)
  {
    SizedIsTrade(row, rows, quotes, s, risk, lot, sized);
    if Safe(rows, s) {
      TakeKeepsSafe(rows, row, quotes, s, risk, lot);
    }
  }

  class RiskService {
    const repo: PositionRepository
    var settings: RiskSettings
    var cached: Option<seq<Position>>

    /** The cached list is never out of date. */
    ghost predicate Valid()
      reads this, repo
    {
      repo.Valid() && (cached.Some? ==> ListsRows(cached.value, repo.rows))
    }

    constructor (repo: PositionRepository, settings: RiskSettings)
      requires repo.Valid()
      ensures Valid() && this.repo == repo && this.settings == settings
    {
      this.repo := repo;
      this.settings := settings;
      cached := None;
    }

    method Positions() returns (list: seq<Position>)
      requires Valid()
      modifies this`cached
      ensures Valid() && ListsRows(list, repo.rows)
    {
      if cached.None? {
        var all := repo.All();
        cached := Some(all);
      }
      list := cached.value;
    }

    /** The risk of every open position, on its own quote. */
    static method Risks(list: seq<Position>, rows: Table, quotes: Quotes, assumed: AssumedStop)
      returns (risks: map<int, PositionRisk>)
      requires ListsRows(list, rows) && forall id :: id in rows ==> rows[id].id == id
      ensures risks == RisksOf(rows, quotes, assumed)
    {
      risks := map[];
      for i := 0 to |list|
        invariant forall j :: 0 <= j < i && list[j].closedOn.None? ==> list[j].id in risks
        invariant forall id :: id in risks ==> id in rows && rows[id].closedOn.None?
        invariant forall id :: id in risks ==>
          risks[id] == RiskOf(rows[id], Lookup(quotes.prices, id), Lookup(quotes.atrs, id), assumed)
      {
        var p := list[i];
        assert p.id in rows && rows[p.id] == p;
        if p.closedOn.None? {
          risks := risks[p.id := RiskOf(p, Lookup(quotes.prices, p.id), Lookup(quotes.atrs, p.id), assumed)];
        }
      }
      ghost var all := RisksOf(rows, quotes, assumed);
      forall id ensures id in risks <==> id in all {
        if id in all {
          assert rows[id] in list;
          var j :| 0 <= j < |list| && list[j] == rows[id];
          assert list[j].id == id;
        }
      }
      assert forall id :: id in risks ==> risks[id] == all[id];
    }

    /** The portfolio's heat and capital are those of the rows in the table. */
    method Summary(quotes: Quotes) returns (summary: Summary)
      requires Valid()
      modifies this`cached
      ensures Valid()
      ensures summary.capital == settings.capital && summary.heatLimitPct == settings.maxHeatPct
      ensures summary.heat == HeatOf(repo.rows, quotes, settings.assumed)
      ensures summary.capitalUsed == UsedOf(repo.rows)
    {
      var list := Positions();
      var risks := Risks(list, repo.rows, quotes, settings.assumed);
      var market := Market(risks, quotes.prices);
      summary := Summarise(list, settings.capital, settings.maxHeatPct, market);
      ListSum(HeatPart(market), list, repo.rows);
      ListSum(OpenValue, list, repo.rows);
    }

    /** What a new trade is sized on: the free capital and the heat left right now. */
    method Spec(entry: real, stop: real, risk: RiskSpec, lot: int, quotes: Quotes) returns (spec: SizingInput)
      requires Valid()
      modifies this`cached
      ensures Valid()
      ensures spec == SpecFor(repo.rows, quotes, settings, risk, entry, stop, lot)
    {
      var summary := Summary(quotes);
      LeftIsSpec(summary, repo.rows, quotes, settings);
      spec := SizingInput(
        settings.capital, risk, entry, stop, settings.maxAllocationPct,
        Some(Portfolio.FreeCapital(summary)), Some(HeatLeft(summary)), lot, ScheduleOf(settings.broker), 1.0);
    }

    /** The largest position the portfolio allows now. */
    method Size(entry: real, stop: real, risk: Option<RiskSpec>, lot: int, quotes: Quotes)
      returns (sized: Result<SizingResult, RiskInputError>)
      requires Valid()
      modifies this`cached
      ensures Valid()
      ensures Answers(
        SpecFor(repo.rows, quotes, settings, if risk.Some? then risk.value else settings.risk, entry, stop, lot), sized)
    {
      var spec := Spec(entry, stop, if risk.Some? then risk.value else settings.risk, lot, quotes);
      sized := SizePosition(spec);
    }

    method OpenPosition(symbol: string, key: Option<string>, quantity: int, entry: real, stop: Option<real>,
        note: string, openedOn: Option<Day>, planned: bool, today: Day)
      returns (taken: Result<Position, Error>)
      requires Valid()
      modifies this`cached, repo`rows, repo`nextId
      ensures Valid()
      ensures
        var day, id := if openedOn.Some? then openedOn.value else today, old(repo.nextId);
        var error := OpenError(key, quantity, entry, stop, day, today);
        && (error.Some? ==> taken == Err(error.value) && repo.rows == old(repo.rows))
        && (error.None? ==>
             && taken == Ok(Entered(id, symbol, key, quantity, entry, stop, day, note, planned && stop.Some?, Normal))
             && id !in old(repo.rows) && repo.rows == old(repo.rows)[id := taken.value])
      ensures taken.Ok? ==>
        var row, plan := taken.value, planned && stop.Some?;
        && IsEntry(row, symbol, key, quantity, entry, stop, row.openedOn, note, plan, Normal)
        && OnlyRow(old(repo.rows), repo.rows, row.id) && row.openedOn <= today && row.quantity > 0
        && row.openedOn == (if openedOn.Some? then openedOn.value else today)
    {
      if key.None? {
        return Err(UnknownStock);
      }
      var wrong := CheckPosition(quantity, entry, stop);
      if wrong.Some? {
        return Err(wrong.value);
      }
      if stop.Some? && stop.value >= entry {
        return Err(StopNotBelowEntry);
      }
      var day := if openedOn.Some? then openedOn.value else today;
      if day > today {
        return Err(InFuture);
      }
      var id := repo.Add(symbol, key, quantity, entry, stop, day, note, planned && stop.Some?, Normal);
      cached := None;
      taken := Ok(repo.rows[id]);
    }

    method UpdatePosition(id: int, quantity: int, entry: real, stop: Option<real>, note: string, openedOn: Option<Day>,
        today: Day)
      returns (error: Option<Error>)
      requires Valid()
      modifies this`cached, repo`rows
      ensures Valid()
      ensures error == UpdateError(old(repo.rows), id, quantity, entry, stop, openedOn, today)
      ensures error.Some? ==> repo.rows == old(repo.rows)
      ensures error.None? ==> id in old(repo.rows)
      ensures error.None? ==>
        var row := old(repo.rows)[id];
        var day := if openedOn.Some? then openedOn.value else row.openedOn;
        && repo.rows == old(repo.rows)[id := Edited(row, quantity, entry, stop, note, day)]
        && OnlyRow(old(repo.rows), repo.rows, id) && IsEdit(row, repo.rows[id], quantity, entry, stop, note, day)
      ensures error.None? ==>
        var row := old(repo.rows)[id];
        row.stop.Some? && stop.Some? && row.stop.value <= stop.value && quantity == row.quantity && entry == row.entry
        && (openedOn.None? || openedOn.value == row.openedOn) ==>
          Next(old(repo.rows), RaiseStop(id, stop.value, note), repo.rows, settings)
    {
      error := CheckPosition(quantity, entry, stop);
      if error.Some? {
        return;
      }
      if id !in repo.rows {
        return Some(NoSuchPosition);
      }
      var p := repo.rows[id];
      if p.source != Manual
         && (quantity != p.quantity || Abs(entry - p.entry) > PRICE_TOLERANCE
             || (openedOn.Some? && openedOn.value != p.openedOn))
      {
        return Some(OwnedByBroker);
      }
      var day := if openedOn.Some? then openedOn.value else p.openedOn;
      if day > today {
        return Some(InFuture);
      }
      if p.closedOn.Some? && day > p.closedOn.value {
        return Some(ExitBeforeEntry);
      }
      repo.Update(id, quantity, entry, stop, note, day);
      cached := None;
    }

    method ClosePosition(id: int, exitPrice: real, closedOn: Option<Day>, today: Day) returns (error: Option<Error>)
      requires Valid()
      modifies this`cached, repo`rows
      ensures Valid()
      ensures
        var day := if closedOn.Some? then closedOn.value else today;
        && error == CloseError(old(repo.rows), id, exitPrice, day, today)
        && (error.Some? ==> repo.rows == old(repo.rows))
        && (error.None? ==>
             && id in old(repo.rows) && repo.rows == old(repo.rows)[id := Exited(old(repo.rows)[id], exitPrice, day)]
             && OnlyRow(old(repo.rows), repo.rows, id) && IsExit(old(repo.rows)[id], repo.rows[id], exitPrice, day)
             && Next(old(repo.rows), Step.Exit(id, exitPrice, day), repo.rows, settings))
    {
      if exitPrice <= 0.0 {
        return Some(ExitPriceNotPositive);
      }
      if id !in repo.rows {
        return Some(NoSuchPosition);
      }
      if repo.rows[id].source != Manual {
        return Some(OwnedByBroker);
      }
      var day := if closedOn.Some? then closedOn.value else today;
      if day > today {
        return Some(InFuture);
      }
      if day < repo.rows[id].openedOn {
        return Some(ExitBeforeEntry);
      }
      repo.Close(id, exitPrice, day);
      cached := None;
      error := None;
    }

    /** Sizing a trade and entering it at the quantity found: a step of a run, which keeps the portfolio safe. */
    method Trade(symbol: string, key: Option<string>, entry: real, stop: real, risk: RiskSpec, lot: int, quotes: Quotes,
        today: Day)
      returns (taken: Result<Position, Error>)
      requires Valid() && AtOrAboveStops(repo.rows, quotes)
      modifies this`cached, repo`rows, repo`nextId
      ensures Valid()
      ensures taken.Err? ==> repo.rows == old(repo.rows)
      ensures taken.Ok? ==> Next(old(repo.rows), Take(taken.value, quotes, risk, lot), repo.rows, settings)
      ensures taken.Ok? ==> FollowsPlan(taken.value)
      ensures Safe(old(repo.rows), settings) ==> Safe(repo.rows, settings)
    {
      var sized := Size(entry, stop, Some(risk), lot, quotes);
      if sized.Err? {
        return Err(NotSizable(sized.error));
      }
      ghost var before := repo.rows;
      ghost var spec := SpecFor(before, quotes, settings, risk, entry, stop, lot);
      assert Answers(spec, Ok(sized.value));
      taken := OpenPosition(symbol, key, sized.value.quantity, entry, Some(stop), "", None, true, today);
      if taken.Ok? {
        assert spec == SpecFor(before, quotes, settings, risk, taken.value.entry, taken.value.stop.value, lot);
        TradeIsNext(taken.value, before, quotes, settings, risk, lot, spec, sized.value);
      }
    }
  }
}

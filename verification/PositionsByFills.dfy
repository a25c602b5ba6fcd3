/**
 * Every position and mismatch line of a reconciliation, stated by the fills and holdings alone: which rows
 * there are, and what each of their columns is.
 */
module PositionsByFills {
  import opened Wrappers
  import opened Dates
  import opened Ordering
  import opened Sums
  import opened Ledger
  import opened Reconciliation
  import opened Broker
  import opened BrokerRefs
  import opened BrokerConservation
  import opened BrokerStability
  import opened BrokerByFills
  import CR = ClosedRows

  // --- which fills a book has ------------------------------------------------------------------

  /** The fill is of that stock, under that funding. */
  predicate BelongsTo(t: Trade, key: BookKey) {
    t.symbol == key.symbol && FundingOf(t.product) == Some(key.funding)
  }

  lemma {:induction false} ProductNames()
    ensures FundingOf("CNC") == Some(Normal) && FundingOf("cnc") == Some(Normal)
    ensures FundingOf("MTF") == Some(Mtf) && FundingOf("mtf") == Some(Mtf)
    ensures FundingOf("INTRADAY") == Some(Intraday) && FundingOf("Intraday") == Some(Intraday)
    ensures FundingOf("") == Some(Intraday) && FundingOf("MARGIN").None?
  {
    assert Upper("CNC") == "CNC" && Upper("cnc") == "CNC";
    assert Upper("MTF") == "MTF" && Upper("mtf") == "MTF";
    assert Upper("INTRADAY") == "INTRADAY" && Upper("Intraday") == "INTRADAY";
    assert Upper("") == "" && Upper("MARGIN") == "MARGIN";
  }

  lemma {:induction false} FillsOfCount(trades: seq<Trade>, key: BookKey, t: Trade)
    ensures multiset(FillsOf(trades, key))[t] == if BelongsTo(t, key) then multiset(trades)[t] else 0
  {
    if trades != [] {
      var front, last := trades[..|trades| - 1], trades[|trades| - 1];
      FillsOfCount(front, key, t);
      SplitLast(trades);
      assert multiset(trades) == multiset(front) + multiset{last};
      FillsOfSnoc(front, last, key);
    }
  }

  /** A book has exactly the fills of its stock and funding, by time and then trade id. */
  lemma {:induction false} BookFillsExact(trades: seq<Trade>, key: BookKey)
    ensures forall t :: multiset(BookFills(trades, key))[t] == if BelongsTo(t, key) then multiset(trades)[t] else 0
    ensures
      var fills := BookFills(trades, key);
      forall i, j :: 0 <= i < j < |fills| ==>
        fills[i].time < fills[j].time
        || (fills[i].time == fills[j].time && StringLe(fills[i].tradeId, fills[j].tradeId))
  {
    FillOrder();
    SortBySorted(FillLe, FillsOf(trades, key));
    SortByPermutes(FillLe, FillsOf(trades, key));
    forall t
      ensures multiset(BookFills(trades, key))[t] == if BelongsTo(t, key) then multiset(trades)[t] else 0
    {
      FillsOfCount(trades, key, t);
    }
  }

  /** The shares the holding lists: delivery shares under normal funding, margin shares under MTF. */
  function Listed(h: Holding, key: BookKey): int {
    if h.symbol != key.symbol then 0
    else
      match key.funding
      case Normal => h.quantity
      case Mtf => h.mtfQuantity
      case Intraday => 0
  }

  ghost predicate IsLastListed(holdings: seq<Holding>, key: BookKey, i: int) {
    && 0 <= i < |holdings| && Listed(holdings[i], key) > 0
    && forall j :: i < j < |holdings| ==> Listed(holdings[j], key) <= 0
  }

  /** A book's holding is the last one that lists its stock with a positive quantity under its funding. */
  lemma {:induction false} HoldingExact(holdings: seq<Holding>, key: BookKey)
    ensures
      var r := HoldingOf(holdings, key);
      && (r.None? <==> forall i :: 0 <= i < |holdings| ==> Listed(holdings[i], key) <= 0)
      && (r.Some? ==> exists i :: IsLastListed(holdings, key, i) && holdings[i] == r.value)
      && (r.Some? ==> HeldUnder(r.value, key.funding) == Listed(r.value, key))
  {
    if holdings != [] {
      var front, last := holdings[..|holdings| - 1], holdings[|holdings| - 1];
      HoldingExact(front, key);
      assert forall i :: 0 <= i < |front| ==> front[i] == holdings[i];
      assert Listed(last, key) > 0 <==> last.symbol == key.symbol && HeldUnder(last, key.funding) > 0;
      if Listed(last, key) <= 0 && HoldingOf(front, key).Some? {
        var i :| IsLastListed(front, key, i) && front[i] == HoldingOf(front, key).value;
        assert IsLastListed(holdings, key, i);
      } else if Listed(last, key) > 0 {
        assert IsLastListed(holdings, key, |front|);
      }
    }
  }

  // --- a book, counted off its fills -------------------------------------------------------------

  function Moved(t: Trade): int {
    var shares: int := t.quantity;
    if t.side == Buy then shares else -shares
  }

  /** Shares bought less shares sold before a day. */
  function NetBy(fills: seq<Trade>, day: Day): int {
    if fills == [] then 0
    else
      var t := fills[|fills| - 1];
      NetBy(fills[..|fills| - 1], day)
      + if DateOf(t.time) < day then Moved(t) else 0
  }

  /** ... and from that day on. */
  function NetSince(fills: seq<Trade>, day: Day): int {
    if fills == [] then 0
    else
      var t := fills[|fills| - 1];
      NetSince(fills[..|fills| - 1], day)
      + if DateOf(t.time) < day then 0 else Moved(t)
  }

  lemma {:induction false} NetsAgree(fills: seq<Trade>, day: Day)
    ensures NetBefore(fills, day) == NetBy(fills, day) && NetFrom(fills, day) == NetSince(fills, day)
  {
    if fills != [] {
      NetsAgree(fills[..|fills| - 1], day);
    }
  }

  /** The shares of the buys, in order: each with its price, its day and its part of the charges. */
  function Bought(fills: seq<Trade>): seq<Share> {
    if fills == [] then []
    else
      var t := fills[|fills| - 1];
      Bought(fills[..|fills| - 1])
      + if t.side == Buy then Repeat(Share(t.price, DateOf(t.time), t.charges / t.quantity as real, ""), t.quantity)
        else []
  }

  /** `shares`: all the book ever had, the opening ones first, at the holding's average cost. */
  datatype Facts = Facts(opening: nat, before: string, fills: seq<Trade>, shares: seq<Share>)

  function FactsOf(inputs: Inputs, key: BookKey): Facts {
    var fills, holding := BookFills(inputs.trades, key), HoldingOf(inputs.holdings, key);
    var before := "before-" + Iso(inputs.historyFrom);
    if holding.None? then Facts(0, before, fills, Bought(fills))
    else
      var opening := Max(0, HeldUnder(holding.value, key.funding) - NetBy(fills, inputs.today));
      Facts(
        opening, before, fills,
        Repeat(Share(holding.value.avgCost, inputs.historyFrom, 0.0, ""), opening) + Bought(fills))
  }

  lemma {:induction false} AcquiredIsBought(opening: Account, fills: seq<Trade>)
    ensures Acquired(opening, fills) == UnnamedAll(opening.queue) + Bought(fills)
  {
    if fills == [] {
      assert UnnamedAll(opening.queue) + [] == UnnamedAll(opening.queue);
    } else {
      AcquiredIsBought(opening, fills[..|fills| - 1]);
    }
  }

  lemma {:induction false} FactsOfAccount(inputs: Inputs, key: BookKey)
    requires Named(inputs.trades)
    ensures
      var f, opening := FactsOf(inputs, key), inputs.OpeningOf(key);
      && f.fills == BookFills(inputs.trades, key)
      && |opening.queue| == f.opening && Acquired(opening, f.fills) == f.shares
      && BrokerByFills.Fits(opening, f.fills, f.before)
      && Taken(f.opening, f.fills) + Held(f.opening, f.fills) == |f.shares|
  {
    var fills, opening := BookFills(inputs.trades, key), inputs.OpeningOf(key);
    var holding := HoldingOf(inputs.holdings, key);
    NetsAgree(fills, inputs.today);
    OpeningIsFresh(inputs.Older(key), holding, inputs.historyFrom);
    OpeningHasOneEpisode(inputs.Older(key), holding, inputs.historyFrom);
    AcquiredIsBought(opening, fills);
    BookFillsFrom(inputs.trades, key);
    EnoughAcquired(opening, fills);
    if holding.Some? {
      assert UnnamedAll(opening.queue) ==
        Repeat(Share(holding.value.avgCost, inputs.historyFrom, 0.0, ""), FactsOf(inputs, key).opening);
    } else {
      assert UnnamedAll(opening.queue) + Bought(fills) == Bought(fills);
    }
  }

  // --- what a row says ---------------------------------------------------------------------------------

  /** One of the shares has that day, and none an earlier one. */
  ghost predicate IsEarliest(day: Day, shares: seq<Share>) {
    && (exists i :: 0 <= i < |shares| && shares[i].day == day)
    && (forall i :: 0 <= i < |shares| ==> day <= shares[i].day)
  }

  /** The sales of one day out of one holding, as a position. */
  ghost predicate IsClosedPosition(inputs: Inputs, key: BookKey, k: ExitKey, row: ImportedPosition) {
    var f := FactsOf(inputs, key);
    && Taken(f.opening, f.fills) <= |f.shares|
    && var shares := SharesUnder(f.opening, f.before, f.fills, k, f.shares);
    && shares != [] && row.quantity == |shares|
    && row.symbol == key.symbol && row.funding == key.funding && row.closedOn == Some(k.day) && row.exitPrice.Some?
    && row.ref == key.symbol + ":" + FundingName(key.funding) + ":closed:" + k.episode + ":" + Iso(k.day)
    && Scaled(row.quantity, row.entry) == Sum(SharePrice, shares)
    && Scaled(row.quantity, row.exitPrice.value) == ProceedsUnder(f.opening, f.before, f.fills, k)
    && row.charges == Sum(ShareCharge, shares) + SaleChargesUnder(f.opening, f.before, f.fills, k)
    && IsEarliest(row.openedOn, shares)
    && row.note == if key.funding == Intraday then "intraday - exited the same day" else ""
  }

  /** The shares left, as a position. */
  ghost predicate IsOpenPosition(inputs: Inputs, key: BookKey, row: ImportedPosition) {
    var f := FactsOf(inputs, key);
    && Taken(f.opening, f.fills) <= |f.shares|
    && var left, name := f.shares[Taken(f.opening, f.fills)..], HoldingName(f.opening, f.before, f.fills);
    && left != [] && row.quantity == |left| && key.funding != Intraday
    && row.symbol == key.symbol && row.funding == key.funding && row.closedOn.None? && row.exitPrice.None?
    && row.ref == key.symbol + ":" + FundingName(key.funding) + ":open:" + name
    && Scaled(row.quantity, row.entry) == Sum(SharePrice, left)
    && row.charges == Sum(ShareCharge, left)
    && IsEarliest(row.openedOn, left)
    && row.note == if "before-" <= name then HeldBeforeNote(inputs.historyFrom) else ""
  }

  // --- closed positions --------------------------------------------------------------------------------

  lemma {:induction false} EarliestOfSales(items: seq<Sold>)
    requires items != []
    ensures EarliestDay(items).Some? && IsEarliest(EarliestDay(items).value, UnnamedAll(SharesOf(items)))
  {
    var front, last := items[..|items| - 1], items[|items| - 1];
    var shares := UnnamedAll(SharesOf(items));
    assert shares[|items| - 1].day == last.share.day;
    if front != [] {
      EarliestOfSales(front);
      var before := UnnamedAll(SharesOf(front));
      assert forall i :: 0 <= i < |front| ==> shares[i] == before[i];
      var i :| 0 <= i < |before| && before[i].day == EarliestDay(front).value;
      assert shares[i].day == EarliestDay(front).value;
    }
  }

  lemma {:induction false} OneEarliest(a: Day, b: Day, shares: seq<Share>)
    requires IsEarliest(a, shares) && IsEarliest(b, shares)
    ensures a == b
  {}

  lemma {:induction false} OneQuotient(n: nat, a: real, b: real)
    requires n > 0 && Scaled(n, a) == Scaled(n, b)
    ensures a == b
  {}

  /** The columns of the closed row of an exit, from the sales under it. */
  lemma {:induction false} ClosedRowColumns(key: BookKey, sold: seq<Sold>, k: ExitKey, row: ImportedPosition)
    requires k in Keys(sold) && IsClosedRow(row, key, sold, k)
    ensures
      var items := At(sold, k);
      var shares := UnnamedAll(SharesOf(items));
      && items != [] && row.quantity == |shares| && row.exitPrice.Some?
      && Scaled(row.quantity, row.entry) == Sum(SharePrice, shares)
      && Scaled(row.quantity, row.exitPrice.value) == Sum(SoldProceeds, items)
      && row.charges == Sum(ShareCharge, shares) + Sum(SaleCharge, items)
      && IsEarliest(row.openedOn, shares)
  {
    ClosedRowTotals(key, sold, k);
    SplitCharges(At(sold, k));
    SharesOfSales(At(sold, k));
    EarliestOfSales(At(sold, k));
  }

  lemma {:induction false} UnnamedTotals(shares: seq<Share>)
    ensures Sum(SharePrice, UnnamedAll(shares)) == Sum(SharePrice, shares)
    ensures Sum(ShareCharge, UnnamedAll(shares)) == Sum(ShareCharge, shares)
  {
    SumUnnamed(SharePrice, shares);
    SumUnnamed(ShareCharge, shares);
  }

  lemma {:induction false} SharesOfSales(items: seq<Sold>)
    ensures Sum(SharePrice, UnnamedAll(SharesOf(items))) == Sum(SoldCost, items)
    ensures Sum(ShareCharge, UnnamedAll(SharesOf(items))) == Sum(ShareChargeOfSale, items)
  {
    SumShares(SharePrice, SoldCost, items);
    SumShares(ShareCharge, ShareChargeOfSale, items);
    UnnamedTotals(SharesOf(items));
  }

  lemma {:induction false} ClosedRowByFills(inputs: Inputs, key: BookKey, k: ExitKey, row: ImportedPosition)
    requires Named(inputs.trades) && k in Keys(inputs.AccountOf(key).sold)
    requires IsClosedRow(row, key, inputs.AccountOf(key).sold, k)
    ensures IsClosedPosition(inputs, key, k, row)
  {
    var f := FactsOf(inputs, key);
    FactsOfAccount(inputs, key);
    SalesAgree(inputs.OpeningOf(key), f.fills, f.before, k, f.shares);
    ClosedRowColumns(key, inputs.AccountOf(key).sold, k, row);
  }

  /** The columns determine the row. */
  lemma {:induction false} OneClosedPosition(inputs: Inputs, key: BookKey, k: ExitKey, a: ImportedPosition,
      b: ImportedPosition)
    requires IsClosedPosition(inputs, key, k, a) && IsClosedPosition(inputs, key, k, b)
    ensures a == b
  {
    var f := FactsOf(inputs, key);
    OneEarliest(a.openedOn, b.openedOn, SharesUnder(f.opening, f.before, f.fills, k, f.shares));
    OneQuotient(a.quantity, a.entry, b.entry);
    OneQuotient(a.quantity, a.exitPrice.value, b.exitPrice.value);
  }

  /** Sales under a key leave a row. */
  lemma {:induction false} SalesListed(inputs: Inputs, key: BookKey, k: ExitKey) returns (row: ImportedPosition)
    requires Named(inputs.trades)
    requires
      var f := FactsOf(inputs, key);
      && Taken(f.opening, f.fills) <= |f.shares|
      && SharesUnder(f.opening, f.before, f.fills, k, f.shares) != []
    ensures k in Keys(inputs.AccountOf(key).sold) && IsClosedRow(row, key, inputs.AccountOf(key).sold, k)
    ensures HasRow(ClosedRows(key, inputs.AccountOf(key).sold), row)
  {
    var f, sold := FactsOf(inputs, key), inputs.AccountOf(key).sold;
    FactsOfAccount(inputs, key);
    SalesAgree(inputs.OpeningOf(key), f.fills, f.before, k, f.shares);
    KeysAt(sold, k);
    row := RowsAtSnoc(key, sold, [], k);
    ClosedRowIn(key, sold, k, row);
  }

  /**
   * The closed positions are exactly these: one for each day and holding with matched sales, at the average
   * price of the shares they took - the earliest acquired that were still held - and of the sales themselves.
   */
  lemma {:induction false} ClosedPositionsExact(inputs: Inputs, row: ImportedPosition)
    requires Named(inputs.trades) && row.closedOn.Some?
    ensures HasRow(Positions(inputs), row) <==>
      exists k :: IsClosedPosition(inputs, BookKey(row.symbol, row.funding), k, row)
  {
    var key := BookKey(row.symbol, row.funding);
    CR.ClosedPositionIsRow(inputs, row, key);
    if HasRow(Positions(inputs), row) {
      var k := ClosedRowFrom(key, inputs.AccountOf(key).sold, row);
      ClosedRowByFills(inputs, key, k, row);
    }
    if k :| IsClosedPosition(inputs, key, k, row) {
      var listed := SalesListed(inputs, key, k);
      ClosedRowByFills(inputs, key, k, listed);
      OneClosedPosition(inputs, key, k, row, listed);
    }
  }

  // --- open positions ----------------------------------------------------------------------------------

  lemma {:induction false} FirstDayIsEarliest(queue: seq<Share>)
    requires queue != []
    ensures IsEarliest(FirstDay(queue), UnnamedAll(queue))
  {
    var front, last := queue[..|queue| - 1], queue[|queue| - 1];
    var shares := UnnamedAll(queue);
    assert shares[|queue| - 1].day == last.day;
    if |queue| > 1 {
      FirstDayIsEarliest(front);
      var before := UnnamedAll(front);
      assert forall i :: 0 <= i < |front| ==> shares[i] == before[i];
      var i :| 0 <= i < |before| && before[i].day == FirstDay(front);
      assert shares[i].day == FirstDay(front);
    }
  }

  lemma {:induction false} LeftOf(opening: Account, fills: seq<Trade>, all: seq<Share>)
    requires Fresh(opening) && Acquired(opening, fills) == all
    ensures Taken(|opening.queue|, fills) <= |all|
    ensures UnnamedAll(AfterFills(opening, fills).queue) == all[Taken(|opening.queue|, fills)..]
  {
    var queue := AfterFills(opening, fills).queue;
    EnoughAcquired(opening, fills);
    HeldIsQueue(opening, fills);
    NextShares(opening, fills, |queue|, all);
    assert queue[..|queue|] == queue;
  }

  lemma {:induction false} FirstLeftNamed(opening: Account, fills: seq<Trade>, before: string)
    requires BrokerByFills.Fits(opening, fills, before) && AfterFills(opening, fills).queue != []
    ensures AfterFills(opening, fills).queue[0].episode == HoldingName(|opening.queue|, before, fills)
  {
    EpisodeInvariant(opening, fills);
    NameIsEpisode(opening, fills, before);
  }

  lemma {:induction false} QueueIsLeft(inputs: Inputs, key: BookKey)
    requires Named(inputs.trades)
    ensures
      var f, a := FactsOf(inputs, key), inputs.AccountOf(key);
      && Taken(f.opening, f.fills) <= |f.shares|
      && UnnamedAll(a.queue) == f.shares[Taken(f.opening, f.fills)..]
      && (a.queue != [] ==> a.queue[0].episode == HoldingName(f.opening, f.before, f.fills))
  {
    var f, opening := FactsOf(inputs, key), inputs.OpeningOf(key);
    FactsOfAccount(inputs, key);
    LeftOf(opening, f.fills, f.shares);
    if inputs.AccountOf(key).queue != [] {
      FirstLeftNamed(opening, f.fills, f.before);
    }
  }

  lemma {:induction false} OpenRowByFills(inputs: Inputs, key: BookKey, row: ImportedPosition)
    requires Named(inputs.trades) && key.funding != Intraday && inputs.AccountOf(key).queue != []
    requires row == OpenRow(key, inputs.AccountOf(key).queue, inputs.historyFrom)
    ensures IsOpenPosition(inputs, key, row)
  {
    var queue := inputs.AccountOf(key).queue;
    QueueIsLeft(inputs, key);
    OpenRowTotals(key, queue, inputs.historyFrom);
    UnnamedTotals(queue);
    FirstDayIsEarliest(queue);
  }

  lemma {:induction false} OneOpenPosition(inputs: Inputs, key: BookKey, a: ImportedPosition, b: ImportedPosition)
    requires IsOpenPosition(inputs, key, a) && IsOpenPosition(inputs, key, b)
    ensures a == b
  {
    var f := FactsOf(inputs, key);
    OneEarliest(a.openedOn, b.openedOn, f.shares[Taken(f.opening, f.fills)..]);
    OneQuotient(a.quantity, a.entry, b.entry);
  }

  /** The open positions are exactly these: one for each stock and funding, intraday apart, with shares left. */
  lemma {:induction false} OpenPositionsExact(inputs: Inputs, row: ImportedPosition)
    requires Named(inputs.trades) && row.closedOn.None?
    ensures HasRow(Positions(inputs), row) <==> IsOpenPosition(inputs, BookKey(row.symbol, row.funding), row)
  {
    var key := BookKey(row.symbol, row.funding);
    OpenPositionIsRow(inputs, row, key);
    if HasRow(Positions(inputs), row) {
      OpenRowByFills(inputs, key, row);
    }
    if IsOpenPosition(inputs, key, row) {
      QueueIsLeft(inputs, key);
      var listed := OpenRow(key, inputs.AccountOf(key).queue, inputs.historyFrom);
      OpenRowByFills(inputs, key, listed);
      OneOpenPosition(inputs, key, row, listed);
    }
  }

  // --- mismatch lines ----------------------------------------------------------------------------------

  lemma {:induction false} BookLedger(inputs: Inputs, key: BookKey)
    requires Named(inputs.trades)
    ensures
      var f, a := FactsOf(inputs, key), inputs.AccountOf(key);
      && |a.queue| == Held(f.opening, f.fills)
      && a.unmatched == Shortfalls(f.opening, f.fills)
      && inputs.Expected(key)
        == HeldQuantity(HoldingOf(inputs.holdings, key), key.funding) + NetSince(f.fills, inputs.today)
  {
    var f, opening := FactsOf(inputs, key), inputs.OpeningOf(key);
    FactsOfAccount(inputs, key);
    NetsAgree(f.fills, inputs.today);
    HeldIsQueue(opening, f.fills);
    ShortfallsReported(opening, f.fills);
  }

  /**
   * One line for each sale that found too few shares, by how many; then what an intraday book has left, or
   * what another one has left against what the broker should show, where they differ.
   */
  ghost predicate LinesAre(key: BookKey, lines: seq<Mismatch>, short: seq<int>, left: nat, shown: int, held: bool) {
    && |lines| >= |short|
    && (forall i :: 0 <= i < |short| ==> lines[i] == SoldMore(key.symbol, short[i]))
    && lines[|short|..] == (
         if key.funding == Intraday then if left > 0 then [IntradayLeft(key.symbol, left)] else []
         else if left != shown && (held || left > 0) then [Disagrees(key.symbol, left, shown)]
         else [])
  }

  lemma {:induction false} LinesSplit(key: BookKey, unmatched: seq<pos>, left: nat, shown: int, held: bool,
      lines: seq<Mismatch>, short: seq<int>)
    requires lines == SoldMoreLines(key, unmatched) + LeftoverLines(key, left, shown, !held)
    requires unmatched == short
    ensures LinesAre(key, lines, short, left, shown, held)
  {}

  /** The lines of a book: its shortfalls and leftovers are those counted off the fills. */
  lemma {:induction false} LinesExact(inputs: Inputs, key: BookKey) returns (short: seq<int>, left: nat, shown: int)
    requires Named(inputs.trades)
    ensures
      var f := FactsOf(inputs, key);
      && short == Shortfalls(f.opening, f.fills) && left == Held(f.opening, f.fills)
      && shown == HeldQuantity(HoldingOf(inputs.holdings, key), key.funding) + NetSince(f.fills, inputs.today)
    ensures LinesAre(key, BookMismatches(inputs, key), short, left, shown, HoldingOf(inputs.holdings, key).Some?)
  {
    var a := inputs.AccountOf(key);
    BookLedger(inputs, key);
    BookRowsOf(inputs, key, a);
    short, left, shown := a.unmatched, |a.queue|, inputs.Expected(key);
    LinesSplit(key, a.unmatched, left, shown, HoldingOf(inputs.holdings, key).Some?, BookMismatches(inputs, key),
      short);
  }

  lemma {:induction false} LinesOverSnoc(inputs: Inputs, keys: seq<BookKey>, line: Mismatch)
    requires keys != []
    ensures line in MismatchesOver(inputs, keys) <==>
      line in MismatchesOver(inputs, keys[..|keys| - 1]) || line in BookMismatches(inputs, keys[|keys| - 1])
  {
    var before, lines := MismatchesOver(inputs, keys[..|keys| - 1]), BookMismatches(inputs, keys[|keys| - 1]);
    assert line in before + lines <==> line in before || line in lines;
  }

  lemma {:induction false} LineOverKeys(inputs: Inputs, keys: seq<BookKey>, i: nat, line: Mismatch)
    requires i < |keys| && line in BookMismatches(inputs, keys[i])
    ensures line in MismatchesOver(inputs, keys)
  {
    LinesOverSnoc(inputs, keys, line);
    if i < |keys| - 1 {
      LineOverKeys(inputs, keys[..|keys| - 1], i, line);
    }
  }

  lemma {:induction false} LineFromKeys(inputs: Inputs, keys: seq<BookKey>, line: Mismatch) returns (key: BookKey)
    requires line in MismatchesOver(inputs, keys)
    ensures line in BookMismatches(inputs, key)
  {
    LinesOverSnoc(inputs, keys, line);
    if line in BookMismatches(inputs, keys[|keys| - 1]) {
      key := keys[|keys| - 1];
    } else {
      key := LineFromKeys(inputs, keys[..|keys| - 1], line);
    }
  }

  /** A book with neither fills nor a holding has nothing to report. */
  lemma {:induction false} NothingToReport(inputs: Inputs, key: BookKey)
    requires key !in inputs.BookKeys()
    ensures BookMismatches(inputs, key) == []
  {
    TradedKeyHasFills(inputs.trades, key);
    if HoldingOf(inputs.holdings, key).Some? {
      HeldKeyListed(inputs.holdings, key);
    }
    assert BookFills(inputs.trades, key) == [];
  }

  /** A reconciliation reports exactly the lines of its books. */
  lemma {:induction false} MismatchesExact(inputs: Inputs, line: Mismatch)
    ensures line in Mismatches(inputs) <==> exists key :: line in BookMismatches(inputs, key)
  {
    BookKeysListed(inputs);
    var keys := SortedSet(BookKeyLe, inputs.BookKeys());
    if line in Mismatches(inputs) {
      var _ := LineFromKeys(inputs, keys, line);
    }
    if key :| line in BookMismatches(inputs, key) {
      if key !in inputs.BookKeys() {
        NothingToReport(inputs, key);
      }
      assert key in keys;
      var i :| 0 <= i < |keys| && keys[i] == key;
      LineOverKeys(inputs, keys, i, line);
    }
  }
}

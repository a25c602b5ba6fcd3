/** When `reconcile` reports that the trades and the broker disagree: exactly when it should, and where it does not. */
module BrokerMismatch {
  import opened Wrappers
  import opened Dates
  import opened Sums
  import opened Ledger
  import opened Reconciliation
  import opened BrokerConservation

  lemma {:induction false} NetSplits(fills: seq<Trade>, today: Day)
    ensures Net(fills) == NetBefore(fills, today) + NetFrom(fills, today)
    ensures Net(fills) == Count(BuyQuantity, fills) - Count(SellQuantity, fills)
  {
    if fills != [] {
      NetSplits(fills[..|fills| - 1], today);
    }
  }

  lemma {:induction false} UnmatchedPositive(unmatched: seq<pos>)
    ensures Count(Shares, unmatched) >= |unmatched|
  {
    if unmatched != [] {
      UnmatchedPositive(unmatched[..|unmatched| - 1]);
    }
  }

  /** The open quantity against what the broker shows, for every book. */
  lemma OpenQuantityExact(inputs: Inputs, key: BookKey)
    ensures var a := inputs.AccountOf(key);
      |a.queue| == inputs.Expected(key) + Unmatched(a) - inputs.Older(key)
                   + if HoldingOf(inputs.holdings, key).Some? then Max(0, inputs.Older(key)) else 0
    ensures Unmatched(inputs.AccountOf(key)) >= |inputs.AccountOf(key).unmatched|
  {
    var opening, fills := inputs.OpeningOf(key), BookFills(inputs.trades, key);
    OpeningIsFresh(inputs.Older(key), HoldingOf(inputs.holdings, key), inputs.historyFrom);
    QuantitiesBalance(opening, fills);
    NetSplits(fills, inputs.today);
    UnmatchedPositive(inputs.AccountOf(key).unmatched);
  }

  ghost predicate ReportsDisagreement(inputs: Inputs, key: BookKey) {
    exists line :: line in BookMismatches(inputs, key) && line.Disagrees?
  }

  lemma DisagreementLine(inputs: Inputs, key: BookKey)
    requires key.funding != Intraday
    ensures ReportsDisagreement(inputs, key) <==>
      |inputs.AccountOf(key).queue| != inputs.Expected(key)
      && !(HoldingOf(inputs.holdings, key).None? && inputs.AccountOf(key).queue == [])
  {
    var a := inputs.AccountOf(key);
    var lines := SoldMoreLines(key, a.unmatched);
    var open, expected, notHeld := |a.queue|, inputs.Expected(key), HoldingOf(inputs.holdings, key).None?;
    var left := LeftoverLines(key, open, expected, notHeld);
    assert BookMismatches(inputs, key) == lines + left;
    assert forall i :: 0 <= i < |lines| ==> !lines[i].Disagrees?;
    if open != expected && !(notHeld && open == 0) {
      assert left == [Disagrees(key.symbol, open, expected)];
      assert (lines + left)[|lines|] == left[0];
    } else {
      assert lines + left == lines;
    }
  }

  /**
   * With a holding, the line "trades leave / the broker shows" appears exactly when a sale found no
   * shares or the fetched trades hold more than the broker does.
   */
  lemma DisagreementWithHolding(inputs: Inputs, key: BookKey)
    requires key.funding != Intraday && HoldingOf(inputs.holdings, key).Some?
    ensures ReportsDisagreement(inputs, key) <==>
      inputs.AccountOf(key).unmatched != [] || inputs.Older(key) < 0
  {
    OpenQuantityExact(inputs, key);
    DisagreementLine(inputs, key);
  }

  /** Without one, a book left empty is exempt, and the shares sold before today weigh against the unmatched ones. */
  lemma DisagreementWithoutHolding(inputs: Inputs, key: BookKey)
    requires key.funding != Intraday && HoldingOf(inputs.holdings, key).None?
    ensures ReportsDisagreement(inputs, key) <==>
      inputs.AccountOf(key).queue != []
      && Unmatched(inputs.AccountOf(key)) + NetBefore(BookFills(inputs.trades, key), inputs.today) != 0
  {
    OpenQuantityExact(inputs, key);
    DisagreementLine(inputs, key);
  }

  /**
   * "Open quantity = expected + unmatched + what the history holds beyond the holding" is the
   * formula the line rests on. It holds for a book exactly when the opening shares it infers are
   * backed by a holding.
   */
  lemma FormulaHoldsIff(inputs: Inputs, key: BookKey)
    ensures var a := inputs.AccountOf(key);
      |a.queue| == inputs.Expected(key) + Unmatched(a) + Max(0, -inputs.Older(key))
      <==> HoldingOf(inputs.holdings, key).Some? || inputs.Older(key) <= 0
  {
    OpenQuantityExact(inputs, key);
  }

  // --- the book the formula misses ---------------------------------------------------------

  function ExampleFill(id: string, side: Side, day: Day): Trade
    requires day < MAX_ORDINAL
  {
    Trade(id, "TCS", None, side, "CNC", 1, 100.0, day * SECONDS_PER_DAY, 0.0)
  }

  const EXAMPLE_KEY := BookKey("TCS", Normal)

  lemma CncIsDelivery()
    ensures FundingOf("CNC") == Some(Normal)
  {
    assert Upper("CNC") == "CNC";
  }

  /** Fills of the example's book, in the order of their times, are matched in that order. */
  lemma {:induction false} ExampleFillsInOrder(trades: seq<Trade>)
    requires forall i :: 0 <= i < |trades| ==> trades[i].symbol == "TCS" && trades[i].product == "CNC"
    requires forall i, j :: 0 <= i < j < |trades| ==> trades[i].time < trades[j].time
    ensures FillsOf(trades, EXAMPLE_KEY) == trades && BookFills(trades, EXAMPLE_KEY) == trades
  {
    if trades != [] {
      ExampleFillsInOrder(trades[..|trades| - 1]);
      CncIsDelivery();
      SplitLast(trades);
    }
  }

  /** One share sold yesterday that no trade explains, one bought today, nothing held. */
  function SoldThenBought(historyFrom: Day, day: Day): Inputs
    requires day < MAX_ORDINAL - 1
  {
    Inputs([ExampleFill("s", Sell, day), ExampleFill("b", Buy, day + 1)], [], historyFrom, day + 1)
  }

  lemma SoldThenBoughtNet(historyFrom: Day, day: Day)
    requires day < MAX_ORDINAL - 1
    ensures
      var inputs := SoldThenBought(historyFrom, day);
      && BookFills(inputs.trades, EXAMPLE_KEY) == inputs.trades
      && NetBefore(inputs.trades, inputs.today) == -1
      && inputs.OpeningOf(EXAMPLE_KEY) == EMPTY
  {
    var inputs := SoldThenBought(historyFrom, day);
    var sale, buy := inputs.trades[0], inputs.trades[1];
    ExampleFillsInOrder(inputs.trades);
    assert [] + [sale] == [sale] && [sale] + [buy] == inputs.trades;
    CountSnoc(SignedBefore(inputs.today), [], sale);
    CountSnoc(SignedBefore(inputs.today), [sale], buy);
  }

  lemma SoldThenBoughtAccount(historyFrom: Day, day: Day)
    requires day < MAX_ORDINAL - 1
    ensures
      var a := SoldThenBought(historyFrom, day).AccountOf(EXAMPLE_KEY);
      a.unmatched == [1] && |a.queue| == 1
  {
    var trades := SoldThenBought(historyFrom, day).trades;
    SoldThenBoughtNet(historyFrom, day);
    assert trades == [trades[0], trades[1]];
    SaleThenBuy(trades[0], trades[1]);
  }

  lemma SaleThenBuy(sale: Trade, buy: Trade)
    requires sale.side == Sell && buy.side == Buy && sale.quantity == buy.quantity == 1
    ensures
      var a := AfterFills(EMPTY, [sale, buy]);
      a.unmatched == [1] && |a.queue| == 1
  {
    AfterFillsSnoc(EMPTY, [], sale);
    AfterFillsSnoc(EMPTY, [sale], buy);
    assert [] + [sale] == [sale] && [sale] + [buy] == [sale, buy];
    assert AfterSell(EMPTY, sale).unmatched == [1];
  }

  /** The two cancel: a sale is unmatched, shares are left, and no line appears. */
  lemma UnmatchedSaleWithoutDisagreement(historyFrom: Day, day: Day)
    requires day < MAX_ORDINAL - 1
    ensures
      var inputs := SoldThenBought(historyFrom, day);
      && inputs.AccountOf(EXAMPLE_KEY).unmatched == [1]
      && inputs.AccountOf(EXAMPLE_KEY).queue != []
      && !ReportsDisagreement(inputs, EXAMPLE_KEY)
  {
    var inputs := SoldThenBought(historyFrom, day);
    SoldThenBoughtNet(historyFrom, day);
    SoldThenBoughtAccount(historyFrom, day);
    assert [1] == [] + [1];
    CountSnoc<pos>(Shares, [], 1);
    DisagreementWithoutHolding(inputs, EXAMPLE_KEY);
  }
}

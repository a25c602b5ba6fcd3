/**
 * Reconciling again after more fills: what an earlier reconciliation closed stays as it was, as long
 * as the opening shares inferred from the holding stay the same. Module ClosedRows says what becomes of
 * it when they do not.
 */
module BrokerStability {
  import opened Wrappers
  import opened Dates
  import opened Ordering
  import opened Sums
  import opened Ledger
  import opened Reconciliation
  import opened Broker
  import opened BrokerRefs
  import opened BrokerConservation
  import opened BrokerMismatch

  ghost predicate AllUpTo(fills: seq<Trade>, day: Day) {
    forall i :: 0 <= i < |fills| ==> DayOf(fills[i]) <= day
  }

  ghost predicate AllAfter(fills: seq<Trade>, day: Day) {
    forall i :: 0 <= i < |fills| ==> DayOf(fills[i]) > day
  }

  // --- later fills sort after earlier ones ------------------------------------------------

  lemma {:induction false} FillsOfAppend(a: seq<Trade>, b: seq<Trade>, key: BookKey)
    ensures FillsOf(a + b, key) == FillsOf(a, key) + FillsOf(b, key)
  {
    if b == [] {
      assert a + b == a;
    } else {
      var front, last := b[..|b| - 1], b[|b| - 1];
      FillsOfAppend(a, front, key);
      SplitLast(b);
      Regrouped(a, front, [last]);
      FillsOfSnoc(a + front, last, key);
      FillsOfSnoc(front, last, key);
      Regrouped(FillsOf(a, key), FillsOf(front, key), [last]);
    }
  }

  lemma {:induction false} FillsOfFrom(trades: seq<Trade>, key: BookKey)
    ensures forall i :: 0 <= i < |FillsOf(trades, key)| ==> FillsOf(trades, key)[i] in trades
  {
    if trades != [] {
      var front, last := trades[..|trades| - 1], trades[|trades| - 1];
      FillsOfFrom(front, key);
      assert trades == front + [last];
      FillsOfSnoc(front, last, key);
    }
  }

  lemma SortedFrom(s: seq<Trade>)
    ensures forall i :: 0 <= i < |SortBy(FillLe, s)| ==> SortBy(FillLe, s)[i] in s
  {
    var r := SortBy(FillLe, s);
    SortByPermutes(FillLe, s);
    MultisetMembers(r, s);
    assert forall i :: 0 <= i < |r| ==> r[i] in r;
  }

  lemma BookFillsFrom(trades: seq<Trade>, key: BookKey)
    ensures forall i :: 0 <= i < |BookFills(trades, key)| ==> BookFills(trades, key)[i] in trades
  {
    var fills := FillsOf(trades, key);
    var r := BookFills(trades, key);
    SortedFrom(fills);
    FillsOfFrom(trades, key);
    forall i | 0 <= i < |r| ensures r[i] in trades {
      var j :| 0 <= j < |fills| && fills[j] == r[i];
    }
  }

  /** Fills of later days are matched after all earlier ones. */
  lemma BookFillsAppend(trades: seq<Trade>, more: seq<Trade>, key: BookKey, day: Day)
    requires AllUpTo(trades, day) && AllAfter(more, day)
    ensures BookFills(trades + more, key) == BookFills(trades, key) + BookFills(more, key)
    ensures AllUpTo(BookFills(trades, key), day) && AllAfter(BookFills(more, key), day)
  {
    var a, b := FillsOf(trades, key), FillsOf(more, key);
    FillsOfAppend(trades, more, key);
    FillsOfFrom(trades, key);
    FillsOfFrom(more, key);
    forall i, j | 0 <= i < |a| && 0 <= j < |b| ensures FillLe(a[i], b[j]) {
      assert a[i] in trades && b[j] in more;
      assert DayOf(a[i]) < DayOf(b[j]);
    }
    SortByAppend(FillLe, a, b);
    BookFillsFrom(trades, key);
    BookFillsFrom(more, key);
  }

  // --- what is sold stays sold ----------------------------------------------------------------

  lemma {:induction false} SoldGrows(a: Account, more: seq<Trade>, day: Day)
    requires AllAfter(more, day)
    ensures |a.sold| <= |AfterFills(a, more).sold| && AfterFills(a, more).sold[..|a.sold|] == a.sold
    ensures forall i :: |a.sold| <= i < |AfterFills(a, more).sold| ==> AfterFills(a, more).sold[i].day > day
  {
    if more != [] {
      SoldGrows(a, more[..|more| - 1], day);
    }
  }

  lemma {:induction false} SoldUpTo(opening: Account, fills: seq<Trade>, day: Day)
    requires opening.sold == [] && AllUpTo(fills, day)
    ensures forall i :: 0 <= i < |AfterFills(opening, fills).sold| ==> AfterFills(opening, fills).sold[i].day <= day
  {
    if fills != [] {
      SoldUpTo(opening, fills[..|fills| - 1], day);
    }
  }

  lemma {:induction false} NoneUnderEarlierKey(sold: seq<Sold>, k: ExitKey)
    requires forall i :: 0 <= i < |sold| ==> sold[i].day > k.day
    ensures At(sold, k) == []
  {
    if sold != [] {
      NoneUnderEarlierKey(sold[..|sold| - 1], k);
    }
  }

  /** Later fills add nothing to an exit of an earlier day. */
  lemma ExitKept(a: Account, more: seq<Trade>, day: Day, k: ExitKey)
    requires AllAfter(more, day) && k.day <= day
    ensures At(AfterFills(a, more).sold, k) == At(a.sold, k)
  {
    var later := AfterFills(a, more).sold;
    SoldGrows(a, more, day);
    var extra := later[|a.sold|..];
    assert later == a.sold + extra;
    AtAppend(a.sold, extra, k);
    NoneUnderEarlierKey(extra, k);
  }

  // --- the inferred opening ---------------------------------------------------------------------

  /** The same account one or more days later: more fills, and a holding moved by those before the new `today`. */
  ghost predicate LaterSync(first: Inputs, more: seq<Trade>, second: Inputs) {
    && second.trades == first.trades + more
    && second.historyFrom == first.historyFrom
    && first.today < second.today
    && AllUpTo(first.trades, first.today) && AllAfter(more, first.today)
  }

  ghost predicate HoldingMoved(first: Inputs, more: seq<Trade>, second: Inputs, key: BookKey) {
    HeldQuantity(HoldingOf(second.holdings, key), key.funding)
      == HeldQuantity(HoldingOf(first.holdings, key), key.funding)
         + NetFrom(BookFills(first.trades, key), first.today)
         + NetBefore(BookFills(more, key), second.today)
  }

  lemma {:induction false} NetBeforeAll(fills: seq<Trade>, day: Day, later: Day)
    requires AllUpTo(fills, day) && day < later
    ensures NetBefore(fills, later) == Net(fills)
  {
    if fills != [] {
      NetBeforeAll(fills[..|fills| - 1], day, later);
    }
  }

  /** If the holding moves by the fills since, the shares held from before the history do not change. */
  lemma OlderUnchanged(first: Inputs, more: seq<Trade>, second: Inputs, key: BookKey)
    requires LaterSync(first, more, second) && HoldingMoved(first, more, second, key)
    ensures second.Older(key) == first.Older(key)
  {
    var a, b := BookFills(first.trades, key), BookFills(more, key);
    BookFillsAppend(first.trades, more, key, first.today);
    CountAppend(SignedBefore(second.today), a, b);
    NetBeforeAll(a, first.today, second.today);
    NetSplits(a, first.today);
  }

  ghost predicate SameAverageCost(first: Inputs, second: Inputs, key: BookKey) {
    HoldingOf(first.holdings, key).Some? && HoldingOf(second.holdings, key).Some? ==>
      HoldingOf(first.holdings, key).value.avgCost == HoldingOf(second.holdings, key).value.avgCost
  }

  /**
   * The opening is the same on both days exactly when there was nothing older, or the stock is
   * held on both days or on neither. Selling a holding out (or newly showing one) changes it.
   */
  lemma OpeningUnchangedIff(first: Inputs, more: seq<Trade>, second: Inputs, key: BookKey)
    requires LaterSync(first, more, second) && HoldingMoved(first, more, second, key)
    requires SameAverageCost(first, second, key)
    ensures second.OpeningOf(key) == first.OpeningOf(key) <==>
      first.Older(key) <= 0 || HoldingOf(first.holdings, key).Some? == HoldingOf(second.holdings, key).Some?
  {
    OlderUnchanged(first, more, second, key);
    var older := first.Older(key);
    if older > 0 && HoldingOf(first.holdings, key).Some? != HoldingOf(second.holdings, key).Some? {
      OpeningIsFresh(older, HoldingOf(first.holdings, key), first.historyFrom);
      OpeningIsFresh(older, HoldingOf(second.holdings, key), first.historyFrom);
    }
  }

  lemma AccountGrows(first: Inputs, more: seq<Trade>, second: Inputs, key: BookKey)
    requires LaterSync(first, more, second) && second.OpeningOf(key) == first.OpeningOf(key)
    ensures second.AccountOf(key) == AfterFills(first.AccountOf(key), BookFills(more, key))
    ensures AllAfter(BookFills(more, key), first.today)
  {
    BookFillsAppend(first.trades, more, key, first.today);
    AfterFillsAppend(first.OpeningOf(key), BookFills(first.trades, key), BookFills(more, key));
  }

  // --- rows across syncs -----------------------------------------------------------------------

  ghost predicate HasRow(rows: seq<ImportedPosition>, p: ImportedPosition) {
    exists i :: 0 <= i < |rows| && rows[i] == p
  }

  lemma ClosedRowIn(key: BookKey, sold: seq<Sold>, k: ExitKey, row: ImportedPosition)
    requires k in Keys(sold) && IsClosedRow(row, key, sold, k)
    ensures HasRow(ClosedRows(key, sold), row)
  {
    ClosedKeys(sold);
    var ks := SortedSet(ExitKeyLe, Keys(sold));
    RowsAtEach(key, sold, ks);
    assert k in ks;
    var j :| 0 <= j < |ks| && ks[j] == k;
    assert IsClosedRow(RowsAt(key, sold, ks)[j], key, sold, ks[j]);
  }

  lemma ClosedRowFrom(key: BookKey, sold: seq<Sold>, row: ImportedPosition) returns (k: ExitKey)
    requires HasRow(ClosedRows(key, sold), row)
    ensures k in Keys(sold) && IsClosedRow(row, key, sold, k)
  {
    ClosedKeys(sold);
    var ks := SortedSet(ExitKeyLe, Keys(sold));
    RowsAtEach(key, sold, ks);
    var i :| 0 <= i < |ClosedRows(key, sold)| && ClosedRows(key, sold)[i] == row;
    k := ks[i];
  }

  /** With the opening unchanged, every closed row of a book is in the later reconciliation, unaltered. */
  lemma ClosedRowsSurvive(first: Inputs, more: seq<Trade>, second: Inputs, key: BookKey, row: ImportedPosition)
    requires LaterSync(first, more, second) && second.OpeningOf(key) == first.OpeningOf(key)
    requires HasRow(ClosedRows(key, first.AccountOf(key).sold), row)
    ensures HasRow(ClosedRows(key, second.AccountOf(key).sold), row)
  {
    var a, b := first.AccountOf(key), second.AccountOf(key);
    var k := ClosedRowFrom(key, a.sold, row);
    BookFillsAppend(first.trades, more, key, first.today);
    OpeningIsFresh(first.Older(key), HoldingOf(first.holdings, key), first.historyFrom);
    SoldUpTo(first.OpeningOf(key), BookFills(first.trades, key), first.today);
    KeysMembers(a.sold);
    var i :| 0 <= i < |a.sold| && KeyOf(a.sold[i]) == k;
    assert k.day <= first.today;
    AccountGrows(first, more, second, key);
    ExitKept(a, BookFills(more, key), first.today, k);
    ExitsHaveSales(a.sold, k);
    ExitsHaveSales(b.sold, k);
    ClosedRowIn(key, b.sold, k, row);
  }

  lemma HasRowAppend(a: seq<ImportedPosition>, b: seq<ImportedPosition>, row: ImportedPosition)
    ensures HasRow(a + b, row) <==> HasRow(a, row) || HasRow(b, row)
  {
    if HasRow(a, row) {
      var i :| 0 <= i < |a| && a[i] == row;
      assert (a + b)[i] == row;
    }
    if HasRow(b, row) {
      var i :| 0 <= i < |b| && b[i] == row;
      assert (a + b)[|a| + i] == row;
    }
  }

  lemma RowOverSnoc(inputs: Inputs, front: seq<BookKey>, last: BookKey, row: ImportedPosition)
    ensures HasRow(RowsOver(inputs, front + [last]), row) <==>
      HasRow(RowsOver(inputs, front), row) || HasRow(BookRows(inputs, last), row)
  {
    OverSnoc(inputs, front, last);
    HasRowAppend(RowsOver(inputs, front), BookRows(inputs, last), row);
  }

  lemma {:induction false} RowOverKeys(inputs: Inputs, keys: seq<BookKey>, i: nat, row: ImportedPosition)
    requires i < |keys| && HasRow(BookRows(inputs, keys[i]), row)
    ensures HasRow(RowsOver(inputs, keys), row)
  {
    var front := keys[..|keys| - 1];
    SplitLast(keys);
    RowOverSnoc(inputs, front, keys[|keys| - 1], row);
    if i < |front| {
      RowOverKeys(inputs, front, i, row);
    }
  }

  lemma {:induction false} RowFromKeys(inputs: Inputs, keys: seq<BookKey>, row: ImportedPosition) returns (key: BookKey)
    requires keys != [] && HasRow(RowsOver(inputs, keys), row)
    ensures key in keys && HasRow(BookRows(inputs, key), row)
  {
    var front, last := keys[..|keys| - 1], keys[|keys| - 1];
    SplitLast(keys);
    RowOverSnoc(inputs, front, last, row);
    if HasRow(BookRows(inputs, last), row) {
      key := last;
    } else {
      assert RowsOver(inputs, []) == [];
      key := RowFromKeys(inputs, front, row);
      assert key in front;
    }
  }

  lemma BookKeysListed(inputs: Inputs)
    ensures Lists(SortedSet(BookKeyLe, inputs.BookKeys()), inputs.BookKeys())
  {
    BookKeyOrder();
    SortedSetListing(BookKeyLe, inputs.BookKeys());
  }

  lemma ClosedPart(inputs: Inputs, key: BookKey, row: ImportedPosition)
    requires row.closedOn.Some?
    ensures HasRow(BookRows(inputs, key), row) <==> HasRow(ClosedRows(key, inputs.AccountOf(key).sold), row)
  {
    var a := inputs.AccountOf(key);
    BookRowsOf(inputs, key, a);
    HasRowAppend(ClosedRows(key, a.sold), OpenRows(key, a.queue, inputs.historyFrom), row);
  }

  lemma ClosedBookRowsSurvive(first: Inputs, more: seq<Trade>, second: Inputs, key: BookKey, row: ImportedPosition)
    requires LaterSync(first, more, second) && second.OpeningOf(key) == first.OpeningOf(key)
    requires row.closedOn.Some? && HasRow(BookRows(first, key), row)
    ensures key in second.BookKeys() && HasRow(BookRows(second, key), row)
  {
    ClosedPart(first, key, row);
    ClosedRowsSurvive(first, more, second, key, row);
    ClosedPart(second, key, row);
    SalesNeedTrades(first, key, row);
    FillsOfAppend(first.trades, more, key);
    TradedKeyHasFills(second.trades, key);
  }

  /** A whole reconciliation: no closed position is lost or altered while every book's opening stays the same. */
  lemma ClosedPositionsSurvive(first: Inputs, more: seq<Trade>, second: Inputs, row: ImportedPosition)
    requires LaterSync(first, more, second)
    requires forall key :: key in first.BookKeys() ==> second.OpeningOf(key) == first.OpeningOf(key)
    requires row.closedOn.Some? && HasRow(Positions(first), row)
    ensures HasRow(Positions(second), row)
  {
    var key := RowOfBook(first, row);
    ClosedBookRowsSurvive(first, more, second, key, row);
    BookRowListed(second, key, row);
  }

  lemma RowOfBook(inputs: Inputs, row: ImportedPosition) returns (key: BookKey)
    requires HasRow(Positions(inputs), row)
    ensures key in inputs.BookKeys() && HasRow(BookRows(inputs, key), row)
  {
    BookKeysListed(inputs);
    var keys := SortedSet(BookKeyLe, inputs.BookKeys());
    assert RowsOver(inputs, []) == [];
    key := RowFromKeys(inputs, keys, row);
  }

  lemma BookRowListed(inputs: Inputs, key: BookKey, row: ImportedPosition)
    requires key in inputs.BookKeys() && HasRow(BookRows(inputs, key), row)
    ensures HasRow(Positions(inputs), row)
  {
    BookKeysListed(inputs);
    var keys := SortedSet(BookKeyLe, inputs.BookKeys());
    assert key in keys;
    var i :| 0 <= i < |keys| && keys[i] == key;
    RowOverKeys(inputs, keys, i, row);
  }

  lemma SalesNeedTrades(inputs: Inputs, key: BookKey, row: ImportedPosition)
    requires HasRow(ClosedRows(key, inputs.AccountOf(key).sold), row)
    ensures FillsOf(inputs.trades, key) != []
  {
    var k := ClosedRowFrom(key, inputs.AccountOf(key).sold, row);
    OpeningIsFresh(inputs.Older(key), HoldingOf(inputs.holdings, key), inputs.historyFrom);
    assert FillsOf(inputs.trades, key) == [] ==> inputs.AccountOf(key).sold == [];
  }

  lemma {:induction false} EpisodeKept(a: Account, more: seq<Trade>)
    requires OneEpisode(a) && a.queue != [] && Named(more)
    requires forall n :: 0 <= n <= |more| ==> AfterFills(a, more[..n]).queue != []
    ensures AfterFills(a, more).episode == a.episode
  {
    if more != [] {
      var front, t := more[..|more| - 1], more[|more| - 1];
      forall n | 0 <= n <= |front| ensures AfterFills(a, front[..n]).queue != [] {
        assert front[..n] == more[..n];
      }
      EpisodeKept(a, front);
      EpisodeInvariant(a, front);
      assert more[..|more|] == more;
      assert front[..|front|] == front;
    }
  }

  lemma {:induction false} NameStays(a: Account, more: seq<Trade>)
    requires OneEpisode(a) && Named(more)
    requires forall n :: 0 <= n <= |more| ==> AfterFills(a, more[..n]).queue != []
    ensures
      var b := AfterFills(a, more);
      a.queue != [] && b.queue != [] && OneEpisode(b) && b.episode == a.episode
  {
    assert more[..0] == [] && more[..|more|] == more;
    assert AfterFills(a, more[..0]).queue != [] && AfterFills(a, more[..|more|]).queue != [];
    EpisodeKept(a, more);
    EpisodeInvariant(a, more);
  }

  /** The deque of a book that is never sold out in between keeps the name its open row is keyed by. */
  lemma OpenNameKept(first: Inputs, more: seq<Trade>, second: Inputs, key: BookKey)
    requires LaterSync(first, more, second) && second.OpeningOf(key) == first.OpeningOf(key)
    requires Named(first.trades) && Named(more)
    requires var a, fills := first.AccountOf(key), BookFills(more, key);
      forall n :: 0 <= n <= |fills| ==> AfterFills(a, fills[..n]).queue != []
    ensures var a, b := first.AccountOf(key), second.AccountOf(key);
      a.queue != [] && b.queue != []
      && OpenRow(key, b.queue, second.historyFrom).ref == OpenRow(key, a.queue, first.historyFrom).ref
  {
    BookFillsFrom(first.trades, key);
    BookFillsFrom(more, key);
    AccountGrows(first, more, second, key);
    OpeningHasOneEpisode(first.Older(key), HoldingOf(first.holdings, key), first.historyFrom);
    EpisodeInvariant(first.OpeningOf(key), BookFills(first.trades, key));
    NameStays(first.AccountOf(key), BookFills(more, key));
  }

  // --- open positions across syncs ---------------------------------------------------------------

  lemma {:induction false} HeldKeyListed(holdings: seq<Holding>, key: BookKey)
    requires HoldingOf(holdings, key).Some?
    ensures key in HeldKeys(holdings)
  {
    var front, h := holdings[..|holdings| - 1], holdings[|holdings| - 1];
    assert holdings[|holdings| - 1] == h;
    if !(h.symbol == key.symbol && HeldUnder(h, key.funding) > 0) {
      HeldKeyListed(front, key);
      var i :| 0 <= i < |front| && front[i].symbol == key.symbol && HeldUnder(front[i], key.funding) > 0;
      assert holdings[i] == front[i];
    }
  }

  /** A book with shares left is one of those reconciled. */
  lemma OpenBookListed(inputs: Inputs, key: BookKey)
    requires inputs.AccountOf(key).queue != []
    ensures key in inputs.BookKeys()
  {
    TradedKeyHasFills(inputs.trades, key);
    if FillsOf(inputs.trades, key) == [] {
      OpeningIsFresh(inputs.Older(key), HoldingOf(inputs.holdings, key), inputs.historyFrom);
      HeldKeyListed(inputs.holdings, key);
    }
  }

  lemma OpenPart(inputs: Inputs, key: BookKey, row: ImportedPosition)
    requires row.closedOn.None?
    ensures HasRow(BookRows(inputs, key), row) <==>
      HasRow(OpenRows(key, inputs.AccountOf(key).queue, inputs.historyFrom), row)
  {
    var a := inputs.AccountOf(key);
    BookRowsOf(inputs, key, a);
    HasRowAppend(ClosedRows(key, a.sold), OpenRows(key, a.queue, inputs.historyFrom), row);
    if HasRow(ClosedRows(key, a.sold), row) {
      var k := ClosedRowFrom(key, a.sold, row);
    }
  }

  /** The open positions are exactly the open rows of the books with shares left. */
  lemma OpenPositionIsRow(inputs: Inputs, row: ImportedPosition, key: BookKey)
    requires row.closedOn.None? && key == BookKey(row.symbol, row.funding)
    ensures HasRow(Positions(inputs), row) <==>
      && key.funding != Intraday && inputs.AccountOf(key).queue != []
      && row == OpenRow(key, inputs.AccountOf(key).queue, inputs.historyFrom)
  {
    var queue := inputs.AccountOf(key).queue;
    if HasRow(Positions(inputs), row) {
      var book := RowOfBook(inputs, row);
      OpenPart(inputs, book, row);
      assert book == key;
    }
    if key.funding != Intraday && queue != [] && row == OpenRow(key, queue, inputs.historyFrom) {
      assert OpenRows(key, queue, inputs.historyFrom)[0] == row;
      OpenPart(inputs, key, row);
      OpenBookListed(inputs, key);
      BookRowListed(inputs, key, row);
    }
  }

  /**
   * An open position whose shares are never all sold in between is listed by the later reconciliation, under
   * its ref.
   */
  lemma OpenRefKept(first: Inputs, more: seq<Trade>, second: Inputs, row: ImportedPosition)
    returns (later: ImportedPosition)
    requires LaterSync(first, more, second) && Named(first.trades) && Named(more)
    requires row.closedOn.None? && HasRow(Positions(first), row)
    requires
      var key := BookKey(row.symbol, row.funding);
      && HoldingMoved(first, more, second, key) && SameAverageCost(first, second, key)
      && (first.Older(key) <= 0 || HoldingOf(first.holdings, key).Some? == HoldingOf(second.holdings, key).Some?)
      && forall n :: 0 <= n <= |BookFills(more, key)| ==>
        AfterFills(first.AccountOf(key), BookFills(more, key)[..n]).queue != []
    ensures HasRow(Positions(second), later) && later.closedOn.None?
    ensures later.ref == row.ref && later.symbol == row.symbol && later.funding == row.funding
  {
    var key := BookKey(row.symbol, row.funding);
    OpeningUnchangedIff(first, more, second, key);
    OpenPositionIsRow(first, row, key);
    OpenNameKept(first, more, second, key);
    later := OpenRow(key, second.AccountOf(key).queue, second.historyFrom);
    OpenPositionIsRow(second, later, key);
  }
}

/**
 * When a reconciliation after more fills still lists every closed row of an earlier one: exactly when, in
 * every book, the opening shares stay the same or make no difference to the shares sold.
 */
module ClosedRows {
  import opened Wrappers
  import opened Dates
  import opened Ordering
  import opened Sums
  import opened Ledger
  import opened Reconciliation
  import opened Broker
  import opened BrokerRefs
  import opened BrokerConservation
  import opened BrokerMismatch
  import opened BrokerStability

  // --- which holdings a share can be named after ------------------------------------------------------

  /** No share of the account, left or sold, carries the name. */
  ghost predicate Avoids(a: Account, name: string) {
    && a.episode != Some(name)
    && (forall i :: 0 <= i < |a.queue| ==> a.queue[i].episode != name)
    && (forall i :: 0 <= i < |a.sold| ==> a.sold[i].share.episode != name)
  }

  ghost predicate NoneCalled(fills: seq<Trade>, name: string) {
    forall i :: 0 <= i < |fills| ==> fills[i].tradeId != name
  }

  /** Only a fill of that id brings a name into an account. */
  lemma {:induction false} AvoidsKept(a: Account, fills: seq<Trade>, name: string)
    requires Avoids(a, name) && NoneCalled(fills, name)
    ensures Avoids(AfterFills(a, fills), name)
  {
    if fills != [] {
      var front, t := fills[..|fills| - 1], fills[|fills| - 1];
      AvoidsKept(a, front, name);
      FillAvoids(AfterFills(a, front), t, name);
    }
  }

  lemma {:induction false} FillAvoids(a: Account, t: Trade, name: string)
    requires Avoids(a, name) && t.tradeId != name
    ensures Avoids(AfterFill(a, t), name)
  {
    if t.side == Sell {
      var n := Min(t.quantity, |a.queue|);
      var after := AfterSell(a, t);
      assert forall i :: 0 <= i < |after.queue| ==> after.queue[i] == a.queue[n + i];
      assert forall i :: |a.sold| <= i < |after.sold| ==> after.sold[i].share == a.queue[i - |a.sold|];
    }
  }

  // --- the first share sold --------------------------------------------------------------------------------

  ghost predicate HasSale(fills: seq<Trade>) {
    exists i :: 0 <= i < |fills| && fills[i].side == Sell
  }

  /** What a book has had only grows at the end. */
  lemma {:induction false} PassedGrows(a: Account, more: seq<Trade>)
    ensures Passed(a) <= Passed(AfterFills(a, more))
  {
    if more != [] {
      var front, t := more[..|more| - 1], more[|more| - 1];
      PassedGrows(a, front);
      var before := AfterFills(a, front);
      if t.side == Buy {
        BuyPassesNamed(before, t);
      } else {
        SellPasses(before, t);
      }
    }
  }

  lemma {:induction false} BuyPassesNamed(a: Account, t: Trade)
    ensures Passed(a) <= Passed(AfterBuy(a, t))
  {
    var after := AfterBuy(a, t);
    var bought := after.queue[|a.queue|..];
    assert after.queue == a.queue + bought;
    assert Passed(after) == Passed(a) + bought;
  }

  /** Without a sale nothing is sold and nothing leaves the queue. */
  lemma {:induction false} OnlyBuys(a: Account, fills: seq<Trade>)
    requires !HasSale(fills)
    ensures AfterFills(a, fills).sold == a.sold && |AfterFills(a, fills).queue| >= |a.queue|
  {
    if fills != [] {
      var front := fills[..|fills| - 1];
      assert forall i :: 0 <= i < |front| ==> front[i] == fills[i];
      OnlyBuys(a, front);
    }
  }

  /** The first sale finds the share at the front of the queue. */
  lemma {:induction false} SaleSells(a: Account, fills: seq<Trade>)
    requires a.queue != [] && HasSale(fills)
    ensures AfterFills(a, fills).sold != a.sold && |AfterFills(a, fills).sold| > |a.sold|
  {
    var front, t := fills[..|fills| - 1], fills[|fills| - 1];
    if HasSale(front) {
      SaleSells(a, front);
    } else {
      OnlyBuys(a, front);
      var i :| 0 <= i < |fills| && fills[i].side == Sell;
      assert i < |front| ==> front[i] == fills[i];
    }
  }

  lemma {:induction false} FirstSold(a: Account, fills: seq<Trade>)
    requires a.sold == [] && a.queue != [] && HasSale(fills)
    ensures AfterFills(a, fills).sold != [] && AfterFills(a, fills).sold[0].share == a.queue[0]
  {
    SaleSells(a, fills);
    PassedGrows(a, fills);
    assert Passed(a)[0] == a.queue[0];
    var after := AfterFills(a, fills);
    assert Passed(after)[0] == after.sold[0].share;
  }

  // --- a row that is lost, and rows that are kept ---------------------------------------------------------------

  lemma {:induction false} ClosedRefOfBook(key: BookKey, k: ExitKey, l: ExitKey)
    requires ClosedRef(key, k) == ClosedRef(key, l)
    ensures k == l
  {
    ClosedRefParts(key, k);
    ClosedRefParts(key, l);
    var prefix := key.symbol + ":" + (FundingName(key.funding) + ":");
    Regrouped(key.symbol + ":", FundingName(key.funding) + ":", ClosedTail(k));
    Regrouped(key.symbol + ":", FundingName(key.funding) + ":", ClosedTail(l));
    assert |ClosedTail(k)| == |ClosedTail(l)|;
    SplitAtLength(prefix, ClosedTail(k), prefix, ClosedTail(l));
    ClosedTailInjective(k, l);
  }

  /** Every closed row of one log is a closed row of the other. */
  ghost predicate RowsKept(key: BookKey, sold: seq<Sold>, later: seq<Sold>) {
    forall row :: HasRow(ClosedRows(key, sold), row) ==> HasRow(ClosedRows(key, later), row)
  }

  /** A holding whose name is gone takes its rows with it. */
  lemma {:induction false} LostRow(key: BookKey, sold: seq<Sold>, later: seq<Sold>, i: nat)
    requires i < |sold| && forall j :: 0 <= j < |later| ==> later[j].share.episode != sold[i].share.episode
    ensures !RowsKept(key, sold, later)
  {
    var k := KeyOf(sold[i]);
    KeysMembers(sold);
    var row := RowsAtSnoc(key, sold, [], k);
    ClosedRowIn(key, sold, k, row);
    KeysMembers(later);
    assert k !in Keys(later);
    if HasRow(ClosedRows(key, later), row) {
      var l := ClosedRowFrom(key, later, row);
      ClosedRefOfBook(key, k, l);
    }
  }

  /** Rows whose sales all recur under the same keys are kept. */
  lemma {:induction false} KeptRows(key: BookKey, sold: seq<Sold>, later: seq<Sold>)
    requires forall k :: k in Keys(sold) ==> At(later, k) == At(sold, k)
    ensures RowsKept(key, sold, later)
  {
    forall row | HasRow(ClosedRows(key, sold), row) ensures HasRow(ClosedRows(key, later), row) {
      var k := ClosedRowFrom(key, sold, row);
      KeysAt(sold, k);
      KeysAt(later, k);
      ClosedRowIn(key, later, k, row);
    }
  }

  lemma {:induction false} NothingToLose(key: BookKey, later: seq<Sold>)
    ensures RowsKept(key, [], later)
  {
    KeptRows(key, [], later);
  }

  // --- shares held from before, and fills that sell before they buy ------------------------------------------------

  /** Every share, left or sold, carries the one name, and so does the holding while there is one. */
  ghost predicate AllNamed(a: Account, name: string) {
    && (a.queue != [] ==> a.episode == Some(name))
    && (forall i :: 0 <= i < |a.queue| ==> a.queue[i].episode == name)
    && (forall i :: 0 <= i < |a.sold| ==> a.sold[i].share.episode == name)
  }

  ghost predicate OnlySales(fills: seq<Trade>) {
    forall i :: 0 <= i < |fills| ==> fills[i].side == Sell
  }

  /** Where the sales before the first buy end. */
  function FirstBuy(fills: seq<Trade>): (n: nat)
    ensures n <= |fills|
    ensures forall i :: 0 <= i < n ==> fills[i].side == Sell
    ensures n < |fills| ==> fills[n].side == Buy
  {
    if fills == [] then 0
    else
      var front := fills[..|fills| - 1];
      var n := FirstBuy(front);
      assert forall i :: 0 <= i < |front| ==> front[i] == fills[i];
      if n < |front| then n
      else
        match fills[n].side
        case Buy => n
        case Sell => n + 1
  }

  /** Shares sold before the first buy. */
  function SoldBeforeBuy(fills: seq<Trade>): int {
    Count(SellQuantity, fills[..FirstBuy(fills)])
  }

  /** Some fill after the first buy is a sale. */
  ghost predicate SellsAfterBuy(fills: seq<Trade>) {
    HasSale(fills[FirstBuy(fills)..])
  }

  /** An account whose shares are all of one holding, after selling only: the front of its queue is gone. */
  lemma {:induction false} AfterSales(a: Account, sales: seq<Trade>, name: string)
    requires OnlySales(sales) && AllNamed(a, name)
    ensures
      var after, sold := AfterFills(a, sales), Count(SellQuantity, sales);
      && 0 <= sold && AllNamed(after, name)
      && |after.queue| == Max(0, |a.queue| - sold)
      && (after.queue == [] && sales != [] ==> after.episode.None?)
  {
    if sales != [] {
      var front, t := sales[..|sales| - 1], sales[|sales| - 1];
      AfterSales(a, front, name);
      SaleNamed(AfterFills(a, front), t, name);
    }
  }

  lemma {:induction false} SaleNamed(a: Account, t: Trade, name: string)
    requires AllNamed(a, name)
    ensures
      var after := AfterSell(a, t);
      && AllNamed(after, name) && |after.queue| == Max(0, |a.queue| - t.quantity)
      && (after.queue == [] ==> after.episode.None?)
  {
    var n := Min(t.quantity, |a.queue|);
    var after := AfterSell(a, t);
    assert forall i :: 0 <= i < |after.queue| ==> after.queue[i] == a.queue[n + i];
    assert forall i :: |a.sold| <= i < |after.sold| ==> after.sold[i].share == a.queue[i - |a.sold|];
  }

  /** From nothing, selling only leaves nothing. */
  lemma {:induction false} SalesFromNothing(sales: seq<Trade>)
    requires OnlySales(sales)
    ensures
      var after := AfterFills(EMPTY, sales);
      after.queue == [] && after.sold == [] && after.episode.None?
  {
    if sales != [] {
      SalesFromNothing(sales[..|sales| - 1]);
    }
  }

  /** Two accounts with the same shares left sell the same shares from then on. */
  lemma {:induction false} SameFromHere(a: Account, b: Account, fills: seq<Trade>) returns (extra: seq<Sold>)
    requires a.queue == b.queue && a.episode == b.episode
    ensures AfterFills(a, fills).queue == AfterFills(b, fills).queue
    ensures AfterFills(a, fills).episode == AfterFills(b, fills).episode
    ensures AfterFills(a, fills).sold == a.sold + extra && AfterFills(b, fills).sold == b.sold + extra
  {
    extra := [];
    if fills == [] {
      assert a.sold + [] == a.sold && b.sold + [] == b.sold;
    } else {
      var front, t := fills[..|fills| - 1], fills[|fills| - 1];
      extra := SameFromHere(a, b, front);
      if t.side == Sell {
        var queue := AfterFills(a, front).queue;
        var more := SellShares(queue[..Min(t.quantity, |queue|)], t);
        Regrouped(a.sold, extra, more);
        Regrouped(b.sold, extra, more);
        extra := extra + more;
      }
    }
  }

  // --- one book --------------------------------------------------------------------------------------------

  lemma {:induction false} OpeningNamed(older: int, holding: Option<Holding>, historyFrom: Day)
    requires older > 0 && holding.Some?
    ensures
      var o := Opening(older, holding, historyFrom);
      AllNamed(o, BeforeEpisode(historyFrom)) && |o.queue| == older && o.sold == []
  {}

  /**
   * Shares held from before the history that a later reconciliation no longer sees: their sales, and only
   * theirs, are lost - every first sale is one.
   */
  lemma {:induction false} SoldOutBook(key: BookKey, opening: Account, fills: seq<Trade>, all: seq<Trade>, name: string)
    requires opening.sold == [] && opening.queue != [] && AllNamed(opening, name)
    requires NoneCalled(all, name)
    ensures RowsKept(key, AfterFills(opening, fills).sold, AfterFills(EMPTY, all).sold) <==> !HasSale(fills)
  {
    var a, b := AfterFills(opening, fills), AfterFills(EMPTY, all);
    if HasSale(fills) {
      FirstSold(opening, fills);
      AvoidsKept(EMPTY, all, name);
      LostRow(key, a.sold, b.sold, 0);
    } else {
      OnlyBuys(opening, fills);
      NothingToLose(key, b.sold);
    }
  }

  lemma {:induction false} NoneUnderOtherName(sold: seq<Sold>, k: ExitKey)
    requires forall i :: 0 <= i < |sold| ==> sold[i].share.episode != k.episode
    ensures At(sold, k) == []
  {
    if sold != [] {
      NoneUnderOtherName(sold[..|sold| - 1], k);
    }
  }

  ghost predicate DistinctIds(fills: seq<Trade>) {
    forall i, j :: 0 <= i < j < |fills| ==> fills[i].tradeId != fills[j].tradeId
  }

  /** Opening shares that were sold before the first buy leave no trace in what follows. */
  lemma {:induction false} ShownAndSold(opening: Account, fills: seq<Trade>, name: string) returns (before: seq<Sold>)
    requires opening.sold == [] && opening.queue != [] && AllNamed(opening, name)
    requires SoldBeforeBuy(fills) >= |opening.queue|
    ensures AfterFills(opening, fills).sold == before + AfterFills(EMPTY, fills).sold
    ensures forall i :: 0 <= i < |before| ==> before[i].share.episode == name
  {
    var n := FirstBuy(fills);
    var pre, rest := fills[..n], fills[n..];
    assert fills == pre + rest;
    SalesFromNothing(pre);
    AfterSales(opening, pre, name);
    assert pre != [];
    var p, q := AfterFills(EMPTY, pre), AfterFills(opening, pre);
    var extra := SameFromHere(p, q, rest);
    AfterFillsAppend(EMPTY, pre, rest);
    AfterFillsAppend(opening, pre, rest);
    assert [] + extra == extra;
    before := q.sold;
  }

  lemma {:induction false} NewlyShownKept(key: BookKey, opening: Account, fills: seq<Trade>, more: seq<Trade>,
      name: string, day: Day)
    requires opening.sold == [] && opening.queue != [] && AllNamed(opening, name)
    requires NoneCalled(fills, name) && AllUpTo(fills, day) && AllAfter(more, day)
    requires SoldBeforeBuy(fills) >= |opening.queue|
    ensures RowsKept(key, AfterFills(EMPTY, fills).sold, AfterFills(opening, fills + more).sold)
  {
    var a, b := AfterFills(EMPTY, fills), AfterFills(opening, fills);
    var before := ShownAndSold(opening, fills, name);
    AvoidsKept(EMPTY, fills, name);
    SoldUpTo(EMPTY, fills, day);
    AfterFillsAppend(opening, fills, more);
    KeysMembers(a.sold);
    forall k | k in Keys(a.sold) ensures At(AfterFills(b, more).sold, k) == At(a.sold, k) {
      var i :| 0 <= i < |a.sold| && KeyOf(a.sold[i]) == k;
      assert a.sold[i].share.episode != name && a.sold[i].day <= day;
      NoneUnderOtherName(before, k);
      AtAppend(before, a.sold, k);
      ExitKept(b, more, day, k);
    }
    KeptRows(key, a.sold, AfterFills(b, more).sold);
  }

  lemma {:induction false} SaleFollowsFirstBuy(fills: seq<Trade>)
    requires SellsAfterBuy(fills)
    ensures FirstBuy(fills) < |fills| && HasSale(fills[FirstBuy(fills) + 1..])
  {
    var n := FirstBuy(fills);
    var i :| 0 <= i < |fills[n..]| && fills[n..][i].side == Sell;
    assert fills[n + i].side == Sell && i > 0;
    assert fills[n + 1..][i - 1].side == Sell;
  }

  lemma {:induction false} FirstBuyStarts(sales: seq<Trade>, t: Trade)
    requires OnlySales(sales) && t.side == Buy
    ensures
      var after := AfterFills(EMPTY, sales + [t]);
      after.sold == [] && after.queue != [] && after.queue[0].episode == t.tradeId
  {
    SalesFromNothing(sales);
    AfterFillsSnoc(EMPTY, sales, t);
  }

  lemma {:induction false} SoldAfterBuy(head: seq<Trade>, rest: seq<Trade>, sales: seq<Trade>, t: Trade)
    requires head == sales + [t] && OnlySales(sales) && t.side == Buy && HasSale(rest)
    ensures AfterFills(EMPTY, head + rest).sold != []
    ensures AfterFills(EMPTY, head + rest).sold[0].share.episode == t.tradeId
  {
    FirstBuyStarts(sales, t);
    AfterFillsAppend(EMPTY, head, rest);
    FirstSold(AfterFills(EMPTY, head), rest);
  }

  /** The first buy of an empty account names the share that the next sale takes. */
  lemma {:induction false} FirstBuySold(fills: seq<Trade>)
    requires SellsAfterBuy(fills)
    ensures FirstBuy(fills) < |fills|
    ensures AfterFills(EMPTY, fills).sold != []
    ensures AfterFills(EMPTY, fills).sold[0].share.episode == fills[FirstBuy(fills)].tradeId
  {
    SaleFollowsFirstBuy(fills);
    var n := FirstBuy(fills);
    var sales, t, rest := fills[..n], fills[n], fills[n + 1..];
    SoldAfterBuy(sales + [t], rest, sales, t);
    assert fills == sales + [t] + rest;
  }

  /** Opening shares still there at the first buy take it into their own holding. */
  lemma {:induction false} FirstBuyJoins(opening: Account, fills: seq<Trade>, more: seq<Trade>, name: string)
    requires opening.sold == [] && opening.queue != [] && AllNamed(opening, name) && name != ""
    requires FirstBuy(fills) < |fills| && SoldBeforeBuy(fills) < |opening.queue|
    requires NoneCalled(fills, name) && DistinctIds(fills + more)
    ensures Avoids(AfterFills(opening, fills + more), fills[FirstBuy(fills)].tradeId)
  {
    var n := FirstBuy(fills);
    var pre, t, all := fills[..n], fills[n], fills + more;
    var rest := all[n + 1..];
    assert all[n] == t && all == (pre + [t]) + rest;
    AfterSales(opening, pre, name);
    AfterFillsSnoc(opening, pre, t);
    JoinedAvoids(AfterFills(opening, pre), t, name);
    AfterFillsAppend(opening, pre + [t], rest);
    LaterNotCalled(all, n);
    AvoidsKept(AfterFills(opening, pre + [t]), rest, t.tradeId);
  }

  lemma {:induction false} LaterNotCalled(fills: seq<Trade>, n: nat)
    requires DistinctIds(fills) && n < |fills|
    ensures NoneCalled(fills[n + 1..], fills[n].tradeId)
  {}

  lemma {:induction false} JoinedAvoids(a: Account, t: Trade, name: string)
    requires a.queue != [] && AllNamed(a, name) && name != "" && t.side == Buy && t.tradeId != name
    ensures Avoids(AfterFill(a, t), t.tradeId)
  {}

  /**
   * Shares held from before the history that only a later reconciliation sees: the rows stay exactly when
   * there were none, or the shares were all sold before the first buy.
   */
  lemma {:induction false} NewlyShownBook(key: BookKey, opening: Account, fills: seq<Trade>, more: seq<Trade>,
      name: string, day: Day)
    requires opening.sold == [] && opening.queue != [] && AllNamed(opening, name) && name != ""
    requires NoneCalled(fills, name) && DistinctIds(fills + more) && AllUpTo(fills, day) && AllAfter(more, day)
    ensures RowsKept(key, AfterFills(EMPTY, fills).sold, AfterFills(opening, fills + more).sold) <==>
      !SellsAfterBuy(fills) || SoldBeforeBuy(fills) >= |opening.queue|
  {
    var a, b := AfterFills(EMPTY, fills), AfterFills(opening, fills + more);
    if !SellsAfterBuy(fills) {
      var pre, rest := fills[..FirstBuy(fills)], fills[FirstBuy(fills)..];
      assert fills == pre + rest;
      SalesFromNothing(pre);
      AfterFillsAppend(EMPTY, pre, rest);
      OnlyBuys(AfterFills(EMPTY, pre), rest);
      NothingToLose(key, b.sold);
    } else if SoldBeforeBuy(fills) >= |opening.queue| {
      NewlyShownKept(key, opening, fills, more, name, day);
    } else {
      FirstBuySold(fills);
      FirstBuyJoins(opening, fills, more, name);
      LostRow(key, a.sold, b.sold, 0);
    }
  }

  // --- a reconciliation ----------------------------------------------------------------------------------------

  lemma {:induction false} FillsOfDistinct(trades: seq<Trade>, key: BookKey)
    requires DistinctIds(trades)
    ensures DistinctIds(FillsOf(trades, key))
  {
    if trades != [] {
      var front, last := trades[..|trades| - 1], trades[|trades| - 1];
      FillsOfDistinct(front, key);
      FillsOfFrom(front, key);
      var fills := FillsOf(front, key);
      forall i | 0 <= i < |fills| ensures fills[i].tradeId != last.tradeId {
        var j :| 0 <= j < |front| && front[j] == fills[i];
        assert trades[j] == front[j];
      }
    }
  }

  lemma {:induction false} BookFillsDistinct(trades: seq<Trade>, key: BookKey)
    requires DistinctIds(trades)
    ensures DistinctIds(BookFills(trades, key))
  {
    var s, r := FillsOf(trades, key), BookFills(trades, key);
    FillsOfDistinct(trades, key);
    SortByPermutes(FillLe, s);
    MultisetMembers(r, s);
    assert forall i :: 0 <= i < |r| ==> r[i] in r;
    forall i, j | 0 <= i < j < |r| ensures r[i].tradeId != r[j].tradeId {
      if r[i].tradeId == r[j].tradeId {
        assert r[i] in s && r[j] in s;
        RepeatedTwice(r, i, j);
        DistinctOnce(s, r[i]);
        assert false;
      }
    }
  }

  lemma {:induction false} BookFillsNotCalled(trades: seq<Trade>, key: BookKey, name: string)
    requires NoneCalled(trades, name)
    ensures NoneCalled(BookFills(trades, key), name)
  {
    BookFillsFrom(trades, key);
    var fills := BookFills(trades, key);
    forall i | 0 <= i < |fills| ensures fills[i].tradeId != name {
      assert fills[i] in trades;
    }
  }

  /** Trade ids are the store's keys, and none is the name given to shares held from before the history. */
  ghost predicate ProperIds(second: Inputs) {
    DistinctIds(second.trades) && NoneCalled(second.trades, BeforeEpisode(second.historyFrom))
  }

  function HeldIn(inputs: Inputs, key: BookKey): bool {
    HoldingOf(inputs.holdings, key).Some?
  }

  /**
   * The opening shares of a book make no difference to what it closed: there are none, or the stock is held
   * on both days or on neither; or it was sold out and there was no sale yet; or it newly shows, and nothing
   * was sold after a buy or the older shares were gone before the first one.
   */
  ghost predicate OpeningHarmless(first: Inputs, second: Inputs, key: BookKey) {
    var fills := BookFills(first.trades, key);
    if first.Older(key) <= 0 || HeldIn(first, key) == HeldIn(second, key) then true
    else if HeldIn(first, key) then !HasSale(fills)
    else !SellsAfterBuy(fills) || SoldBeforeBuy(fills) >= first.Older(key)
  }

  lemma {:induction false} SameOpeningKept(first: Inputs, more: seq<Trade>, second: Inputs, key: BookKey)
    requires LaterSync(first, more, second) && second.OpeningOf(key) == first.OpeningOf(key)
    ensures RowsKept(key, first.AccountOf(key).sold, second.AccountOf(key).sold)
  {
    forall row | HasRow(ClosedRows(key, first.AccountOf(key).sold), row)
      ensures HasRow(ClosedRows(key, second.AccountOf(key).sold), row)
    {
      ClosedRowsSurvive(first, more, second, key, row);
    }
  }

  lemma {:induction false} BookGrows(first: Inputs, more: seq<Trade>, second: Inputs, key: BookKey)
    requires LaterSync(first, more, second) && ProperIds(second)
    ensures
      var fills, later := BookFills(first.trades, key), BookFills(more, key);
      && BookFills(second.trades, key) == fills + later
      && AllUpTo(fills, first.today) && AllAfter(later, first.today)
      && DistinctIds(fills + later)
      && NoneCalled(fills, BeforeEpisode(first.historyFrom))
      && NoneCalled(fills + later, BeforeEpisode(first.historyFrom))
  {
    BookFillsAppend(first.trades, more, key, first.today);
    BookFillsDistinct(second.trades, key);
    BookFillsNotCalled(second.trades, key, BeforeEpisode(first.historyFrom));
    var fills, all := BookFills(first.trades, key), BookFills(second.trades, key);
    assert forall i :: 0 <= i < |fills| ==> fills[i] == all[i];
  }

  /**
   * One book, exactly: if the holding moves by the fills in between, at the same average cost, the later
   * reconciliation keeps every closed row unaltered just when the opening shares make no difference.
   */
  lemma {:induction false} BookRowsKeptIff(first: Inputs, more: seq<Trade>, second: Inputs, key: BookKey)
    requires LaterSync(first, more, second) && ProperIds(second)
    requires HoldingMoved(first, more, second, key) && SameAverageCost(first, second, key)
    ensures RowsKept(key, first.AccountOf(key).sold, second.AccountOf(key).sold) <==>
      OpeningHarmless(first, second, key)
  {
    var older, name := first.Older(key), BeforeEpisode(first.historyFrom);
    OlderUnchanged(first, more, second, key);
    if older <= 0 || HeldIn(first, key) == HeldIn(second, key) {
      OpeningUnchangedIff(first, more, second, key);
      SameOpeningKept(first, more, second, key);
    } else {
      var fills, later := BookFills(first.trades, key), BookFills(more, key);
      BookGrows(first, more, second, key);
      assert name[0] == 'b';
      if HeldIn(first, key) {
        OpeningNamed(older, HoldingOf(first.holdings, key), first.historyFrom);
        SoldOutBook(key, first.OpeningOf(key), fills, fills + later, name);
      } else {
        OpeningNamed(older, HoldingOf(second.holdings, key), first.historyFrom);
        NewlyShownBook(key, second.OpeningOf(key), fills, later, name, first.today);
      }
    }
  }

  /** A closed position of a reconciliation is a closed row of the book of its stock and funding, and of no other. */
  lemma {:induction false} ClosedPositionIsRow(inputs: Inputs, row: ImportedPosition, key: BookKey)
    requires row.closedOn.Some? && key == BookKey(row.symbol, row.funding)
    ensures HasRow(Positions(inputs), row) <==> HasRow(ClosedRows(key, inputs.AccountOf(key).sold), row)
  {
    if HasRow(Positions(inputs), row) {
      var book := RowOfBook(inputs, row);
      ClosedPart(inputs, book, row);
      var k := ClosedRowFrom(book, inputs.AccountOf(book).sold, row);
      assert book == key;
    }
    if HasRow(ClosedRows(key, inputs.AccountOf(key).sold), row) {
      ClosedPart(inputs, key, row);
      SalesNeedTrades(inputs, key, row);
      TradedKeyHasFills(inputs.trades, key);
      BookRowListed(inputs, key, row);
    }
  }

  /** No closed position of the first reconciliation is missing or altered in the second. */
  ghost predicate ClosedPositionsKept(first: Inputs, second: Inputs) {
    forall row: ImportedPosition :: row.closedOn.Some? && HasRow(Positions(first), row) ==>
      HasRow(Positions(second), row)
  }

  lemma {:induction false} KeptBookByBook(first: Inputs, second: Inputs)
    ensures ClosedPositionsKept(first, second) <==>
      forall key :: RowsKept(key, first.AccountOf(key).sold, second.AccountOf(key).sold)
  {
    if ClosedPositionsKept(first, second) {
      forall key, row | HasRow(ClosedRows(key, first.AccountOf(key).sold), row)
        ensures HasRow(ClosedRows(key, second.AccountOf(key).sold), row)
      {
        var k := ClosedRowFrom(key, first.AccountOf(key).sold, row);
        ClosedPositionIsRow(first, row, key);
        ClosedPositionIsRow(second, row, key);
      }
    } else {
      var row: ImportedPosition :| row.closedOn.Some? && HasRow(Positions(first), row) &&
        !HasRow(Positions(second), row);
      var key := BookKey(row.symbol, row.funding);
      ClosedPositionIsRow(first, row, key);
      ClosedPositionIsRow(second, row, key);
      assert !RowsKept(key, first.AccountOf(key).sold, second.AccountOf(key).sold);
    }
  }

  lemma {:induction false} UntradedBook(first: Inputs, key: BookKey)
    requires FillsOf(first.trades, key) == []
    ensures first.AccountOf(key).sold == [] && BookFills(first.trades, key) == []
  {
    OpeningIsFresh(first.Older(key), HoldingOf(first.holdings, key), first.historyFrom);
  }

  /**
   * The whole reconciliation, exactly: when every book's holding moves by the fills in between, at the same
   * average cost, no closed position is lost or altered just when no book's opening shares matter.
   */
  lemma {:induction false} ClosedPositionsKeptIff(first: Inputs, more: seq<Trade>, second: Inputs)
    requires LaterSync(first, more, second) && ProperIds(second)
    requires forall key :: key in first.BookKeys() ==>
      HoldingMoved(first, more, second, key) && SameAverageCost(first, second, key)
    ensures ClosedPositionsKept(first, second) <==>
      forall key :: key in first.BookKeys() ==> OpeningHarmless(first, second, key)
  {
    KeptBookByBook(first, second);
    forall key
      ensures key in first.BookKeys() ==>
        (RowsKept(key, first.AccountOf(key).sold, second.AccountOf(key).sold) <==> OpeningHarmless(first, second, key))
      ensures key !in first.BookKeys() ==> RowsKept(key, first.AccountOf(key).sold, second.AccountOf(key).sold)
    {
      if key in first.BookKeys() {
        BookRowsKeptIff(first, more, second, key);
      } else {
        TradedKeyHasFills(first.trades, key);
        UntradedBook(first, key);
        NothingToLose(key, second.AccountOf(key).sold);
      }
    }
  }

  // --- the two ways to lose a row ---------------------------------------------------------------

  /** Where a book's opening shares do matter, a closed position of the first reconciliation is gone. */
  lemma {:induction false} HarmedBookLosesRow(first: Inputs, more: seq<Trade>, second: Inputs, key: BookKey)
    returns (row: ImportedPosition)
    requires LaterSync(first, more, second) && ProperIds(second)
    requires HoldingMoved(first, more, second, key) && SameAverageCost(first, second, key)
    requires !OpeningHarmless(first, second, key)
    ensures row.closedOn.Some? && HasRow(Positions(first), row) && !HasRow(Positions(second), row)
  {
    BookRowsKeptIff(first, more, second, key);
    var sold, later := first.AccountOf(key).sold, second.AccountOf(key).sold;
    row :| HasRow(ClosedRows(key, sold), row) && !HasRow(ClosedRows(key, later), row);
    var k := ClosedRowFrom(key, sold, row);
    ClosedPositionIsRow(first, row, key);
    ClosedPositionIsRow(second, row, key);
  }

  const HELD := Holding("TCS", None, 1, 90.0, 0)

  function Sale(day: Day): Trade
    requires day < MAX_ORDINAL
  {
    ExampleFill("s", Sell, day)
  }

  /** One share held, sold today. */
  function BeforeSale(historyFrom: Day, day: Day): Inputs
    requires day < MAX_ORDINAL
  {
    Inputs([Sale(day)], [HELD], historyFrom, day)
  }

  /** The day after: the same fill, nothing held. */
  function AfterSale(historyFrom: Day, day: Day): Inputs
    requires day < MAX_ORDINAL
  {
    Inputs([Sale(day)], [], historyFrom, day + 1)
  }

  lemma {:induction false} OneSaleFills(day: Day)
    requires day < MAX_ORDINAL
    ensures BookFills([Sale(day)], EXAMPLE_KEY) == [Sale(day)] && BookFills([], EXAMPLE_KEY) == []
    ensures NetBefore([Sale(day)], day) == 0 && NetFrom([Sale(day)], day) == -1
  {
    ExampleFillsInOrder([Sale(day)]);
    ExampleFillsInOrder([]);
    assert [] + [Sale(day)] == [Sale(day)];
    CountSnoc(SignedBefore(day), [], Sale(day));
    CountSnoc(SignedFrom(day), [], Sale(day));
  }

  lemma {:induction false} ExampleHolding()
    ensures HoldingOf([HELD], EXAMPLE_KEY) == Some(HELD) && HoldingOf([], EXAMPLE_KEY) == None
  {}

  lemma {:induction false} HoldingSoldOut(historyFrom: Day, day: Day)
    requires day < MAX_ORDINAL
    ensures LaterSync(BeforeSale(historyFrom, day), [], AfterSale(historyFrom, day))
    ensures HoldingMoved(BeforeSale(historyFrom, day), [], AfterSale(historyFrom, day), EXAMPLE_KEY)
    ensures BeforeSale(historyFrom, day).Older(EXAMPLE_KEY) == 1
  {
    OneSaleFills(day);
    ExampleHolding();
    assert [Sale(day)] + [] == [Sale(day)];
    assert NetBefore([], day + 1) == 0;
  }

  lemma {:induction false} SaleMatched(historyFrom: Day, day: Day)
    requires day < MAX_ORDINAL
    ensures BeforeSale(historyFrom, day).AccountOf(EXAMPLE_KEY).unmatched == []
  {
    HoldingSoldOut(historyFrom, day);
    OneSaleFills(day);
    ExampleHolding();
    OpeningIsFresh(1, Some(HELD), historyFrom);
    assert [] + [Sale(day)] == [Sale(day)];
    AfterFillsSnoc(Opening(1, Some(HELD), historyFrom), [], Sale(day));
  }

  lemma {:induction false} SaleUnmatched(historyFrom: Day, day: Day)
    requires day < MAX_ORDINAL
    ensures AfterSale(historyFrom, day).AccountOf(EXAMPLE_KEY).unmatched == [1]
  {
    OneSaleFills(day);
    ExampleHolding();
    assert [] + [Sale(day)] == [Sale(day)];
    AfterFillsSnoc(EMPTY, [], Sale(day));
  }

  lemma {:induction false} NotCalledBefore(trades: seq<Trade>, historyFrom: Day)
    requires forall i :: 0 <= i < |trades| ==> |trades[i].tradeId| == 1
    ensures NoneCalled(trades, BeforeEpisode(historyFrom))
  {
    assert |BeforeEpisode(historyFrom)| > 1;
  }

  /**
   * A share held since before the history is sold today: the sale is a closed row. Tomorrow the broker no
   * longer lists the holding, so the same fills do not explain the sale: the row is gone, the sale unmatched.
   */
  lemma {:induction false} SoldOutHoldingLosesItsRow(historyFrom: Day, day: Day) returns (row: ImportedPosition)
    requires day < MAX_ORDINAL
    ensures
      var first, second := BeforeSale(historyFrom, day), AfterSale(historyFrom, day);
      && LaterSync(first, [], second) && HoldingMoved(first, [], second, EXAMPLE_KEY)
      && first.AccountOf(EXAMPLE_KEY).unmatched == [] && second.AccountOf(EXAMPLE_KEY).unmatched == [1]
      && row.closedOn.Some? && HasRow(Positions(first), row) && !HasRow(Positions(second), row)
  {
    HoldingSoldOut(historyFrom, day);
    SaleMatched(historyFrom, day);
    SaleUnmatched(historyFrom, day);
    OneSaleFills(day);
    ExampleHolding();
    NotCalledBefore([Sale(day)], historyFrom);
    assert [Sale(day)][0].side == Sell;
    row := HarmedBookLosesRow(BeforeSale(historyFrom, day), [], AfterSale(historyFrom, day), EXAMPLE_KEY);
  }

  /** A round trip, a sale of one share more, and a share bought today. */
  function RoundTrip(day: Day): seq<Trade>
    requires 3 < day < MAX_ORDINAL
  {
    [ExampleFill("b", Buy, day - 3), ExampleFill("s", Sell, day - 2), ExampleFill("t", Sell, day - 1),
     ExampleFill("c", Buy, day)]
  }

  function Unseen(historyFrom: Day, day: Day): Inputs
    requires 3 < day < MAX_ORDINAL
  {
    Inputs(RoundTrip(day), [], historyFrom, day)
  }

  /** The day after: the same fills, and the share bought then is held. */
  function Seen(historyFrom: Day, day: Day): Inputs
    requires 3 < day < MAX_ORDINAL
  {
    Inputs(RoundTrip(day), [HELD], historyFrom, day + 1)
  }

  lemma {:induction false} RoundTripFills(day: Day)
    requires 3 < day < MAX_ORDINAL
    ensures BookFills(RoundTrip(day), EXAMPLE_KEY) == RoundTrip(day) && BookFills([], EXAMPLE_KEY) == []
    ensures NetBefore(RoundTrip(day), day) == -1 && NetFrom(RoundTrip(day), day) == 1
  {
    ExampleFillsInOrder(RoundTrip(day));
    ExampleFillsInOrder([]);
    CountOfFour(SignedBefore(day), RoundTrip(day));
    CountOfFour(SignedFrom(day), RoundTrip(day));
  }

  lemma {:induction false} CountOfFour(f: Trade -> int, s: seq<Trade>)
    requires |s| == 4
    ensures Count(f, s) == f(s[0]) + f(s[1]) + f(s[2]) + f(s[3])
  {
    TakeOneMore(s, 0);
    TakeOneMore(s, 1);
    TakeOneMore(s, 2);
    TakeOneMore(s, 3);
    CountSnoc(f, s[..0], s[0]);
    CountSnoc(f, s[..1], s[1]);
    CountSnoc(f, s[..2], s[2]);
    CountSnoc(f, s[..3], s[3]);
    assert s[..4] == s;
  }

  lemma {:induction false} HoldingNewlySeen(historyFrom: Day, day: Day)
    requires 3 < day < MAX_ORDINAL
    ensures LaterSync(Unseen(historyFrom, day), [], Seen(historyFrom, day))
    ensures HoldingMoved(Unseen(historyFrom, day), [], Seen(historyFrom, day), EXAMPLE_KEY)
    ensures Unseen(historyFrom, day).Older(EXAMPLE_KEY) == 1
  {
    RoundTripFills(day);
    ExampleHolding();
    assert RoundTrip(day) + [] == RoundTrip(day);
    assert NetBefore([], day + 1) == 0;
  }

  lemma {:induction false} RoundTripSells(day: Day)
    requires 3 < day < MAX_ORDINAL
    ensures SellsAfterBuy(RoundTrip(day)) && SoldBeforeBuy(RoundTrip(day)) == 0
  {
    var s := RoundTrip(day);
    assert s[0].side == Buy;
    assert FirstBuy(s) == 0;
    assert s[FirstBuy(s)..][1] == s[1];
    assert s[..0] == [];
  }

  lemma {:induction false} RoundTripHarmed(historyFrom: Day, day: Day)
    requires 3 < day < MAX_ORDINAL
    ensures !OpeningHarmless(Unseen(historyFrom, day), Seen(historyFrom, day), EXAMPLE_KEY)
    ensures SameAverageCost(Unseen(historyFrom, day), Seen(historyFrom, day), EXAMPLE_KEY)
  {
    HoldingNewlySeen(historyFrom, day);
    RoundTripFills(day);
    RoundTripSells(day);
    ExampleHolding();
  }

  lemma {:induction false} RoundTripIds(historyFrom: Day, day: Day)
    requires 3 < day < MAX_ORDINAL
    ensures ProperIds(Seen(historyFrom, day))
  {
    NotCalledBefore(RoundTrip(day), historyFrom);
  }

  /**
   * One share held since before the history, all sold by yesterday evening, so the broker lists nothing
   * today; a share bought today brings the holding back tomorrow. Only then is the old share seen, and it
   * takes the first sale: the round trip closed today is gone.
   */
  lemma {:induction false} NewlyShownHoldingLosesARow(historyFrom: Day, day: Day) returns (row: ImportedPosition)
    requires 3 < day < MAX_ORDINAL
    ensures
      var first, second := Unseen(historyFrom, day), Seen(historyFrom, day);
      && LaterSync(first, [], second) && HoldingMoved(first, [], second, EXAMPLE_KEY)
      && row.closedOn.Some? && HasRow(Positions(first), row) && !HasRow(Positions(second), row)
  {
    HoldingNewlySeen(historyFrom, day);
    RoundTripHarmed(historyFrom, day);
    RoundTripIds(historyFrom, day);
    row := HarmedBookLosesRow(Unseen(historyFrom, day), [], Seen(historyFrom, day), EXAMPLE_KEY);
  }
}

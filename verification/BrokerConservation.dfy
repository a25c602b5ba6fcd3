/** Nothing is lost in a book: shares leave in the order they came, and quantities, cost and charges add up. */
module BrokerConservation {
  import opened Wrappers
  import opened Dates
  import opened Ordering
  import opened Sums
  import opened Ledger
  import opened Reconciliation
  import opened Broker

  // --- first in, first out ------------------------------------------------------------

  /** A share as it was acquired, without the name of the holding it joined. */
  function Unnamed(s: Share): Share {
    s.(episode := "")
  }

  function UnnamedAll(shares: seq<Share>): seq<Share> {
    seq(|shares|, i requires 0 <= i < |shares| => Unnamed(shares[i]))
  }

  function SharesOf(sold: seq<Sold>): seq<Share> {
    seq(|sold|, i requires 0 <= i < |sold| => sold[i].share)
  }

  /** A share of a buy: its price and day, and its part of the charges. */
  function BoughtShare(t: Trade): Share {
    Share(t.price, DateOf(t.time), t.charges / t.quantity as real, "")
  }

  /** Every share the book ever got, in the order it got them. */
  function Acquired(opening: Account, fills: seq<Trade>): seq<Share> {
    if fills == [] then UnnamedAll(opening.queue)
    else
      var t := fills[|fills| - 1];
      Acquired(opening, fills[..|fills| - 1])
      + if t.side == Buy then Repeat(BoughtShare(t), t.quantity) else []
  }

  ghost predicate Fresh(a: Account) {
    a.sold == [] && a.unmatched == []
  }

  lemma UnnamedAppend(a: seq<Share>, b: seq<Share>)
    ensures UnnamedAll(a + b) == UnnamedAll(a) + UnnamedAll(b)
  {}

  /** The shares a book has had: those sold, then those left. */
  ghost function Passed(a: Account): seq<Share> {
    SharesOf(a.sold) + a.queue
  }

  lemma BuyPasses(a: Account, t: Trade)
    ensures UnnamedAll(Passed(AfterBuy(a, t))) == UnnamedAll(Passed(a)) + Repeat(BoughtShare(t), t.quantity)
  {
    var after := AfterBuy(a, t);
    var bought := after.queue[|a.queue|..];
    assert after.queue == a.queue + bought;
    assert Passed(after) == Passed(a) + bought;
    UnnamedAppend(Passed(a), bought);
    assert UnnamedAll(bought) == Repeat(BoughtShare(t), t.quantity);
  }

  lemma SellPasses(a: Account, t: Trade)
    ensures Passed(AfterSell(a, t)) == Passed(a)
  {
    var n := Min(t.quantity, |a.queue|);
    assert SharesOf(AfterSell(a, t).sold) == SharesOf(a.sold) + a.queue[..n];
  }

  /** FIFO: the shares sold, in order of sale, then the shares left are exactly the shares acquired, in order. */
  lemma {:induction false} FirstInFirstOut(opening: Account, fills: seq<Trade>)
    requires Fresh(opening)
    ensures UnnamedAll(Passed(AfterFills(opening, fills))) == Acquired(opening, fills)
  {
    if fills == [] {
      assert Passed(opening) == opening.queue;
    } else {
      var front, t := fills[..|fills| - 1], fills[|fills| - 1];
      FirstInFirstOut(opening, front);
      var before := AfterFills(opening, front);
      if t.side == Buy {
        BuyPasses(before, t);
      } else {
        SellPasses(before, t);
      }
    }
  }

  // --- totals of the account ------------------------------------------------------------

  function BuyQuantity(t: Trade): int {
    if t.side == Buy then t.quantity else 0
  }

  function SellQuantity(t: Trade): int {
    if t.side == Sell then t.quantity else 0
  }

  function BuyCost(t: Trade): real {
    if t.side == Buy then t.quantity as real * t.price else 0.0
  }

  function BuyCharges(t: Trade): real {
    if t.side == Buy then t.charges else 0.0
  }

  function Shares(n: pos): int { n }

  function Unmatched(a: Account): int {
    Count(Shares, a.unmatched)
  }

  /** Of a sale's charges, the fraction of its shares that found a lot. */
  function MatchedPart(before: Account, t: Trade): real {
    if t.side == Buy then 0.0
    else t.charges * (Min(t.quantity, |before.queue|) as real / t.quantity as real)
  }

  function MatchedSellCharges(opening: Account, fills: seq<Trade>): real {
    if fills == [] then 0.0
    else
      var front := fills[..|fills| - 1];
      MatchedSellCharges(opening, front) + MatchedPart(AfterFills(opening, front), fills[|fills| - 1])
  }

  lemma {:induction false} QuantitiesBalance(opening: Account, fills: seq<Trade>)
    requires Fresh(opening)
    ensures var a := AfterFills(opening, fills);
      && |opening.queue| + Count(BuyQuantity, fills) == |a.sold| + |a.queue|
      && Count(SellQuantity, fills) == |a.sold| + Unmatched(a)
  {
    if fills != [] {
      var front, t := fills[..|fills| - 1], fills[|fills| - 1];
      QuantitiesBalance(opening, front);
      var before := AfterFills(opening, front);
      if t.side == Sell && |before.queue| < t.quantity {
        CountSnoc<pos>(Shares, before.unmatched, t.quantity - |before.queue|);
      }
    }
  }

  function SaleCharge(s: Sold): real { s.charge }

  function ShareChargeOfSale(s: Sold): real { s.share.charge }

  lemma {:induction false} SumShares(f: Share -> real, g: Sold -> real, sold: seq<Sold>)
    requires forall s :: g(s) == f(s.share)
    ensures Sum(f, SharesOf(sold)) == Sum(g, sold)
  {
    if sold != [] {
      SumShares(f, g, sold[..|sold| - 1]);
      assert SharesOf(sold)[..|sold| - 1] == SharesOf(sold[..|sold| - 1]);
    }
  }

  lemma {:induction false} SumUnnamed(f: Share -> real, shares: seq<Share>)
    requires forall s :: f(Unnamed(s)) == f(s)
    ensures Sum(f, UnnamedAll(shares)) == Sum(f, shares)
  {
    if shares != [] {
      SumUnnamed(f, shares[..|shares| - 1]);
      assert UnnamedAll(shares)[..|shares| - 1] == UnnamedAll(shares[..|shares| - 1]);
    }
  }

  lemma {:induction false} AcquiredTotal(f: Share -> real, g: Trade -> real, opening: Account, fills: seq<Trade>)
    requires forall s :: f(Unnamed(s)) == f(s)
    requires forall t :: g(t) == if t.side == Buy then Sum(f, Repeat(BoughtShare(t), t.quantity)) else 0.0
    ensures Sum(f, Acquired(opening, fills)) == Sum(f, opening.queue) + Sum(g, fills)
  {
    if fills == [] {
      SumUnnamed(f, opening.queue);
    } else {
      var front, t := fills[..|fills| - 1], fills[|fills| - 1];
      AcquiredTotal(f, g, opening, front);
      var bought := if t.side == Buy then Repeat(BoughtShare(t), t.quantity) else [];
      SumAppend(f, Acquired(opening, front), bought);
    }
  }

  lemma BoughtTotals(t: Trade)
    ensures Sum(SharePrice, Repeat(BoughtShare(t), t.quantity)) == t.quantity as real * t.price
    ensures Sum(ShareCharge, Repeat(BoughtShare(t), t.quantity)) == t.charges
  {
    SumRepeat(SharePrice, BoughtShare(t), t.quantity);
    SumRepeat(ShareCharge, BoughtShare(t), t.quantity);
  }

  lemma AcquiredTotals(opening: Account, fills: seq<Trade>)
    ensures Sum(SharePrice, Acquired(opening, fills)) == Sum(SharePrice, opening.queue) + Sum(BuyCost, fills)
    ensures Sum(ShareCharge, Acquired(opening, fills)) == Sum(ShareCharge, opening.queue) + Sum(BuyCharges, fills)
  {
    forall t: Trade { BoughtTotals(t); }
    AcquiredTotal(SharePrice, BuyCost, opening, fills);
    AcquiredTotal(ShareCharge, BuyCharges, opening, fills);
  }

  lemma SoldCostsAppend(a: seq<Sold>, b: seq<Sold>, charge: real)
    requires forall i :: 0 <= i < |b| ==> b[i].charge == charge
    ensures Sum(SaleCharge, a + b) == Sum(SaleCharge, a) + Scaled(|b|, charge)
  {
    SumAppend(SaleCharge, a, b);
    SumConstant(SaleCharge, b, charge);
  }

  lemma {:induction false} SumConstant<T>(f: T -> real, s: seq<T>, y: real)
    requires forall i :: 0 <= i < |s| ==> f(s[i]) == y
    ensures Sum(f, s) == |s| as real * y
  {
    if s != [] {
      SumConstant(f, s[..|s| - 1], y);
      OneMore(|s| - 1, y);
    }
  }

  lemma FractionOfCharges(charges: real, n: nat, quantity: pos)
    ensures n as real * (charges / quantity as real) == charges * (n as real / quantity as real)
  {}

  lemma MatchedShares(before: Account, t: Trade)
    requires t.side == Sell
    ensures Scaled(Min(t.quantity, |before.queue|), ChargeRate(t)) == MatchedPart(before, t)
  {
    FractionOfCharges(t.charges, Min(t.quantity, |before.queue|), t.quantity);
  }

  lemma SaleAdds(before: Account, t: Trade, rate: real)
    requires rate == ChargeRate(t)
    ensures Sum(SaleCharge, AfterSell(before, t).sold)
         == Sum(SaleCharge, before.sold) + Scaled(Min(t.quantity, |before.queue|), rate)
  {
    SoldCostsAppend(before.sold, SellShares(before.queue[..Min(t.quantity, |before.queue|)], t), rate);
  }

  lemma OneSaleMatched(before: Account, t: Trade)
    ensures Sum(SaleCharge, AfterFill(before, t).sold) == Sum(SaleCharge, before.sold) + MatchedPart(before, t)
  {
    if t.side == Sell {
      SaleAdds(before, t, ChargeRate(t));
      MatchedShares(before, t);
    }
  }

  lemma {:induction false} SaleChargesMatched(opening: Account, fills: seq<Trade>)
    requires Fresh(opening)
    ensures Sum(SaleCharge, AfterFills(opening, fills).sold) == MatchedSellCharges(opening, fills)
  {
    if fills != [] {
      var front, t := fills[..|fills| - 1], fills[|fills| - 1];
      SaleChargesMatched(opening, front);
      OneSaleMatched(AfterFills(opening, front), t);
    }
  }

  /** What the matched shares of a fill were sold for. */
  function ProceedsPart(before: Account, t: Trade): real {
    if t.side == Buy then 0.0 else Scaled(Min(t.quantity, |before.queue|), t.price)
  }

  /** Over the fills: the shares of each sale that found a lot, at the price of that sale. */
  function MatchedProceeds(opening: Account, fills: seq<Trade>): real {
    if fills == [] then 0.0
    else
      var front := fills[..|fills| - 1];
      MatchedProceeds(opening, front) + ProceedsPart(AfterFills(opening, front), fills[|fills| - 1])
  }

  lemma SaleProceedsAppend(a: seq<Sold>, b: seq<Sold>, price: real)
    requires forall i :: 0 <= i < |b| ==> b[i].price == price
    ensures Sum(SoldProceeds, a + b) == Sum(SoldProceeds, a) + Scaled(|b|, price)
  {
    SumAppend(SoldProceeds, a, b);
    SumConstant(SoldProceeds, b, price);
  }

  lemma OneSaleProceeds(before: Account, t: Trade)
    ensures Sum(SoldProceeds, AfterFill(before, t).sold) == Sum(SoldProceeds, before.sold) + ProceedsPart(before, t)
  {
    if t.side == Sell {
      SaleProceedsAppend(before.sold, SellShares(before.queue[..Min(t.quantity, |before.queue|)], t), t.price);
    }
  }

  lemma {:induction false} ProceedsMatched(opening: Account, fills: seq<Trade>)
    requires Fresh(opening)
    ensures Sum(SoldProceeds, AfterFills(opening, fills).sold) == MatchedProceeds(opening, fills)
  {
    if fills != [] {
      var front, t := fills[..|fills| - 1], fills[|fills| - 1];
      ProceedsMatched(opening, front);
      OneSaleProceeds(AfterFills(opening, front), t);
    }
  }

  lemma {:induction false} SplitCharges(sold: seq<Sold>)
    ensures Sum(SoldCharges, sold) == Sum(ShareChargeOfSale, sold) + Sum(SaleCharge, sold)
  {
    if sold != [] {
      SplitCharges(sold[..|sold| - 1]);
    }
  }

  /** Cost in is cost out plus cost left; charges out plus left are the buys' and the matched part of the sells'. */
  lemma MoneyBalances(opening: Account, fills: seq<Trade>)
    requires Fresh(opening)
    ensures var a := AfterFills(opening, fills);
      && Sum(SharePrice, opening.queue) + Sum(BuyCost, fills) == Sum(SoldCost, a.sold) + Sum(SharePrice, a.queue)
      && Sum(ShareCharge, opening.queue) + Sum(BuyCharges, fills) + MatchedSellCharges(opening, fills)
         == Sum(SoldCharges, a.sold) + Sum(ShareCharge, a.queue)
  {
    var a := AfterFills(opening, fills);
    var all := SharesOf(a.sold) + a.queue;
    FirstInFirstOut(opening, fills);
    AcquiredTotals(opening, fills);
    SumUnnamed(SharePrice, all);
    SumUnnamed(ShareCharge, all);
    SumAppend(SharePrice, SharesOf(a.sold), a.queue);
    SumAppend(ShareCharge, SharesOf(a.sold), a.queue);
    SumShares(SharePrice, SoldCost, a.sold);
    SumShares(ShareCharge, ShareChargeOfSale, a.sold);
    SplitCharges(a.sold);
    SaleChargesMatched(opening, fills);
  }

  // --- the emitted rows hold it all ---------------------------------------------------------

  function RowQuantity(p: ImportedPosition): int { p.quantity }

  function RowCost(p: ImportedPosition): real { Scaled(p.quantity, p.entry) }

  function RowProceeds(p: ImportedPosition): real {
    if p.exitPrice.Some? then Scaled(p.quantity, p.exitPrice.value) else 0.0
  }

  function RowCharges(p: ImportedPosition): real { p.charges }

  /** The sales whose key is listed. */
  function Under(sold: seq<Sold>, ks: seq<ExitKey>): seq<Sold> {
    if sold == [] then []
    else
      var front := Under(sold[..|sold| - 1], ks);
      if KeyOf(sold[|sold| - 1]) in ks then front + [sold[|sold| - 1]] else front
  }

  lemma {:induction false} UnderAll(sold: seq<Sold>, ks: seq<ExitKey>)
    requires forall i :: 0 <= i < |sold| ==> KeyOf(sold[i]) in ks
    ensures Under(sold, ks) == sold
  {
    if sold != [] {
      UnderAll(sold[..|sold| - 1], ks);
    }
  }

  lemma {:induction false} UnderNone(sold: seq<Sold>)
    ensures Under(sold, []) == []
  {
    if sold != [] {
      UnderNone(sold[..|sold| - 1]);
    }
  }

  lemma {:induction false} UnderSnoc(sold: seq<Sold>, ks: seq<ExitKey>, k: ExitKey, f: Sold -> real)
    requires k !in ks
    ensures |Under(sold, ks + [k])| == |Under(sold, ks)| + |At(sold, k)|
    ensures Sum(f, Under(sold, ks + [k])) == Sum(f, Under(sold, ks)) + Sum(f, At(sold, k))
  {
    if sold != [] {
      var front, last := sold[..|sold| - 1], sold[|sold| - 1];
      UnderSnoc(front, ks, k, f);
      assert KeyOf(last) in ks + [k] <==> KeyOf(last) in ks || KeyOf(last) == k;
      if KeyOf(last) in ks {
        SumSnoc(f, Under(front, ks), last);
        SumSnoc(f, Under(front, ks + [k]), last);
      } else if KeyOf(last) == k {
        SumSnoc(f, At(front, k), last);
        SumSnoc(f, Under(front, ks + [k]), last);
      }
    }
  }

  lemma Averaged(total: real, n: pos)
    ensures n as real * (total / n as real) == total
  {}

  lemma AveragedEntry(row: ImportedPosition, cost: real)
    requires row.quantity > 0 && row.entry == cost / row.quantity as real
    ensures RowCost(row) == cost
  {
    Averaged(cost, row.quantity);
  }

  lemma AveragedExit(row: ImportedPosition, proceeds: real)
    requires row.quantity > 0 && row.exitPrice == Some(proceeds / row.quantity as real)
    ensures RowProceeds(row) == proceeds
  {
    Averaged(proceeds, row.quantity);
  }

  lemma ExitRowTotals(key: BookKey, k: ExitKey, e: Exit)
    requires e.quantity > 0 && e.openedOn.Some?
    ensures var row := ClosedRow(key, k, e);
      RowQuantity(row) == e.quantity && RowCost(row) == e.cost && RowProceeds(row) == e.proceeds &&
        RowCharges(row) == e.charges
  {
    AveragedEntry(ClosedRow(key, k, e), e.cost);
    AveragedExit(ClosedRow(key, k, e), e.proceeds);
  }

  lemma ClosedRowTotals(key: BookKey, sold: seq<Sold>, k: ExitKey)
    requires k in Keys(sold)
    ensures ExitOf(At(sold, k), k.episode).quantity > 0 && ExitOf(At(sold, k), k.episode).openedOn.Some?
    ensures var row := ClosedRow(key, k, ExitOf(At(sold, k), k.episode));
      && RowQuantity(row) == |At(sold, k)|
      && RowCost(row) == Sum(SoldCost, At(sold, k))
      && RowProceeds(row) == Sum(SoldProceeds, At(sold, k))
      && RowCharges(row) == Sum(SoldCharges, At(sold, k))
  {
    ExitsHaveSales(sold, k);
    ExitRowTotals(key, k, ExitOf(At(sold, k), k.episode));
  }

  /** The row of an exit carries in `f` what its sales add up to in `g`. */
  ghost predicate RowHolds(key: BookKey, sold: seq<Sold>, k: ExitKey, f: ImportedPosition -> real, g: Sold -> real) {
    var exit := ExitOf(At(sold, k), k.episode);
    exit.quantity > 0 && exit.openedOn.Some? && f(ClosedRow(key, k, exit)) == Sum(g, At(sold, k))
  }

  lemma RowsAtNext(key: BookKey, sold: seq<Sold>, ks: seq<ExitKey>, k: ExitKey, f: ImportedPosition -> real,
      g: Sold -> real)
    requires RowHolds(key, sold, k, f, g)
    ensures Sum(f, RowsAt(key, sold, ks + [k])) == Sum(f, RowsAt(key, sold, ks)) + Sum(g, At(sold, k))
    ensures |RowsAt(key, sold, ks + [k])| == |RowsAt(key, sold, ks)| + 1
  {
    assert (ks + [k])[..|ks|] == ks;
    SumSnoc(f, RowsAt(key, sold, ks), ClosedRow(key, k, ExitOf(At(sold, k), k.episode)));
  }

  lemma {:induction false} RowsHold(key: BookKey, sold: seq<Sold>, ks: seq<ExitKey>, f: ImportedPosition -> real,
      g: Sold -> real)
    requires Distinct(ks) && forall i :: 0 <= i < |ks| ==> RowHolds(key, sold, ks[i], f, g)
    ensures Sum(f, RowsAt(key, sold, ks)) == Sum(g, Under(sold, ks))
  {
    if ks == [] {
      UnderNone(sold);
    } else {
      var front, k := ks[..|ks| - 1], ks[|ks| - 1];
      SplitLast(ks);
      RowsHold(key, sold, front, f, g);
      RowsAtNext(key, sold, front, k, f, g);
      UnderSnoc(sold, front, k, g);
    }
  }

  function RowShares(p: ImportedPosition): real { p.quantity as real }

  function OneShare(s: Sold): real { 1.0 }

  lemma {:induction false} CountShares(rows: seq<ImportedPosition>)
    ensures Sum(RowShares, rows) == Count(RowQuantity, rows) as real
  {
    if rows != [] {
      CountShares(rows[..|rows| - 1]);
    }
  }

  lemma RowsHoldSales(key: BookKey, sold: seq<Sold>, ks: seq<ExitKey>)
    requires Distinct(ks) && forall i :: 0 <= i < |ks| ==> ks[i] in Keys(sold)
    ensures Count(RowQuantity, RowsAt(key, sold, ks)) == |Under(sold, ks)|
    ensures Sum(RowCost, RowsAt(key, sold, ks)) == Sum(SoldCost, Under(sold, ks))
    ensures Sum(RowProceeds, RowsAt(key, sold, ks)) == Sum(SoldProceeds, Under(sold, ks))
    ensures Sum(RowCharges, RowsAt(key, sold, ks)) == Sum(SoldCharges, Under(sold, ks))
  {
    forall i | 0 <= i < |ks|
      ensures RowHolds(key, sold, ks[i], RowShares, OneShare)
      ensures RowHolds(key, sold, ks[i], RowCost, SoldCost)
      ensures RowHolds(key, sold, ks[i], RowProceeds, SoldProceeds)
      ensures RowHolds(key, sold, ks[i], RowCharges, SoldCharges)
    {
      RowHoldsEach(key, sold, ks[i]);
    }
    RowsHold(key, sold, ks, RowShares, OneShare);
    RowsHold(key, sold, ks, RowCost, SoldCost);
    RowsHold(key, sold, ks, RowProceeds, SoldProceeds);
    RowsHold(key, sold, ks, RowCharges, SoldCharges);
    CountShares(RowsAt(key, sold, ks));
    SumOnes(Under(sold, ks));
  }

  lemma RowHoldsEach(key: BookKey, sold: seq<Sold>, k: ExitKey)
    requires k in Keys(sold)
    ensures RowHolds(key, sold, k, RowShares, OneShare)
    ensures RowHolds(key, sold, k, RowCost, SoldCost)
    ensures RowHolds(key, sold, k, RowProceeds, SoldProceeds)
    ensures RowHolds(key, sold, k, RowCharges, SoldCharges)
  {
    ClosedRowTotals(key, sold, k);
    SumOnes(At(sold, k));
  }

  lemma {:induction false} SumOnes(sold: seq<Sold>)
    ensures Sum(OneShare, sold) == |sold| as real
  {
    if sold != [] {
      SumOnes(sold[..|sold| - 1]);
    }
  }

  /** The closed rows of a book together hold every sale: quantity, FIFO cost, proceeds and charges. */
  lemma ClosedRowsHoldSales(key: BookKey, sold: seq<Sold>)
    ensures var rows := ClosedRows(key, sold);
      && Count(RowQuantity, rows) == |sold|
      && Sum(RowCost, rows) == Sum(SoldCost, sold)
      && Sum(RowProceeds, rows) == Sum(SoldProceeds, sold)
      && Sum(RowCharges, rows) == Sum(SoldCharges, sold)
  {
    ExitKeysListed(sold);
    var ks := SortedSet(ExitKeyLe, Keys(sold));
    RowsHoldSales(key, sold, ks);
    UnderAll(sold, ks);
  }

  lemma ExitKeysListed(sold: seq<Sold>)
    ensures var ks := SortedSet(ExitKeyLe, Keys(sold));
      && Distinct(ks)
      && (forall i :: 0 <= i < |ks| ==> ks[i] in Keys(sold))
      && (forall i :: 0 <= i < |sold| ==> KeyOf(sold[i]) in ks)
  {
    ExitKeyOrder();
    SortedSetListing(ExitKeyLe, Keys(sold));
    KeysMembers(sold);
    var ks := SortedSet(ExitKeyLe, Keys(sold));
    forall i | 0 <= i < |ks| ensures ks[i] in Keys(sold) {
      assert ks[i] in ks;
    }
    forall i | 0 <= i < |sold| ensures KeyOf(sold[i]) in ks {
      assert KeyOf(sold[i]) in Keys(sold);
    }
  }

  lemma OpenRowTotals(key: BookKey, queue: seq<Share>, historyFrom: Day)
    requires queue != []
    ensures var row := OpenRow(key, queue, historyFrom);
      RowQuantity(row) == |queue| && RowCost(row) == Sum(SharePrice, queue) &&
        RowCharges(row) == Sum(ShareCharge, queue)
  {
    AveragedEntry(OpenRow(key, queue, historyFrom), Sum(SharePrice, queue));
  }

  lemma OpeningIsFresh(older: int, holding: Option<Holding>, historyFrom: Day)
    ensures Fresh(Opening(older, holding, historyFrom))
    ensures |Opening(older, holding, historyFrom).queue| == if holding.Some? then Max(0, older) else 0
    ensures Sum(ShareCharge, Opening(older, holding, historyFrom).queue) == 0.0
  {
    if older > 0 && holding.Some? {
      SumRepeat(ShareCharge, Share(holding.value.avgCost, historyFrom, 0.0, BeforeEpisode(historyFrom)), older);
    }
  }

  /**
   * Conservation of one book, read off the rows it emits. What an intraday book leaves in its
   * queue is reported as a mismatch instead of a row; every other book's queue is its open row.
   */
  lemma Conservation(inputs: Inputs, key: BookKey)
    ensures var opening, fills, a := inputs.OpeningOf(key), BookFills(inputs.trades, key), inputs.AccountOf(key);
      var closed := ClosedRows(key, a.sold);
      && |opening.queue| + Count(BuyQuantity, fills) == Count(RowQuantity, closed) + |a.queue|
      && Count(SellQuantity, fills) == Count(RowQuantity, closed) + Unmatched(a)
      && Sum(SharePrice, opening.queue) + Sum(BuyCost, fills) == Sum(RowCost, closed) + Sum(SharePrice, a.queue)
      && Sum(RowProceeds, closed) == MatchedProceeds(opening, fills)
      && Sum(BuyCharges, fills) + MatchedSellCharges(opening, fills) ==
        Sum(RowCharges, closed) + Sum(ShareCharge, a.queue)
      && (forall row :: row in OpenRows(key, a.queue, inputs.historyFrom) ==>
            RowQuantity(row) == |a.queue| && RowCost(row) == Sum(SharePrice, a.queue)
            && RowCharges(row) == Sum(ShareCharge, a.queue))
  {
    var opening, fills, a := inputs.OpeningOf(key), BookFills(inputs.trades, key), inputs.AccountOf(key);
    OpeningIsFresh(inputs.Older(key), HoldingOf(inputs.holdings, key), inputs.historyFrom);
    QuantitiesBalance(opening, fills);
    MoneyBalances(opening, fills);
    ProceedsMatched(opening, fills);
    ClosedRowsHoldSales(key, a.sold);
    if a.queue != [] {
      OpenRowTotals(key, a.queue, inputs.historyFrom);
    }
  }
}

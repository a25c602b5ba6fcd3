/**
 * src/swingdash/domain/broker.py as it runs: a deque of lots that sales decrement and pop, exits
 * accumulated in place, and the loops of `reconcile`. Each method is proved against the
 * share-by-share account of module Ledger.
 */
module Broker {
  import opened Wrappers
  import opened Dates
  import opened Ordering
  import opened Sums
  import opened Ledger
  import opened Reconciliation

  datatype Lot = Lot(quantity: nat, price: real, day: Day, chargePerShare: real, episode: string)

  function ShareOf(lot: Lot): Share {
    Share(lot.price, lot.day, lot.chargePerShare, lot.episode)
  }

  /** The deque, share by share. */
  function Expand(lots: seq<Lot>): seq<Share> {
    if lots == [] then [] else Expand(lots[..|lots| - 1]) + Repeat(ShareOf(lots[|lots| - 1]), lots[|lots| - 1].quantity)
  }

  ghost predicate AllPositive(lots: seq<Lot>) {
    forall i :: 0 <= i < |lots| ==> lots[i].quantity > 0
  }

  lemma ExpandSnoc(lots: seq<Lot>, lot: Lot)
    ensures Expand(lots + [lot]) == Expand(lots) + Repeat(ShareOf(lot), lot.quantity)
  {
    assert (lots + [lot])[..|lots + [lot]| - 1] == lots;
  }

  lemma {:induction false} ExpandCons(lot: Lot, lots: seq<Lot>)
    ensures Expand([lot] + lots) == Repeat(ShareOf(lot), lot.quantity) + Expand(lots)
  {
    if lots == [] {
      ExpandSnoc([], lot);
      assert [lot] + lots == [] + [lot];
    } else {
      var front, last := lots[..|lots| - 1], lots[|lots| - 1];
      ExpandCons(lot, front);
      assert [lot] + lots == ([lot] + front) + [last];
      ExpandSnoc([lot] + front, last);
    }
  }

  /** Taking shares from the first lot drops as many shares from the front of the queue. */
  lemma TakeFromFirst(lots: seq<Lot>, taken: nat)
    requires lots != [] && taken <= lots[0].quantity
    ensures var rest := [lots[0].(quantity := lots[0].quantity - taken)] + lots[1..];
      && taken <= |Expand(lots)|
      && Expand(lots)[..taken] == Repeat(ShareOf(lots[0]), taken)
      && Expand(rest) == Expand(lots)[taken..]
      && (taken == lots[0].quantity ==> Expand(lots[1..]) == Expand(lots)[taken..])
  {
    var lot := lots[0];
    assert lots == [lot] + lots[1..];
    ExpandCons(lot, lots[1..]);
    ExpandCons(lot.(quantity := lot.quantity - taken), lots[1..]);
    assert Repeat(ShareOf(lot), lot.quantity)
        == Repeat(ShareOf(lot), taken) + Repeat(ShareOf(lot), lot.quantity - taken);
  }

  lemma {:induction false} ExpandEmpty(lots: seq<Lot>)
    requires AllPositive(lots)
    ensures Expand(lots) == [] <==> lots == []
    ensures lots != [] ==> Expand(lots)[0] == ShareOf(lots[0])
  {
    if lots != [] {
      ExpandCons(lots[0], lots[1..]);
      assert lots == [lots[0]] + lots[1..];
    }
  }

  // --- totals over the lots -----------------------------------------------------------

  function LotQuantity(lot: Lot): int { lot.quantity }

  function LotCost(lot: Lot): real { lot.quantity as real * lot.price }

  function LotCharges(lot: Lot): real { lot.quantity as real * lot.chargePerShare }

  function EarliestLot(lots: seq<Lot>): Day
    requires lots != []
  {
    if |lots| == 1 then lots[0].day else Min(EarliestLot(lots[..|lots| - 1]), lots[|lots| - 1].day)
  }

  lemma CostOfRepeat(lot: Lot)
    ensures Sum(SharePrice, Repeat(ShareOf(lot), lot.quantity)) == LotCost(lot)
    ensures Sum(ShareCharge, Repeat(ShareOf(lot), lot.quantity)) == LotCharges(lot)
  {
    SumRepeat(SharePrice, ShareOf(lot), lot.quantity);
    SumRepeat(ShareCharge, ShareOf(lot), lot.quantity);
  }

  /** Lot totals are totals over the shares. */
  lemma {:induction false} LotTotals(lots: seq<Lot>)
    ensures Count(LotQuantity, lots) == |Expand(lots)|
    ensures Sum(LotCost, lots) == Sum(SharePrice, Expand(lots))
    ensures Sum(LotCharges, lots) == Sum(ShareCharge, Expand(lots))
  {
    if lots != [] {
      var front, last := lots[..|lots| - 1], lots[|lots| - 1];
      LotTotals(front);
      CostOfRepeat(last);
      SumAppend(SharePrice, Expand(front), Repeat(ShareOf(last), last.quantity));
      SumAppend(ShareCharge, Expand(front), Repeat(ShareOf(last), last.quantity));
    }
  }

  lemma {:induction false} LotDays(lots: seq<Lot>)
    requires lots != [] && AllPositive(lots)
    ensures Expand(lots) != [] && EarliestLot(lots) == FirstDay(Expand(lots))
  {
    var front, last := lots[..|lots| - 1], lots[|lots| - 1];
    FirstDayRepeat(Expand(front), ShareOf(last), last.quantity);
    if |lots| > 1 {
      LotDays(front);
    }
  }

  // --- exits -------------------------------------------------------------------------

  function SaleOf(lot: Lot, fill: Trade): Sold {
    SaleOfShare(ShareOf(lot), fill)
  }

  /** The `+=` lines of `_sell`: `taken` shares of one lot join an exit. */
  function AddSale(e: Exit, taken: nat, s: Sold): Exit {
    Exit(
      e.quantity + taken,
      e.cost + taken as real * SoldCost(s),
      e.proceeds + taken as real * SoldProceeds(s),
      e.charges + taken as real * SoldCharges(s),
      Some(if e.openedOn.None? then s.share.day else Min(e.openedOn.value, s.share.day)),
      e.episode)
  }

  lemma {:induction false} KeysAt(sold: seq<Sold>, k: ExitKey)
    ensures k in Keys(sold) <==> At(sold, k) != []
  {
    if sold != [] {
      KeysAt(sold[..|sold| - 1], k);
    }
  }

  lemma {:induction false} AtHasKey(sold: seq<Sold>, k: ExitKey)
    ensures forall i :: 0 <= i < |At(sold, k)| ==> KeyOf(At(sold, k)[i]) == k
  {
    if sold != [] {
      AtHasKey(sold[..|sold| - 1], k);
    }
  }

  /** Every key of the exits has a quantity and an opening day, so no closed row is skipped. */
  lemma ExitsHaveSales(sold: seq<Sold>, k: ExitKey)
    ensures k in Keys(sold) <==> At(sold, k) != []
    ensures At(sold, k) != [] ==> EarliestDay(At(sold, k)).Some?
    ensures forall i :: 0 <= i < |At(sold, k)| ==> KeyOf(At(sold, k)[i]) == k
  {
    KeysAt(sold, k);
    AtHasKey(sold, k);
  }

  lemma AtSnoc(sold: seq<Sold>, s: Sold, k: ExitKey)
    ensures At(sold + [s], k) == if KeyOf(s) == k then At(sold, k) + [s] else At(sold, k)
  {
    assert (sold + [s])[..|sold + [s]| - 1] == sold;
  }

  lemma {:induction false} AtAppend(a: seq<Sold>, b: seq<Sold>, k: ExitKey)
    ensures At(a + b, k) == At(a, k) + At(b, k)
  {
    if b == [] {
      assert a + b == a;
    } else {
      var front, last := b[..|b| - 1], b[|b| - 1];
      AtAppend(a, front, k);
      SplitLast(b);
      Regrouped(a, front, [last]);
      AtSnoc(a + front, last, k);
      AtSnoc(front, last, k);
      Regrouped(At(a, k), At(front, k), [last]);
    }
  }

  lemma {:induction false} AtRepeat(s: Sold, n: nat, k: ExitKey)
    ensures At(Repeat(s, n), k) == if KeyOf(s) == k then Repeat(s, n) else []
  {
    if n > 0 {
      AtRepeat(s, n - 1, k);
      assert Repeat(s, n) == Repeat(s, n - 1) + [s];
      AtSnoc(Repeat(s, n - 1), s, k);
    }
  }

  lemma {:induction false} EarliestAppendRepeat(items: seq<Sold>, s: Sold, n: nat)
    requires n > 0
    ensures EarliestDay(items + Repeat(s, n)) ==
      Some(if EarliestDay(items).None? then s.share.day else Min(EarliestDay(items).value, s.share.day))
  {
    var all := items + Repeat(s, n);
    assert all[|all| - 1] == s;
    if n == 1 {
      assert all[..|all| - 1] == items;
    } else {
      EarliestAppendRepeat(items, s, n - 1);
      assert all[..|all| - 1] == items + Repeat(s, n - 1);
    }
  }

  lemma ExitOfAppendRepeat(items: seq<Sold>, s: Sold, n: nat, episode: string)
    requires n > 0
    ensures ExitOf(items + Repeat(s, n), episode) == AddSale(ExitOf(items, episode), n, s)
  {
    SumAppend(SoldCost, items, Repeat(s, n));
    SumAppend(SoldProceeds, items, Repeat(s, n));
    SumAppend(SoldCharges, items, Repeat(s, n));
    SumRepeat(SoldCost, s, n);
    SumRepeat(SoldProceeds, s, n);
    SumRepeat(SoldCharges, s, n);
    EarliestAppendRepeat(items, s, n);
  }

  lemma KeysAppendRepeat(sold: seq<Sold>, s: Sold, n: nat, x: ExitKey)
    requires n > 0
    ensures x in Keys(sold + Repeat(s, n)) <==> x in Keys(sold) || x == KeyOf(s)
    ensures At(sold + Repeat(s, n), x) == if x == KeyOf(s) then At(sold, x) + Repeat(s, n) else At(sold, x)
  {
    AtAppend(sold, Repeat(s, n), x);
    AtRepeat(s, n, x);
    ExitsHaveSales(sold, x);
    ExitsHaveSales(sold + Repeat(s, n), x);
  }

  /** `exits.setdefault(key, _Exit(...))`. */
  function ExitUnder(exits: map<ExitKey, Exit>, k: ExitKey): Exit {
    if k in exits then exits[k] else Exit(0, 0.0, 0.0, 0.0, None, k.episode)
  }

  lemma ExitUnderIsExitOf(sold: seq<Sold>, k: ExitKey)
    ensures ExitUnder(Exits(sold), k) == ExitOf(At(sold, k), k.episode)
  {
    ExitsHaveSales(sold, k);
  }

  /** Selling `n` shares of one lot updates one exit, as `setdefault` and the `+=` lines do. */
  lemma ExitsAppendRepeat(sold: seq<Sold>, s: Sold, n: nat)
    requires n > 0
    ensures Exits(sold + Repeat(s, n)) ==
      Exits(sold)[KeyOf(s) := AddSale(ExitUnder(Exits(sold), KeyOf(s)), n, s)]
  {
    var k := KeyOf(s);
    var more := sold + Repeat(s, n);
    ExitUnderIsExitOf(sold, k);
    ExitOfAppendRepeat(At(sold, k), s, n, k.episode);
    var after := Exits(sold)[k := AddSale(ExitUnder(Exits(sold), k), n, s)];
    forall x
      ensures x in Exits(more) <==> x in after
      ensures x in after ==> Exits(more)[x] == after[x]
    {
      KeysAppendRepeat(sold, s, n, x);
    }
  }

  lemma {:induction false} FirstDayRepeat(before: seq<Share>, share: Share, n: nat)
    requires n > 0
    ensures FirstDay(before + Repeat(share, n)) ==
      if before == [] then share.day else Min(FirstDay(before), share.day)
  {
    var all := before + Repeat(share, n);
    assert all[|all| - 1] == share;
    if n == 1 {
      assert all[..|all| - 1] == before;
    } else {
      FirstDayRepeat(before, share, n - 1);
      assert all[..|all| - 1] == before + Repeat(share, n - 1);
    }
  }

  lemma NothingSold(queue: seq<Share>, sold: seq<Sold>, fill: Trade)
    ensures sold + SellShares(queue[..0], fill) == sold
  {}

  lemma SalesOfOneLot(queue: seq<Share>, sold: seq<Sold>, done: nat, taken: pos, now: nat, sale: Sold, fill: Trade)
    requires now == done + taken <= |queue|
    requires sale == SaleOfShare(sale.share, fill)
    requires queue[done..][..taken] == Repeat(sale.share, taken)
    ensures sold + SellShares(queue[..now], fill) == sold + SellShares(queue[..done], fill) + Repeat(sale, taken)
  {
    assert queue[..now] == queue[..done] + queue[done..][..taken];
  }

  lemma NothingLeft<T>(s: seq<T>, n: nat)
    requires n <= |s|
    ensures s[n..] == [] <==> n == |s|
  {}

  lemma DropTwice<T>(s: seq<T>, a: nat, b: nat, all: nat)
    requires all == a + b <= |s|
    ensures s[a..][b..] == s[all..]
  {}

  /** `taken` equal shares left the front of a queue. */
  ghost predicate Took(before: seq<Share>, after: seq<Share>, share: Share, taken: nat) {
    taken <= |before| && before[..taken] == Repeat(share, taken) && after == before[taken..]
  }

  function WithSale(exits: map<ExitKey, Exit>, sale: Sold, taken: nat): map<ExitKey, Exit> {
    exits[KeyOf(sale) := AddSale(ExitUnder(exits, KeyOf(sale)), taken, sale)]
  }

  /** `done` shares have left the account's queue for a sale. */
  ghost predicate Consumed(a: Account, queue: seq<Share>, exits: map<ExitKey, Exit>, fill: Trade, done: nat) {
    && done <= |a.queue| && queue == a.queue[done..]
    && exits == Exits(a.sold + SellShares(a.queue[..done], fill))
  }

  lemma NothingConsumed(a: Account, fill: Trade)
    ensures Consumed(a, a.queue, Exits(a.sold), fill, 0)
  {
    NothingSold(a.queue, a.sold, fill);
  }

  lemma ExitsMore(sold: seq<Sold>, exits: map<ExitKey, Exit>, sale: Sold, taken: pos, more: seq<Sold>,
      after: map<ExitKey, Exit>)
    requires exits == Exits(sold) && more == sold + Repeat(sale, taken) && after == WithSale(exits, sale, taken)
    ensures after == Exits(more)
  {
    ExitsAppendRepeat(sold, sale, taken);
  }

  lemma ConsumedMore(a: Account, queue: seq<Share>, exits: map<ExitKey, Exit>, fill: Trade, done: nat, sale: Sold,
      taken: pos, rest: seq<Share>, after: map<ExitKey, Exit>, now: nat)
    requires Consumed(a, queue, exits, fill, done) && now == done + taken
    requires sale == SaleOfShare(sale.share, fill) && Took(queue, rest, sale.share, taken)
    requires after == WithSale(exits, sale, taken)
    ensures Consumed(a, rest, after, fill, now)
  {
    SalesOfOneLot(a.queue, a.sold, done, taken, now, sale, fill);
    var sold, more := a.sold + SellShares(a.queue[..done], fill), a.sold + SellShares(a.queue[..now], fill);
    ExitsMore(sold, exits, sale, taken, more, after);
    DropTwice(a.queue, done, taken, now);
  }

  method SortExitKeys(all: set<ExitKey>) returns (ks: seq<ExitKey>)
    ensures ks == SortedSet(ExitKeyLe, all)
    ensures forall i :: 0 <= i < |ks| ==> ks[i] in all
  {
    ExitKeyOrder();
    ks := SortSet(ExitKeyLe, all);
    assert forall i :: 0 <= i < |ks| ==> ks[i] in ks;
  }

  method SortBookKeys(all: set<BookKey>) returns (ks: seq<BookKey>)
    ensures ks == SortedSet(BookKeyLe, all)
  {
    BookKeyOrder();
    ks := SortSet(BookKeyLe, all);
  }

  /** The lot a buy appends. */
  function LotOf(fill: Trade, name: string): Lot {
    Lot(fill.quantity, fill.price, DayOf(fill), ChargeRate(fill), name)
  }

  lemma LotJoins(a: Account, fill: Trade, current: Option<string>, after: Account)
    requires current == if a.queue == [] then Some(fill.tradeId) else a.episode
    requires after == AfterBuy(a, fill)
    ensures after.episode == current && after.sold == a.sold
    ensures var lot := LotOf(fill, Joins(current, fill));
      lot.quantity > 0 && after.queue == a.queue + Repeat(ShareOf(lot), lot.quantity)
  {}

  // --- a book --------------------------------------------------------------------------

  class Book {
    var lots: seq<Lot>
    var exits: map<ExitKey, Exit>
    var episode: Option<string>
    /** The share-by-share account the fields stand for. */
    ghost var account: Account

    ghost predicate Valid()
      reads this
    {
      && AllPositive(lots)
      && Expand(lots) == account.queue
      && exits == Exits(account.sold)
      && episode == account.episode
    }

    constructor ()
      ensures Valid() && account == EMPTY
    {
      lots, exits, episode := [], map[], None;
      account := EMPTY;
    }

    /** The opening lot `reconcile` infers from the holding. */
    method Open(older: int, holding: Option<Holding>, historyFrom: Day)
      requires Valid() && account == EMPTY
      modifies this
      ensures Valid() && account == Opening(older, holding, historyFrom)
    {
      if older > 0 && holding.Some? {
        var name := BeforeEpisode(historyFrom);
        var lot := Lot(older, holding.value.avgCost, historyFrom, 0.0, name);
        ExpandSnoc(lots, lot);
        ExpandEmpty(lots);
        lots := lots + [lot];
        episode := Some(name);
      }
      account := Opening(older, holding, historyFrom);
      assert account.sold == EMPTY.sold;
    }

    method Append(lot: Lot)
      requires AllPositive(lots) && lot.quantity > 0
      modifies this`lots
      ensures AllPositive(lots) && Expand(lots) == old(Expand(lots)) + Repeat(ShareOf(lot), lot.quantity)
    {
      ExpandSnoc(lots, lot);
      lots := lots + [lot];
    }

    method Buy(fill: Trade)
      requires Valid()
      modifies this
      ensures Valid() && account == AfterBuy(old(account), fill)
    {
      ghost var after := AfterBuy(account, fill);
      ExpandEmpty(lots);
      episode := if lots == [] then Some(fill.tradeId) else episode;
      var name := Joins(episode, fill);
      LotJoins(account, fill, episode, after);
      Append(LotOf(fill, name));
      account := after;
    }

    /** One turn of the loop in `_sell`: as much as the first lot gives towards `wanted`. */
    method TakeFromFirstLot(fill: Trade, wanted: pos) returns (taken: pos)
      requires AllPositive(lots) && lots != []
      modifies this`lots, this`exits
      ensures AllPositive(lots) && taken <= wanted
      ensures taken == wanted || |lots| < old(|lots|)
      ensures Took(old(Expand(lots)), Expand(lots), SaleOf(old(lots[0]), fill).share, taken)
      ensures exits == WithSale(old(exits), SaleOf(old(lots[0]), fill), taken)
    {
      var lot := lots[0];
      taken := Min(lot.quantity, wanted);
      var sale := SaleOf(lot, fill);
      exits := exits[KeyOf(sale) := AddSale(ExitUnder(exits, KeyOf(sale)), taken, sale)];
      TakeFromFirst(lots, taken);
      ghost var rest := lots[1..];
      lots := [lot.(quantity := lot.quantity - taken)] + lots[1..];
      if lots[0].quantity == 0 {
        lots := lots[1..];
        assert lots == rest;
      }
    }

    /** The loop of `_sell`: lots leave from the front until the sale is filled or none are left. */
    method Consume(fill: Trade, ghost a: Account) returns (remaining: nat, ghost done: nat)
      requires AllPositive(lots) && Consumed(a, Expand(lots), exits, fill, 0)
      modifies this`lots, this`exits
      ensures done + remaining == fill.quantity && (remaining > 0 ==> lots == [])
      ensures AllPositive(lots) && Consumed(a, Expand(lots), exits, fill, done)
    {
      remaining, done := fill.quantity, 0;
      while remaining > 0 && lots != []
        invariant done + remaining == fill.quantity
        invariant AllPositive(lots) && Consumed(a, Expand(lots), exits, fill, done)
        decreases remaining
      {
        var taken;
        taken, done := ConsumeLot(fill, remaining, a, done);
        remaining := remaining - taken;
      }
    }

    /** One turn of that loop, seen from the account. */
    method ConsumeLot(fill: Trade, wanted: pos, ghost a: Account, ghost done: nat)
      returns (taken: pos, ghost now: nat)
      requires AllPositive(lots) && lots != [] && Consumed(a, Expand(lots), exits, fill, done)
      modifies this`lots, this`exits
      ensures AllPositive(lots) && taken <= wanted
      ensures now == done + taken && Consumed(a, Expand(lots), exits, fill, now)
    {
      ghost var sale, queue, before := SaleOf(lots[0], fill), Expand(lots), exits;
      taken := TakeFromFirstLot(fill, wanted);
      now := done + taken;
      ConsumedMore(a, queue, before, fill, done, sale, taken, Expand(lots), exits, now);
    }

    /** The loop of a sale: lots leave the front of the deque until the sale is filled or none is left. */
    method Sell(fill: Trade) returns (remaining: nat)
      requires Valid()
      modifies this
      ensures Valid() && account == AfterSell(old(account), fill)
      ensures remaining == Max(0, fill.quantity - |old(account).queue|)
    {
      NothingConsumed(account, fill);
      ghost var done;
      remaining, done := Consume(fill, account);
      ExpandEmpty(lots);
      NothingLeft(account.queue, done);
      ghost var after := AfterSell(account, fill);
      assert done == Min(fill.quantity, |account.queue|);
      if lots == [] {
        episode := None;
      }
      account := after;
    }

    /** A fill of either side; what a sale could not match is reported. */
    method Fill(fill: Trade) returns (unmatched: nat)
      requires Valid()
      modifies this
      ensures Valid() && account == AfterFill(old(account), fill)
      ensures account.unmatched == old(account).unmatched + if unmatched > 0 then [unmatched] else []
    {
      if fill.side == Side.Buy {
        Buy(fill);
        unmatched := 0;
      } else {
        unmatched := Sell(fill);
      }
    }

    /** `_closed_rows`: one row per exit, by day and holding. */
    method ClosedPositions(key: BookKey) returns (rows: seq<ImportedPosition>)
      requires Valid()
      ensures rows == ClosedRows(key, account.sold)
    {
      rows := [];
      assert exits.Keys == Keys(account.sold);
      var ks := SortExitKeys(exits.Keys);
      for i := 0 to |ks|
        invariant rows == RowsAt(key, account.sold, ks[..i])
      {
        assert ks[..i + 1][..i] == ks[..i];
        var exit := exits[ks[i]];
        if exit.quantity != 0 && exit.openedOn.Some? {
          rows := rows + [ClosedRow(key, ks[i], exit)];
        }
      }
      assert ks[..|ks|] == ks;
    }

    /** `_open_row`: what the lots still hold. */
    method OpenPosition(key: BookKey, historyFrom: Day) returns (row: ImportedPosition)
      requires Valid() && lots != []
      ensures account.queue != [] && row == OpenRow(key, account.queue, historyFrom)
    {
      ExpandEmpty(lots);
      var quantity, cost, charges, openedOn := 0, 0.0, 0.0, lots[0].day;
      for i := 0 to |lots|
        invariant quantity == Count(LotQuantity, lots[..i])
        invariant cost == Sum(LotCost, lots[..i])
        invariant charges == Sum(LotCharges, lots[..i])
        invariant openedOn == if i == 0 then lots[0].day else EarliestLot(lots[..i])
      {
        var lot := lots[i];
        assert lots[..i + 1] == lots[..i] + [lot];
        assert lots[..i + 1][..i] == lots[..i];
        quantity := quantity + lot.quantity;
        cost := cost + LotCost(lot);
        charges := charges + LotCharges(lot);
        openedOn := Min(openedOn, lot.day);
      }
      assert lots[..|lots|] == lots;
      LotTotals(lots);
      LotDays(lots);
      row := ImportedPosition(
        OpenRef(key, lots[0].episode), key.symbol, key.funding, quantity, cost / quantity as real,
        openedOn, None, None, charges,
        if "before-" <= lots[0].episode then HeldBeforeNote(historyFrom) else "");
    }

    method OpenQuantity() returns (quantity: int)
      requires Valid()
      ensures quantity == |account.queue|
    {
      quantity := 0;
      for i := 0 to |lots|
        invariant quantity == Count(LotQuantity, lots[..i])
      {
        assert lots[..i + 1][..i] == lots[..i];
        quantity := quantity + lots[i].quantity;
      }
      assert lots[..|lots|] == lots;
      LotTotals(lots);
    }
  }

  // --- reconcile --------------------------------------------------------------------------

  lemma FillOrder()
    ensures Total(FillLe) && Transitive(FillLe)
  {
    forall a: Trade, b: Trade ensures FillLe(a, b) || FillLe(b, a) {
      StringLeTotal(a.tradeId, b.tradeId);
    }
    forall a: Trade, b: Trade, c: Trade | FillLe(a, b) && FillLe(b, c) ensures FillLe(a, c) {
      if a.time == b.time == c.time {
        StringLeTransitive(a.tradeId, b.tradeId, c.tradeId);
      }
    }
  }

  /** `by_key`: the fills of each stock and funding, products without a book left out. */
  method GroupTrades(trades: seq<Trade>) returns (byKey: map<BookKey, seq<Trade>>)
    ensures byKey.Keys == TradedKeys(trades)
    ensures forall k :: FillsOf(trades, k) == if k in byKey then byKey[k] else []
  {
    byKey := map[];
    for i := 0 to |trades|
      invariant forall k :: k in byKey ==> byKey[k] != []
      invariant forall k :: FillsOf(trades[..i], k) == if k in byKey then byKey[k] else []
    {
      assert trades[..i + 1][..i] == trades[..i];
      var funding := FundingOf(trades[i].product);
      if funding.Some? {
        var key := BookKey(trades[i].symbol, funding.value);
        byKey := byKey[key := (if key in byKey then byKey[key] else []) + [trades[i]]];
      }
    }
    assert trades[..|trades|] == trades;
    forall k ensures k in byKey <==> k in TradedKeys(trades) {
      TradedKeyHasFills(trades, k);
    }
  }

  lemma FillsOfSnoc(trades: seq<Trade>, t: Trade, key: BookKey)
    ensures FillsOf(trades + [t], key) == FillsOf(trades, key)
      + if t.symbol == key.symbol && FundingOf(t.product) == Some(key.funding) then [t] else []
  {
    assert (trades + [t])[..|trades + [t]| - 1] == trades;
  }

  lemma {:induction false} TradedKeyHasFills(trades: seq<Trade>, k: BookKey)
    ensures k in TradedKeys(trades) <==> FillsOf(trades, k) != []
  {
    if trades != [] {
      var front, t := trades[..|trades| - 1], trades[|trades| - 1];
      TradedKeyHasFills(front, k);
      if k in TradedKeys(front) {
        var i :| 0 <= i < |front| && FundingOf(front[i].product).Some?
          && k == BookKey(front[i].symbol, FundingOf(front[i].product).value);
        assert trades[i] == front[i];
      }
      if FillsOf(trades, k) != [] && FillsOf(front, k) == [] {
        assert FundingOf(trades[|trades| - 1].product).Some?;
      }
      if k in TradedKeys(trades) && k !in TradedKeys(front) {
        var i :| 0 <= i < |trades| && FundingOf(trades[i].product).Some?
          && k == BookKey(trades[i].symbol, FundingOf(trades[i].product).value);
        assert i < |front| ==> trades[i] == front[i];
      }
    }
  }

  /** `held`: a later holding of the same stock replaces an earlier one. */
  method GroupHoldings(holdings: seq<Holding>) returns (held: map<BookKey, Holding>)
    ensures held.Keys == HeldKeys(holdings)
    ensures forall k :: HoldingOf(holdings, k) == if k in held then Some(held[k]) else None
  {
    held := map[];
    for i := 0 to |holdings|
      invariant forall k :: k in held <==> k in HeldKeys(holdings[..i])
      invariant forall k :: HoldingOf(holdings[..i], k) == if k in held then Some(held[k]) else None
    {
      var h := holdings[i];
      assert holdings[..i + 1] == holdings[..i] + [h] && holdings[..i + 1][..i] == holdings[..i];
      forall k ensures k in HeldKeys(holdings[..i + 1]) <==>
        k in HeldKeys(holdings[..i]) || (h.quantity > 0 && k == BookKey(h.symbol, Normal))
        || (h.mtfQuantity > 0 && k == BookKey(h.symbol, Mtf))
      {
        HeldKeysSnoc(holdings[..i], h, k);
      }
      if h.quantity > 0 {
        held := held[BookKey(h.symbol, Normal) := h];
      }
      if h.mtfQuantity > 0 {
        held := held[BookKey(h.symbol, Mtf) := h];
      }
    }
    assert holdings[..|holdings|] == holdings;
  }

  lemma HeldKeysSnoc(holdings: seq<Holding>, h: Holding, k: BookKey)
    ensures k in HeldKeys(holdings + [h]) <==>
      k in HeldKeys(holdings) || (h.quantity > 0 && k == BookKey(h.symbol, Normal))
      || (h.mtfQuantity > 0 && k == BookKey(h.symbol, Mtf))
  {
    var all := holdings + [h];
    assert all[|all| - 1] == h;
    assert forall i :: 0 <= i < |holdings| ==> all[i] == holdings[i];
  }

  /** The signed quantity of the fills dated before, or from, `today`. */
  method SignedTotals(fills: seq<Trade>, today: Day) returns (before: int, from: int)
    ensures before == NetBefore(fills, today) && from == NetFrom(fills, today)
  {
    before, from := 0, 0;
    for i := 0 to |fills|
      invariant before == NetBefore(fills[..i], today) && from == NetFrom(fills[..i], today)
    {
      assert fills[..i + 1][..i] == fills[..i];
      if DayOf(fills[i]) < today {
        before := before + Signed(fills[i]);
      } else {
        from := from + Signed(fills[i]);
      }
    }
    assert fills[..|fills|] == fills;
  }

  /** One book: the opening lot, then every fill in order. */
  method RebuildBook(key: BookKey, fills: seq<Trade>, older: int, holding: Option<Holding>, historyFrom: Day)
    returns (book: Book, mismatches: seq<Mismatch>)
    ensures fresh(book) && book.Valid()
    ensures book.account == AfterFills(Opening(older, holding, historyFrom), fills)
    ensures mismatches == SoldMoreLines(key, book.account.unmatched)
  {
    book := new Book();
    book.Open(older, holding, historyFrom);
    mismatches := [];
    ghost var opening := book.account;
    assert fills[..0] == [];
    for i := 0 to |fills|
      invariant fresh(book) && book.Valid()
      invariant book.account == AfterFills(opening, fills[..i])
      invariant mismatches == SoldMoreLines(key, book.account.unmatched)
    {
      TakeOneMore(fills, i);
      AfterFillsSnoc(opening, fills[..i], fills[i]);
      mismatches := FillAndReport(key, book, fills[i], mismatches);
    }
    assert fills[..|fills|] == fills;
  }

  /** One turn of that loop: the fill, and a line when a sale found too few shares. */
  method FillAndReport(key: BookKey, book: Book, fill: Trade, lines: seq<Mismatch>) returns (mismatches: seq<Mismatch>)
    requires book.Valid() && lines == SoldMoreLines(key, book.account.unmatched)
    modifies book
    ensures book.Valid() && book.account == AfterFill(old(book.account), fill)
    ensures mismatches == SoldMoreLines(key, book.account.unmatched)
  {
    ghost var before := book.account.unmatched;
    var unmatched := book.Fill(fill);
    SoldMoreAppend(key, before, unmatched);
    mismatches := if unmatched > 0 then lines + [SoldMore(key.symbol, unmatched)] else lines;
    assert lines + [] == lines;
  }

  lemma SoldMoreAppend(key: BookKey, unmatched: seq<pos>, n: nat)
    ensures SoldMoreLines(key, unmatched + if n > 0 then [n] else []) ==
      SoldMoreLines(key, unmatched) + if n > 0 then [SoldMore(key.symbol, n)] else []
  {}

  lemma OverSnoc(inputs: Inputs, keys: seq<BookKey>, key: BookKey)
    ensures RowsOver(inputs, keys + [key]) == RowsOver(inputs, keys) + BookRows(inputs, key)
    ensures MismatchesOver(inputs, keys + [key]) == MismatchesOver(inputs, keys) + BookMismatches(inputs, key)
  {
    assert (keys + [key])[..|keys + [key]| - 1] == keys;
  }

  lemma BookRowsOf(inputs: Inputs, key: BookKey, a: Account)
    requires a == inputs.AccountOf(key)
    ensures BookRows(inputs, key) == ClosedRows(key, a.sold) + OpenRows(key, a.queue, inputs.historyFrom)
    ensures BookMismatches(inputs, key) == SoldMoreLines(key, a.unmatched)
      + LeftoverLines(key, |a.queue|, inputs.Expected(key), HoldingOf(inputs.holdings, key).None?)
  {}

  /** The rows of a rebuilt book and what its open quantity disagrees with. */
  method ReportBook(key: BookKey, book: Book, expected: int, notHeld: bool, historyFrom: Day)
    returns (positions: seq<ImportedPosition>, mismatches: seq<Mismatch>)
    requires book.Valid()
    ensures positions == ClosedRows(key, book.account.sold) + OpenRows(key, book.account.queue, historyFrom)
    ensures mismatches == LeftoverLines(key, |book.account.queue|, expected, notHeld)
  {
    mismatches := [];
    var openQuantity := book.OpenQuantity();
    positions := book.ClosedPositions(key);
    if key.funding == Intraday {
      if openQuantity != 0 {
        mismatches := [IntradayLeft(key.symbol, openQuantity)];
      }
      assert positions + [] == positions;
      return;
    }
    if openQuantity != expected && !(notHeld && openQuantity == 0) {
      mismatches := [Disagrees(key.symbol, openQuantity, expected)];
    }
    ExpandEmpty(book.lots);
    if book.lots != [] {
      var open := book.OpenPosition(key, historyFrom);
      positions := positions + [open];
    } else {
      assert positions + [] == positions;
    }
  }

  /** The book of one key, rebuilt, and the quantity the broker should show for it. */
  method RebuildFor(inputs: Inputs, key: BookKey, unsorted: seq<Trade>, holding: Option<Holding>)
    returns (book: Book, mismatches: seq<Mismatch>, expected: int)
    requires unsorted == FillsOf(inputs.trades, key) && holding == HoldingOf(inputs.holdings, key)
    ensures fresh(book) && book.Valid() && book.account == inputs.AccountOf(key)
    ensures mismatches == SoldMoreLines(key, book.account.unmatched)
    ensures expected == inputs.Expected(key)
  {
    var fills := SortBy(FillLe, unsorted);
    var heldQuantity := HeldQuantity(holding, key.funding);
    var beforeToday, fromToday := SignedTotals(fills, inputs.today);
    book, mismatches := RebuildBook(key, fills, heldQuantity - beforeToday, holding, inputs.historyFrom);
    expected := heldQuantity + fromToday;
  }

  /** The body of the loop in `reconcile`. */
  method ReconcileBook(inputs: Inputs, key: BookKey, unsorted: seq<Trade>, holding: Option<Holding>)
    returns (positions: seq<ImportedPosition>, mismatches: seq<Mismatch>)
    requires unsorted == FillsOf(inputs.trades, key) && holding == HoldingOf(inputs.holdings, key)
    ensures positions == BookRows(inputs, key)
    ensures mismatches == BookMismatches(inputs, key)
  {
    var book, soldMore, expected := RebuildFor(inputs, key, unsorted, holding);
    BookRowsOf(inputs, key, book.account);
    var rows, lines := ReportBook(key, book, expected, holding.None?, inputs.historyFrom);
    positions, mismatches := rows, soldMore + lines;
  }

  function FillsIn(byKey: map<BookKey, seq<Trade>>, key: BookKey): seq<Trade> {
    if key in byKey then byKey[key] else []
  }

  function HoldingIn(held: map<BookKey, Holding>, key: BookKey): Option<Holding> {
    if key in held then Some(held[key]) else None
  }

  method ReconcileKeys(inputs: Inputs, keys: seq<BookKey>, byKey: map<BookKey, seq<Trade>>, held: map<BookKey, Holding>)
    returns (positions: seq<ImportedPosition>, mismatches: seq<Mismatch>)
    requires forall k :: k in keys ==> FillsOf(inputs.trades, k) == FillsIn(byKey, k)
    requires forall k :: k in keys ==> HoldingOf(inputs.holdings, k) == HoldingIn(held, k)
    ensures positions == RowsOver(inputs, keys)
    ensures mismatches == MismatchesOver(inputs, keys)
  {
    positions, mismatches := [], [];
    for i := 0 to |keys|
      invariant positions == RowsOver(inputs, keys[..i])
      invariant mismatches == MismatchesOver(inputs, keys[..i])
    {
      var key := keys[i];
      assert key in keys;
      var rows, lines := ReconcileBook(inputs, key, FillsIn(byKey, key), HoldingIn(held, key));
      TakeOneMore(keys, i);
      OverSnoc(inputs, keys[..i], key);
      positions := positions + rows;
      mismatches := mismatches + lines;
    }
    assert keys[..|keys|] == keys;
  }

  method Reconcile(inputs: Inputs) returns (result: Reconciled)
    ensures result.positions == Positions(inputs)
    ensures result.mismatches == Mismatches(inputs)
  {
    var byKey := GroupTrades(inputs.trades);
    var held := GroupHoldings(inputs.holdings);
    assert byKey.Keys + held.Keys == inputs.BookKeys();
    var keys := SortBookKeys(byKey.Keys + held.Keys);
    var positions, mismatches := ReconcileKeys(inputs, keys, byKey, held);
    result := Reconciled(positions, mismatches);
  }
}

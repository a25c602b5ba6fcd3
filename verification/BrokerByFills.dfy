/**
 * What the rows of a reconciliation say, worked out from the fills alone: which shares each sale matched,
 * at what price, and which holding they belonged to. No account is kept; the accounts are proved to agree.
 */
module BrokerByFills {
  import opened Wrappers
  import opened Dates
  import opened Sums
  import opened Ledger
  import opened Broker
  import opened BrokerRefs
  import opened BrokerConservation

  // --- counted off the fills ----------------------------------------------------------------------

  /** Shares held after the fills, from `opening` shares on; a sale takes what there is. */
  function Held(opening: nat, fills: seq<Trade>): nat {
    if fills == [] then opening
    else
      var t, held := fills[|fills| - 1], Held(opening, fills[..|fills| - 1]);
      if t.side == Buy then held + t.quantity else Max(0, held - t.quantity)
  }

  /** How many of its shares a fill sells out of `held`. */
  function Matched(held: nat, t: Trade): nat {
    if t.side == Sell then Min(t.quantity, held) else 0
  }

  /** Shares sold so far. */
  function Taken(opening: nat, fills: seq<Trade>): nat {
    if fills == [] then 0
    else
      var front := fills[..|fills| - 1];
      Taken(opening, front) + Matched(Held(opening, front), fills[|fills| - 1])
  }

  /** The buy that found nothing held names the holding; `before` is the name of the opening shares. */
  function HoldingName(opening: nat, before: string, fills: seq<Trade>): string {
    if fills == [] then before
    else
      var front, t := fills[..|fills| - 1], fills[|fills| - 1];
      if t.side == Buy && Held(opening, front) == 0 then t.tradeId else HoldingName(opening, before, front)
  }

  /** The last fill is a sale of that day out of that holding. */
  predicate SellsUnder(opening: nat, before: string, fills: seq<Trade>, k: ExitKey)
    requires fills != []
  {
    var t := fills[|fills| - 1];
    t.side == Sell && DateOf(t.time) == k.day && HoldingName(opening, before, fills[..|fills| - 1]) == k.episode
  }

  /** What the sales under a key were made for: matched shares times the price of the sale. */
  function ProceedsUnder(opening: nat, before: string, fills: seq<Trade>, k: ExitKey): real {
    if fills == [] then 0.0
    else
      var front, t := fills[..|fills| - 1], fills[|fills| - 1];
      ProceedsUnder(opening, before, front, k)
      + if SellsUnder(opening, before, fills, k) then Scaled(Matched(Held(opening, front), t), t.price) else 0.0
  }

  /** The matched part of those sales' charges. */
  function SaleChargesUnder(opening: nat, before: string, fills: seq<Trade>, k: ExitKey): real {
    if fills == [] then 0.0
    else
      var front, t := fills[..|fills| - 1], fills[|fills| - 1];
      SaleChargesUnder(opening, before, front, k)
      + if SellsUnder(opening, before, fills, k) then
          Scaled(Matched(Held(opening, front), t), t.charges / t.quantity as real)
        else 0.0
  }

  /**
   * The shares those sales took: of all the shares ever acquired, in order, a sale takes the next ones after
   * what was sold before it.
   */
  function SharesUnder(opening: nat, before: string, fills: seq<Trade>, k: ExitKey, all: seq<Share>): seq<Share>
    requires Taken(opening, fills) <= |all|
  {
    if fills == [] then []
    else
      var front, t := fills[..|fills| - 1], fills[|fills| - 1];
      var first := Taken(opening, front);
      SharesUnder(opening, before, front, k, all)
      + if SellsUnder(opening, before, fills, k) then all[first..first + Matched(Held(opening, front), t)] else []
  }

  /** What each sale found too few shares for. */
  function Shortfalls(opening: nat, fills: seq<Trade>): seq<int> {
    if fills == [] then []
    else
      var front, t := fills[..|fills| - 1], fills[|fills| - 1];
      var held := Held(opening, front);
      Shortfalls(opening, front) + if t.side == Sell && held < t.quantity then [t.quantity - held] else []
  }

  // --- the account agrees ------------------------------------------------------------------------------

  lemma {:induction false} HeldIsQueue(opening: Account, fills: seq<Trade>)
    ensures |AfterFills(opening, fills).queue| == Held(|opening.queue|, fills)
    ensures |AfterFills(opening, fills).sold| == |opening.sold| + Taken(|opening.queue|, fills)
  {
    if fills != [] {
      HeldIsQueue(opening, fills[..|fills| - 1]);
    }
  }

  lemma {:induction false} AcquiredGrows(opening: Account, fills: seq<Trade>, n: nat)
    requires n <= |fills|
    ensures Acquired(opening, fills[..n]) <= Acquired(opening, fills)
  {
    if n == |fills| {
      assert fills[..n] == fills;
    } else {
      var front := fills[..|fills| - 1];
      assert fills[..n] == front[..n];
      AcquiredGrows(opening, front, n);
    }
  }

  lemma {:induction false} ShortfallsReported(opening: Account, fills: seq<Trade>)
    requires opening.unmatched == []
    ensures AfterFills(opening, fills).unmatched == Shortfalls(|opening.queue|, fills)
  {
    if fills != [] {
      ShortfallsReported(opening, fills[..|fills| - 1]);
      HeldIsQueue(opening, fills[..|fills| - 1]);
    }
  }

  /** The holding the account names is the one the fills name. */
  lemma {:induction false} NameIsEpisode(opening: Account, fills: seq<Trade>, before: string)
    requires OneEpisode(opening) && Named(fills) && (opening.queue != [] ==> opening.episode == Some(before))
    ensures
      var a := AfterFills(opening, fills);
      a.queue != [] ==> a.episode == Some(HoldingName(|opening.queue|, before, fills))
  {
    if fills != [] {
      var front := fills[..|fills| - 1];
      NameIsEpisode(opening, front, before);
      EpisodeInvariant(opening, front);
      HeldIsQueue(opening, front);
    }
  }

  /** Each matched share of a sale, as the account logs it. */
  lemma {:induction false} SoldUnder(a: Account, t: Trade, name: string, k: ExitKey)
    requires t.side == Sell && (a.queue != [] ==> a.episode == Some(name)) && OneEpisode(a)
    ensures
      var n := Min(t.quantity, |a.queue|);
      At(AfterSell(a, t).sold, k) == At(a.sold, k)
        + if DateOf(t.time) == k.day && name == k.episode then SellShares(a.queue[..n], t) else []
  {
    var n := Min(t.quantity, |a.queue|);
    var sales := SellShares(a.queue[..n], t);
    AtAppend(a.sold, sales, k);
    if n > 0 {
      AtUniform(sales, ExitKey(DateOf(t.time), name), k);
    }
  }

  lemma {:induction false} AtUniform(sales: seq<Sold>, all: ExitKey, k: ExitKey)
    requires forall i :: 0 <= i < |sales| ==> KeyOf(sales[i]) == all
    ensures At(sales, k) == if all == k then sales else []
  {
    if sales != [] {
      AtUniform(sales[..|sales| - 1], all, k);
    }
  }

  ghost predicate Fits(opening: Account, fills: seq<Trade>, before: string) {
    && Fresh(opening) && OneEpisode(opening) && Named(fills)
    && (opening.queue != [] ==> opening.episode == Some(before))
  }

  ghost predicate Totals(sold: seq<Sold>, proceeds: real, charges: real, shares: seq<Share>) {
    Sum(SoldProceeds, sold) == proceeds && Sum(SaleCharge, sold) == charges && UnnamedAll(SharesOf(sold)) == shares
  }

  /** The sales under a key, seen from the fills: proceeds, charges and the shares taken. */
  ghost predicate Agrees(opening: Account, fills: seq<Trade>, before: string, k: ExitKey, all: seq<Share>)
    requires Taken(|opening.queue|, fills) <= |all|
  {
    var o := |opening.queue|;
    Totals(
      At(AfterFills(opening, fills).sold, k), ProceedsUnder(o, before, fills, k), SaleChargesUnder(o, before, fills, k),
      SharesUnder(o, before, fills, k, all))
  }

  lemma {:induction false} SalesAgree(opening: Account, fills: seq<Trade>, before: string, k: ExitKey, all: seq<Share>)
    requires Fits(opening, fills, before) && Acquired(opening, fills) <= all
    ensures Taken(|opening.queue|, fills) <= |all| && Agrees(opening, fills, before, k, all)
  {
    EnoughAcquired(opening, fills);
    if fills == [] {
      assert Totals([], 0.0, 0.0, []);
    } else {
      var front, t := fills[..|fills| - 1], fills[|fills| - 1];
      AcquiredGrows(opening, fills, |front|);
      SalesAgree(opening, front, before, k, all);
      if t.side == Sell {
        SplitLast(fills);
        SaleAgrees(opening, front, t, before, k, all);
      } else {
        BuyAgrees(opening, fills, before, k, all);
      }
    }
  }

  lemma {:induction false} BuyAgrees(opening: Account, fills: seq<Trade>, before: string, k: ExitKey, all: seq<Share>)
    requires fills != [] && fills[|fills| - 1].side == Buy
    requires Taken(|opening.queue|, fills) <= |all| && Taken(|opening.queue|, fills[..|fills| - 1]) <= |all|
    requires Agrees(opening, fills[..|fills| - 1], before, k, all)
    ensures Agrees(opening, fills, before, k, all)
  {
    var o, front := |opening.queue|, fills[..|fills| - 1];
    assert !SellsUnder(o, before, fills, k);
    assert AfterFills(opening, fills).sold == AfterFills(opening, front).sold;
    assert SharesUnder(o, before, fills, k, all) == SharesUnder(o, before, front, k, all);
  }

  lemma {:induction false} EnoughAcquired(opening: Account, fills: seq<Trade>)
    requires Fresh(opening)
    ensures Taken(|opening.queue|, fills) + Held(|opening.queue|, fills) == |Acquired(opening, fills)|
  {
    HeldIsQueue(opening, fills);
    FirstInFirstOut(opening, fills);
  }

  /** After the shares sold, the next ones of all are those at the front of the queue. */
  lemma {:induction false} FrontOfQueue(sold: seq<Share>, queue: seq<Share>, n: nat, all: seq<Share>)
    requires UnnamedAll(sold + queue) <= all && n <= |queue|
    ensures |sold| + n <= |all| && UnnamedAll(queue[..n]) == all[|sold|..|sold| + n]
  {
    var had := UnnamedAll(sold + queue);
    assert had == all[..|had|];
    forall i | 0 <= i < n ensures UnnamedAll(queue[..n])[i] == all[|sold| + i] {
      assert had[|sold| + i] == Unnamed(queue[i]);
    }
  }

  /** The next shares of all those acquired are the ones at the front of the queue. */
  lemma {:induction false} NextShares(opening: Account, fills: seq<Trade>, n: nat, all: seq<Share>)
    requires Fresh(opening) && Acquired(opening, fills) <= all && n <= |AfterFills(opening, fills).queue|
    ensures
      var first := Taken(|opening.queue|, fills);
      && first + n <= |all|
      && UnnamedAll(AfterFills(opening, fills).queue[..n]) == all[first..first + n]
  {
    var a := AfterFills(opening, fills);
    FirstInFirstOut(opening, fills);
    HeldIsQueue(opening, fills);
    FrontOfQueue(SharesOf(a.sold), a.queue, n, all);
  }

  lemma {:induction false} SaleTotals(sold: seq<Sold>, shares: seq<Share>, t: Trade, rate: real, proceeds: real,
      charges: real, had: seq<Share>)
    requires Totals(sold, proceeds, charges, had) && rate == ChargeRate(t)
    ensures Totals(
      sold + SellShares(shares, t), proceeds + Scaled(|shares|, t.price), charges + Scaled(|shares|, rate),
      had + UnnamedAll(shares))
  {
    var sales := SellShares(shares, t);
    SaleProceedsAppend(sold, sales, t.price);
    SoldCostsAppend(sold, sales, rate);
    assert SharesOf(sold + sales) == SharesOf(sold) + shares;
    UnnamedAppend(SharesOf(sold), shares);
  }

  /** One more fill, in the terms of the fills. */
  lemma {:induction false} UnderSnoc(o: nat, before: string, front: seq<Trade>, t: Trade, k: ExitKey, all: seq<Share>,
      n: nat, first: nat, rate: real)
    requires t.side == Sell && n == Min(t.quantity, Held(o, front)) && first == Taken(o, front) && first + n <= |all|
    requires rate == t.charges / t.quantity as real
    ensures
      var fills := front + [t];
      var c := DateOf(t.time) == k.day && HoldingName(o, before, front) == k.episode;
      && Taken(o, fills) == first + n
      && ProceedsUnder(o, before, fills, k) ==
        ProceedsUnder(o, before, front, k) + (if c then Scaled(n, t.price) else 0.0)
      && SaleChargesUnder(o, before, fills, k) ==
        SaleChargesUnder(o, before, front, k) + (if c then Scaled(n, rate) else 0.0)
      && SharesUnder(o, before, fills, k, all) ==
        SharesUnder(o, before, front, k, all) + if c then all[first..first + n] else []
  {
    var fills := front + [t];
    assert fills[..|fills| - 1] == front && fills[|fills| - 1] == t;
  }

  lemma {:induction false} NamedFront(front: seq<Trade>, t: Trade)
    requires Named(front + [t])
    ensures Named(front)
  {
    assert forall i :: 0 <= i < |front| ==> front[i] == (front + [t])[i];
  }

  lemma {:induction false} AgreesNow(opening: Account, fills: seq<Trade>, before: string, k: ExitKey, all: seq<Share>,
      sold: seq<Sold>, proceeds: real, charges: real, shares: seq<Share>)
    requires Taken(|opening.queue|, fills) <= |all| && Totals(sold, proceeds, charges, shares)
    requires At(AfterFills(opening, fills).sold, k) == sold
    requires ProceedsUnder(|opening.queue|, before, fills, k) == proceeds
    requires SaleChargesUnder(|opening.queue|, before, fills, k) == charges
    requires SharesUnder(|opening.queue|, before, fills, k, all) == shares
    ensures Agrees(opening, fills, before, k, all)
  {}

  /** The next sale in the account: the shares it takes, and the sales then under the key. */
  lemma {:induction false} NextSale(opening: Account, front: seq<Trade>, t: Trade, before: string, k: ExitKey,
      all: seq<Share>, c: bool)
    returns (shares: seq<Share>)
    requires Fits(opening, front + [t], before) && t.side == Sell && Acquired(opening, front) <= all
    requires c == (DateOf(t.time) == k.day && HoldingName(|opening.queue|, before, front) == k.episode)
    ensures |shares| == Min(t.quantity, Held(|opening.queue|, front))
    ensures Taken(|opening.queue|, front) + |shares| <= |all|
    ensures UnnamedAll(shares) == all[Taken(|opening.queue|, front)..Taken(|opening.queue|, front) + |shares|]
    ensures At(AfterFills(opening, front + [t]).sold, k) ==
      At(AfterFills(opening, front).sold, k) + if c then SellShares(shares, t) else []
  {
    var a := AfterFills(opening, front);
    shares := a.queue[..Min(t.quantity, |a.queue|)];
    NamedFront(front, t);
    EpisodeInvariant(opening, front);
    NameIsEpisode(opening, front, before);
    HeldIsQueue(opening, front);
    NextShares(opening, front, |shares|, all);
    SoldUnder(a, t, HoldingName(|opening.queue|, before, front), k);
    AfterFillsSnoc(opening, front, t);
  }

  ghost predicate SaleCounts(o: nat, before: string, front: seq<Trade>, t: Trade, k: ExitKey) {
    DateOf(t.time) == k.day && HoldingName(o, before, front) == k.episode
  }

  lemma {:induction false} SaleUnder(opening: Account, front: seq<Trade>, t: Trade, before: string, k: ExitKey,
      all: seq<Share>)
    requires Fits(opening, front + [t], before) && t.side == Sell
    requires Acquired(opening, front) <= all && Taken(|opening.queue|, front) <= |all|
    requires Agrees(opening, front, before, k, all) && SaleCounts(|opening.queue|, before, front, t, k)
    ensures Taken(|opening.queue|, front + [t]) <= |all| && Agrees(opening, front + [t], before, k, all)
  {
    var o, rate, first := |opening.queue|, ChargeRate(t), Taken(|opening.queue|, front);
    var shares := NextSale(opening, front, t, before, k, all, true);
    UnderSnoc(o, before, front, t, k, all, |shares|, first, rate);
    var sold, had := At(AfterFills(opening, front).sold, k), SharesUnder(o, before, front, k, all);
    var proceeds, charges := ProceedsUnder(o, before, front, k), SaleChargesUnder(o, before, front, k);
    SaleTotals(sold, shares, t, rate, proceeds, charges, had);
    AgreesNow(
      opening, front + [t], before, k, all, sold + SellShares(shares, t), proceeds + Scaled(|shares|, t.price),
      charges + Scaled(|shares|, rate), had + UnnamedAll(shares));
  }

  lemma {:induction false} SaleElsewhere(opening: Account, front: seq<Trade>, t: Trade, before: string, k: ExitKey,
      all: seq<Share>)
    requires Fits(opening, front + [t], before) && t.side == Sell
    requires Acquired(opening, front) <= all && Taken(|opening.queue|, front) <= |all|
    requires Agrees(opening, front, before, k, all) && !SaleCounts(|opening.queue|, before, front, t, k)
    ensures Taken(|opening.queue|, front + [t]) <= |all| && Agrees(opening, front + [t], before, k, all)
  {
    var o, first := |opening.queue|, Taken(|opening.queue|, front);
    var shares := NextSale(opening, front, t, before, k, all, false);
    UnderSnoc(o, before, front, t, k, all, |shares|, first, ChargeRate(t));
    var sold, had := At(AfterFills(opening, front).sold, k), SharesUnder(o, before, front, k, all);
    var proceeds, charges := ProceedsUnder(o, before, front, k), SaleChargesUnder(o, before, front, k);
    assert sold + [] == sold && had + [] == had;
    AgreesNow(opening, front + [t], before, k, all, sold, proceeds, charges, had);
  }

  lemma {:induction false} SaleAgrees(opening: Account, front: seq<Trade>, t: Trade, before: string, k: ExitKey,
      all: seq<Share>)
    requires Fits(opening, front + [t], before) && t.side == Sell
    requires Acquired(opening, front) <= all && Taken(|opening.queue|, front) <= |all|
    requires Agrees(opening, front, before, k, all)
    ensures Taken(|opening.queue|, front + [t]) <= |all| && Agrees(opening, front + [t], before, k, all)
  {
    if SaleCounts(|opening.queue|, before, front, t, k) {
      SaleUnder(opening, front, t, before, k, all);
    } else {
      SaleElsewhere(opening, front, t, before, k, all);
    }
  }
}

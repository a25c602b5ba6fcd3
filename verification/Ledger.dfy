/**
 * The reference account behind src/swingdash/domain/broker.py: every share is tracked on its own.
 * Buying appends shares to a queue, selling drops shares from its front and logs each one with the
 * sale that took it. The deque of lots and the exits dictionary of the code are proved against it
 * in module Broker.
 */
module Ledger {
  import opened Wrappers
  import opened Dates
  import opened Sums

  // --- the broker's records ---------------------------------------------------

  datatype Side = Buy | Sell

  datatype Funding = Normal | Mtf | Intraday

  datatype Trade = Trade(
    tradeId: string,
    symbol: string,
    isin: Option<string>,
    side: Side,
    product: string,
    quantity: pos,
    price: real,
    time: Moment,
    charges: real)

  /** What the broker lists at the start of a day. */
  datatype Holding = Holding(
    symbol: string,
    isin: Option<string>,
    quantity: int,
    avgCost: real,
    mtfQuantity: int)

  function DayOf(t: Trade): Day {
    DateOf(t.time)
  }

  function Signed(t: Trade): int {
    var shares: int := t.quantity;
    if t.side == Buy then shares else -shares
  }

  // --- single shares ----------------------------------------------------------

  datatype Share = Share(price: real, day: Day, charge: real, episode: string)

  /** A share that left the queue, with the sale that took it. */
  datatype Sold = Sold(share: Share, day: Day, price: real, charge: real)

  datatype Account = Account(
    queue: seq<Share>,
    sold: seq<Sold>,
    unmatched: seq<pos>,
    episode: Option<string>)

  /** A fill's charges, share by share. */
  function ChargeRate(t: Trade): real {
    t.charges / t.quantity as real
  }

  function BuyShare(t: Trade, episode: string): Share {
    Share(t.price, DayOf(t), ChargeRate(t), episode)
  }

  function SaleOfShare(share: Share, t: Trade): Sold {
    Sold(share, DayOf(t), t.price, ChargeRate(t))
  }

  function SellShares(shares: seq<Share>, t: Trade): (r: seq<Sold>)
    ensures |r| == |shares|
    ensures forall i :: 0 <= i < |r| ==> r[i] == SaleOfShare(shares[i], t)
  {
    seq(|shares|, i requires 0 <= i < |shares| => SaleOfShare(shares[i], t))
  }

  /** The holding a buy joins. */
  function Joins(episode: Option<string>, t: Trade): string {
    if episode.Some? && episode.value != "" then episode.value else t.tradeId
  }

  /** The first trade of a holding names it; later buys join the holding it started. */
  function AfterBuy(a: Account, t: Trade): Account {
    var current := if a.queue == [] then Some(t.tradeId) else a.episode;
    Account(a.queue + Repeat(BuyShare(t, Joins(current, t)), t.quantity), a.sold, a.unmatched, current)
  }

  function AfterSell(a: Account, t: Trade): Account {
    var n := Min(t.quantity, |a.queue|);
    Account(
      a.queue[n..],
      a.sold + SellShares(a.queue[..n], t),
      if n < t.quantity then a.unmatched + [t.quantity - n] else a.unmatched,
      if n == |a.queue| then None else a.episode)
  }

  function AfterFill(a: Account, t: Trade): Account {
    if t.side == Buy then AfterBuy(a, t) else AfterSell(a, t)
  }

  function AfterFills(opening: Account, fills: seq<Trade>): Account {
    if fills == [] then opening
    else AfterFill(AfterFills(opening, fills[..|fills| - 1]), fills[|fills| - 1])
  }

  lemma AfterFillsSnoc(opening: Account, fills: seq<Trade>, t: Trade)
    ensures AfterFills(opening, fills + [t]) == AfterFill(AfterFills(opening, fills), t)
  {
    assert (fills + [t])[..|fills + [t]| - 1] == fills;
  }

  lemma {:induction false} AfterFillsAppend(opening: Account, fills: seq<Trade>, more: seq<Trade>)
    ensures AfterFills(opening, fills + more) == AfterFills(AfterFills(opening, fills), more)
  {
    if more == [] {
      assert fills + more == fills;
    } else {
      var front, last := more[..|more| - 1], more[|more| - 1];
      AfterFillsAppend(opening, fills, front);
      assert fills + more == (fills + front) + [last];
      AfterFillsSnoc(opening, fills + front, last);
    }
  }

  // --- exits: the sales of one day out of one holding -----------------------

  datatype ExitKey = ExitKey(day: Day, episode: string)

  datatype Exit = Exit(
    quantity: nat,
    cost: real,
    proceeds: real,
    charges: real,
    openedOn: Option<Day>,
    episode: string)

  function KeyOf(s: Sold): ExitKey {
    ExitKey(s.day, s.share.episode)
  }

  function Keys(sold: seq<Sold>): set<ExitKey> {
    if sold == [] then {} else Keys(sold[..|sold| - 1]) + {KeyOf(sold[|sold| - 1])}
  }

  lemma {:induction false} KeysMembers(sold: seq<Sold>)
    ensures forall k :: k in Keys(sold) <==> exists i :: 0 <= i < |sold| && KeyOf(sold[i]) == k
  {
    if sold != [] {
      var front, last := sold[..|sold| - 1], sold[|sold| - 1];
      KeysMembers(front);
      forall k ensures k in Keys(sold) <==> exists i :: 0 <= i < |sold| && KeyOf(sold[i]) == k {
        if k in Keys(front) {
          var i :| 0 <= i < |front| && KeyOf(front[i]) == k;
          assert KeyOf(sold[i]) == k;
        }
        if i :| 0 <= i < |sold| && KeyOf(sold[i]) == k {
          assert i < |front| ==> KeyOf(front[i]) == k;
        }
        assert KeyOf(sold[|sold| - 1]) == KeyOf(last);
      }
    }
  }

  /** The sales under one key, in order. */
  function At(sold: seq<Sold>, k: ExitKey): seq<Sold> {
    if sold == [] then []
    else
      var front := At(sold[..|sold| - 1], k);
      if KeyOf(sold[|sold| - 1]) == k then front + [sold[|sold| - 1]] else front
  }

  function SoldCost(s: Sold): real { s.share.price }

  function SoldProceeds(s: Sold): real { s.price }

  function SoldCharges(s: Sold): real { s.share.charge + s.charge }

  function EarliestDay(items: seq<Sold>): Option<Day> {
    if items == [] then None
    else
      var before := EarliestDay(items[..|items| - 1]);
      var day := items[|items| - 1].share.day;
      if before.None? then Some(day) else Some(Min(before.value, day))
  }

  function ExitOf(items: seq<Sold>, episode: string): Exit {
    Exit(|items|, Sum(SoldCost, items), Sum(SoldProceeds, items), Sum(SoldCharges, items),
         EarliestDay(items), episode)
  }

  ghost function Exits(sold: seq<Sold>): map<ExitKey, Exit> {
    map k | k in Keys(sold) :: ExitOf(At(sold, k), k.episode)
  }

  // --- opening balance ----------------------------------------------------------

  function Net(fills: seq<Trade>): int {
    Count(Signed, fills)
  }

  function SignedBefore(day: Day): Trade -> int {
    (t: Trade) => if DayOf(t) < day then Signed(t) else 0
  }

  function SignedFrom(day: Day): Trade -> int {
    (t: Trade) => if DayOf(t) >= day then Signed(t) else 0
  }

  /** Shares bought and not sold before `day`. */
  function NetBefore(fills: seq<Trade>, day: Day): int {
    Count(SignedBefore(day), fills)
  }

  function NetFrom(fills: seq<Trade>, day: Day): int {
    Count(SignedFrom(day), fills)
  }

  function BeforeEpisode(historyFrom: Day): string {
    "before-" + Iso(historyFrom)
  }

  const EMPTY := Account([], [], [], None)

  /** Shares the holding shows beyond the fetched trades, held since before them. */
  function Opening(older: int, holding: Option<Holding>, historyFrom: Day): Account {
    if older > 0 && holding.Some? then
      var episode := BeforeEpisode(historyFrom);
      Account(Repeat(Share(holding.value.avgCost, historyFrom, 0.0, episode), older), [], [], Some(episode))
    else
      EMPTY
  }
}

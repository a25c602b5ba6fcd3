/**
 * What `reconcile` in src/swingdash/domain/broker.py means: one share-by-share account per stock and
 * funding, turned into closed rows (one per sell day and holding), at most one open row, and the
 * mismatches the trades cannot explain.
 */
module Reconciliation {
  import opened Wrappers
  import opened Dates
  import opened Ordering
  import opened Sums
  import opened Ledger

  const INTRADAY_NOTE := "intraday - exited the same day"

  // --- which book a fill belongs to ---------------------------------------------

  function UpperChar(c: char): char {
    if 'a' <= c <= 'z' then (c as int - 32) as char else c
  }

  function Upper(s: string): string {
    seq(|s|, i requires 0 <= i < |s| => UpperChar(s[i]))
  }

  function FundingOf(product: string): Option<Funding> {
    var p := Upper(product);
    if p == "CNC" then Some(Normal)
    else if p == "MTF" then Some(Mtf)
    else if p == "INTRADAY" || p == "" then Some(Intraday)
    else None
  }

  function FundingName(f: Funding): (name: string)
    ensures ':' !in name
  {
    match f
    case Normal => "normal"
    case Mtf => "mtf"
    case Intraday => "intraday"
  }

  datatype BookKey = BookKey(symbol: string, funding: Funding)

  predicate BookKeyLe(a: BookKey, b: BookKey) {
    (a.symbol != b.symbol && StringLe(a.symbol, b.symbol))
    || (a.symbol == b.symbol && StringLe(FundingName(a.funding), FundingName(b.funding)))
  }

  predicate ExitKeyLe(a: ExitKey, b: ExitKey) {
    a.day < b.day || (a.day == b.day && StringLe(a.episode, b.episode))
  }

  predicate FillLe(a: Trade, b: Trade) {
    a.time < b.time || (a.time == b.time && StringLe(a.tradeId, b.tradeId))
  }

  lemma BookKeyOrder()
    ensures TotalOrder(BookKeyLe)
  {
    forall a: BookKey, b: BookKey
      ensures BookKeyLe(a, b) || BookKeyLe(b, a)
      ensures BookKeyLe(a, b) && BookKeyLe(b, a) ==> a == b
    {
      StringLeTotal(a.symbol, b.symbol);
      StringLeTotal(FundingName(a.funding), FundingName(b.funding));
      if BookKeyLe(a, b) && BookKeyLe(b, a) {
        if a.symbol != b.symbol {
          StringLeAntisymmetric(a.symbol, b.symbol);
        } else {
          StringLeAntisymmetric(FundingName(a.funding), FundingName(b.funding));
        }
      }
    }
    forall a: BookKey, b: BookKey, c: BookKey | BookKeyLe(a, b) && BookKeyLe(b, c)
      ensures BookKeyLe(a, c)
    {
      if a.symbol == c.symbol && a.symbol != b.symbol {
        StringLeAntisymmetric(a.symbol, b.symbol);
      } else if a.symbol == b.symbol == c.symbol {
        StringLeTransitive(FundingName(a.funding), FundingName(b.funding), FundingName(c.funding));
      } else if a.symbol != b.symbol && b.symbol != c.symbol {
        StringLeTransitive(a.symbol, b.symbol, c.symbol);
      }
    }
  }

  lemma ExitKeyOrder()
    ensures TotalOrder(ExitKeyLe)
  {
    forall a: ExitKey, b: ExitKey
      ensures ExitKeyLe(a, b) || ExitKeyLe(b, a)
      ensures ExitKeyLe(a, b) && ExitKeyLe(b, a) ==> a == b
    {
      StringLeTotal(a.episode, b.episode);
      if ExitKeyLe(a, b) && ExitKeyLe(b, a) {
        StringLeAntisymmetric(a.episode, b.episode);
      }
    }
    forall a: ExitKey, b: ExitKey, c: ExitKey | ExitKeyLe(a, b) && ExitKeyLe(b, c)
      ensures ExitKeyLe(a, c)
    {
      if a.day == b.day == c.day {
        StringLeTransitive(a.episode, b.episode, c.episode);
      }
    }
  }

  function FillsOf(trades: seq<Trade>, key: BookKey): seq<Trade> {
    if trades == [] then []
    else
      var front, t := FillsOf(trades[..|trades| - 1], key), trades[|trades| - 1];
      if t.symbol == key.symbol && FundingOf(t.product) == Some(key.funding) then front + [t] else front
  }

  /** The book's fills in the order they are matched: by time, then trade id. */
  function BookFills(trades: seq<Trade>, key: BookKey): seq<Trade> {
    SortBy(FillLe, FillsOf(trades, key))
  }

  function HeldUnder(h: Holding, funding: Funding): int {
    match funding
    case Normal => h.quantity
    case Mtf => h.mtfQuantity
    case Intraday => 0
  }

  /** The last holding that names the stock with a positive quantity under this funding. */
  function HoldingOf(holdings: seq<Holding>, key: BookKey): (r: Option<Holding>)
    ensures r.Some? ==> HeldUnder(r.value, key.funding) > 0 && r.value.symbol == key.symbol
  {
    if holdings == [] then None
    else
      var h := holdings[|holdings| - 1];
      if h.symbol == key.symbol && HeldUnder(h, key.funding) > 0 then Some(h)
      else HoldingOf(holdings[..|holdings| - 1], key)
  }

  function HeldQuantity(holding: Option<Holding>, funding: Funding): int {
    if holding.Some? then HeldUnder(holding.value, funding) else 0
  }

  ghost function TradedKeys(trades: seq<Trade>): set<BookKey> {
    set i | 0 <= i < |trades| && FundingOf(trades[i].product).Some? ::
      BookKey(trades[i].symbol, FundingOf(trades[i].product).value)
  }

  ghost function HeldKeys(holdings: seq<Holding>): set<BookKey> {
    (set i | 0 <= i < |holdings| && holdings[i].quantity > 0 :: BookKey(holdings[i].symbol, Normal))
    + (set i | 0 <= i < |holdings| && holdings[i].mtfQuantity > 0 :: BookKey(holdings[i].symbol, Mtf))
  }

  /** What `reconcile` is given. */
  datatype Inputs = Inputs(trades: seq<Trade>, holdings: seq<Holding>, historyFrom: Day, today: Day) {

    ghost function BookKeys(): set<BookKey> {
      TradedKeys(trades) + HeldKeys(holdings)
    }

    function Older(key: BookKey): int {
      HeldQuantity(HoldingOf(holdings, key), key.funding) - NetBefore(BookFills(trades, key), today)
    }

    function OpeningOf(key: BookKey): Account {
      Opening(Older(key), HoldingOf(holdings, key), historyFrom)
    }

    function AccountOf(key: BookKey): Account {
      AfterFills(OpeningOf(key), BookFills(trades, key))
    }

    /** What the broker should show: the holding plus today's fills. */
    function Expected(key: BookKey): int {
      HeldQuantity(HoldingOf(holdings, key), key.funding) + NetFrom(BookFills(trades, key), today)
    }
  }

  // --- rows ------------------------------------------------------------------------

  datatype ImportedPosition = ImportedPosition(
    ref: string,
    symbol: string,
    funding: Funding,
    quantity: nat,
    entry: real,
    openedOn: Day,
    closedOn: Option<Day>,
    exitPrice: Option<real>,
    charges: real,
    note: string)

  datatype Mismatch =
    | SoldMore(symbol: string, shares: int)
    | IntradayLeft(symbol: string, shares: int)
    | Disagrees(symbol: string, open: int, expected: int)

  datatype Reconciled = Reconciled(positions: seq<ImportedPosition>, mismatches: seq<Mismatch>)

  function ClosedRef(key: BookKey, k: ExitKey): string {
    key.symbol + ":" + FundingName(key.funding) + ":closed:" + k.episode + ":" + Iso(k.day)
  }

  function OpenRef(key: BookKey, episode: string): string {
    key.symbol + ":" + FundingName(key.funding) + ":open:" + episode
  }

  function ClosedRow(key: BookKey, k: ExitKey, e: Exit): ImportedPosition
    requires e.quantity > 0 && e.openedOn.Some?
  {
    ImportedPosition(
      ClosedRef(key, ExitKey(k.day, e.episode)), key.symbol, key.funding, e.quantity,
      e.cost / e.quantity as real, e.openedOn.value, Some(k.day),
      Some(e.proceeds / e.quantity as real), e.charges,
      if key.funding == Intraday then INTRADAY_NOTE else "")
  }

  function HeldBeforeNote(historyFrom: Day): string {
    "held before " + DayMonthYear(historyFrom) + " (at the holding's average cost)"
  }

  function SharePrice(s: Share): real { s.price }

  function ShareCharge(s: Share): real { s.charge }

  function FirstDay(queue: seq<Share>): Day
    requires queue != []
  {
    if |queue| == 1 then queue[0].day
    else Min(FirstDay(queue[..|queue| - 1]), queue[|queue| - 1].day)
  }

  function OpenRow(key: BookKey, queue: seq<Share>, historyFrom: Day): ImportedPosition
    requires queue != []
  {
    ImportedPosition(
      OpenRef(key, queue[0].episode), key.symbol, key.funding, |queue|,
      Sum(SharePrice, queue) / |queue| as real, FirstDay(queue), None, None,
      Sum(ShareCharge, queue),
      if "before-" <= queue[0].episode then HeldBeforeNote(historyFrom) else "")
  }

  function RowsAt(key: BookKey, sold: seq<Sold>, ks: seq<ExitKey>): seq<ImportedPosition> {
    if ks == [] then []
    else
      var front, k := RowsAt(key, sold, ks[..|ks| - 1]), ks[|ks| - 1];
      var exit := ExitOf(At(sold, k), k.episode);
      if exit.quantity == 0 || exit.openedOn.None? then front else front + [ClosedRow(key, k, exit)]
  }

  ghost function ClosedRows(key: BookKey, sold: seq<Sold>): seq<ImportedPosition> {
    RowsAt(key, sold, SortedSet(ExitKeyLe, Keys(sold)))
  }

  /** Intraday leftovers are reported, never shown as a position. */
  function OpenRows(key: BookKey, queue: seq<Share>, historyFrom: Day): seq<ImportedPosition> {
    if key.funding != Intraday && queue != [] then [OpenRow(key, queue, historyFrom)] else []
  }

  ghost function BookRows(inputs: Inputs, key: BookKey): seq<ImportedPosition> {
    ClosedRows(key, inputs.AccountOf(key).sold) + OpenRows(key, inputs.AccountOf(key).queue, inputs.historyFrom)
  }

  function SoldMoreLines(key: BookKey, unmatched: seq<pos>): seq<Mismatch> {
    seq(|unmatched|, i requires 0 <= i < |unmatched| => SoldMore(key.symbol, unmatched[i]))
  }

  function LeftoverLines(key: BookKey, open: nat, expected: int, notHeld: bool): seq<Mismatch> {
    if key.funding == Intraday then
      if open != 0 then [IntradayLeft(key.symbol, open)] else []
    else if open != expected && !(notHeld && open == 0) then
      [Disagrees(key.symbol, open, expected)]
    else []
  }

  function BookMismatches(inputs: Inputs, key: BookKey): seq<Mismatch> {
    SoldMoreLines(key, inputs.AccountOf(key).unmatched)
    + LeftoverLines(key, |inputs.AccountOf(key).queue|, inputs.Expected(key), HoldingOf(inputs.holdings, key).None?)
  }

  ghost function RowsOver(inputs: Inputs, keys: seq<BookKey>): seq<ImportedPosition> {
    if keys == [] then []
    else RowsOver(inputs, keys[..|keys| - 1]) + BookRows(inputs, keys[|keys| - 1])
  }

  function MismatchesOver(inputs: Inputs, keys: seq<BookKey>): seq<Mismatch> {
    if keys == [] then []
    else MismatchesOver(inputs, keys[..|keys| - 1]) + BookMismatches(inputs, keys[|keys| - 1])
  }

  ghost function Positions(inputs: Inputs): seq<ImportedPosition> {
    RowsOver(inputs, SortedSet(BookKeyLe, inputs.BookKeys()))
  }

  ghost function Mismatches(inputs: Inputs): seq<Mismatch> {
    MismatchesOver(inputs, SortedSet(BookKeyLe, inputs.BookKeys()))
  }
}

/** Refs identify rows: one name per holding at every step, and no two rows of a reconciliation share a ref. */
module BrokerRefs {
  import opened Wrappers
  import opened Dates
  import opened Ordering
  import opened Sums
  import opened Ledger
  import opened Reconciliation
  import opened Broker

  // --- one episode per holding ----------------------------------------------------------

  /** The deque is empty exactly when no holding is named, and every share carries the one name. */
  ghost predicate OneEpisode(a: Account) {
    && (a.queue == [] <==> a.episode.None?)
    && (a.episode.Some? ==> a.episode.value != "")
    && forall i :: 0 <= i < |a.queue| ==> a.episode == Some(a.queue[i].episode)
  }

  ghost predicate Named(fills: seq<Trade>) {
    forall i :: 0 <= i < |fills| ==> fills[i].tradeId != ""
  }

  lemma OpeningHasOneEpisode(older: int, holding: Option<Holding>, historyFrom: Day)
    ensures OneEpisode(Opening(older, holding, historyFrom))
  {
    assert BeforeEpisode(historyFrom)[0] == 'b';
  }

  lemma {:induction false} EpisodeInvariant(opening: Account, fills: seq<Trade>)
    requires OneEpisode(opening) && Named(fills)
    ensures OneEpisode(AfterFills(opening, fills))
  {
    if fills != [] {
      var front, t := fills[..|fills| - 1], fills[|fills| - 1];
      EpisodeInvariant(opening, front);
      var before, after := AfterFills(opening, front), AfterFills(opening, fills);
      if t.side == Sell {
        assert forall i :: 0 <= i < |after.queue| ==>
          after.queue[i] == before.queue[Min(t.quantity, |before.queue|) + i];
      }
    }
  }

  // --- refs as text -----------------------------------------------------------------------

  ghost predicate ColonFree(s: string) {
    ':' !in s
  }

  lemma FirstColon(a: string, r: string)
    requires ColonFree(a)
    ensures var x := a + ":" + r; x[|a|] == ':' && forall i :: 0 <= i < |a| ==> x[i] != ':'
  {
    var x := a + ":" + r;
    forall i | 0 <= i < |a| ensures x[i] != ':' {
      assert x[i] == a[i] && a[i] in a;
    }
  }

  lemma SplitAtColon(a: string, r: string, b: string, s: string)
    requires ColonFree(a) && ColonFree(b)
    requires a + ":" + r == b + ":" + s
    ensures a == b && r == s
  {
    FirstColon(a, r);
    FirstColon(b, s);
    assert |a| == |b|;
    SplitAtLength(a + ":", r, b + ":", s);
    SplitAtLength(a, ":", b, ":");
  }

  lemma SplitAtLength(a: string, r: string, b: string, s: string)
    requires |r| == |s| && a + r == b + s
    ensures a == b && r == s
  {
    var x, y := a + r, b + s;
    assert x[..|a|] == a && y[..|b|] == b;
    assert x[|a|..] == r && y[|b|..] == s;
  }

  lemma FundingNamesDiffer(f: Funding, g: Funding)
    requires FundingName(f) == FundingName(g)
    ensures f == g
  {
    assert FundingName(f)[0] == FundingName(g)[0];
  }

  function ClosedTail(k: ExitKey): string {
    "closed:" + k.episode + ":" + Iso(k.day)
  }

  function OpenTail(episode: string): string {
    "open:" + episode
  }

  lemma Regroup(a: string, b: string, tag: string, rest: string)
    ensures a + ":" + b + (":" + tag) + rest == a + ":" + (b + ":" + (tag + rest))
  {}

  lemma RegroupClosed(a: string, b: string, episode: string, day: string)
    ensures a + ":" + b + ":closed:" + episode + ":" + day == a + ":" + (b + ":" + ("closed:" + episode + ":" + day))
  {
    var rest := episode + ":" + day;
    assert a + ":" + b + ":closed:" + episode + ":" + day == a + ":" + b + ":closed:" + rest;
    assert ":closed:" == ":" + "closed:";
    Regroup(a, b, "closed:", rest);
    assert "closed:" + rest == "closed:" + episode + ":" + day;
  }

  lemma ClosedRefParts(key: BookKey, k: ExitKey)
    ensures ClosedRef(key, k) == key.symbol + ":" + (FundingName(key.funding) + ":" + ClosedTail(k))
  {
    RegroupClosed(key.symbol, FundingName(key.funding), k.episode, Iso(k.day));
  }

  lemma OpenRefParts(key: BookKey, episode: string)
    ensures OpenRef(key, episode) == key.symbol + ":" + (FundingName(key.funding) + ":" + OpenTail(episode))
  {
    assert ":open:" == ":" + "open:";
    Regroup(key.symbol, FundingName(key.funding), "open:", episode);
  }

  lemma SplitRef(a: BookKey, r: string, b: BookKey, s: string)
    requires ColonFree(a.symbol) && ColonFree(b.symbol)
    requires a.symbol + ":" + (FundingName(a.funding) + ":" + r) == b.symbol + ":" + (FundingName(b.funding) + ":" + s)
    ensures a == b && r == s
  {
    SplitAtColon(a.symbol, FundingName(a.funding) + ":" + r, b.symbol, FundingName(b.funding) + ":" + s);
    SplitAtColon(FundingName(a.funding), r, FundingName(b.funding), s);
    FundingNamesDiffer(a.funding, b.funding);
  }

  lemma ClosedTailInjective(k: ExitKey, l: ExitKey)
    requires ClosedTail(k) == ClosedTail(l)
    ensures k == l
  {
    SplitAtLength("closed:" + k.episode + ":", Iso(k.day), "closed:" + l.episode + ":", Iso(l.day));
    SplitAtLength("closed:" + k.episode, ":", "closed:" + l.episode, ":");
    assert ("closed:" + k.episode)[7..] == k.episode && ("closed:" + l.episode)[7..] == l.episode;
    IsoInjective(k.day, l.day);
  }

  /** A closed ref names its book, holding and day, even though trade ids hold colons themselves. */
  lemma ClosedRefInjective(a: BookKey, k: ExitKey, b: BookKey, l: ExitKey)
    requires ColonFree(a.symbol) && ColonFree(b.symbol)
    requires ClosedRef(a, k) == ClosedRef(b, l)
    ensures a == b && k == l
  {
    ClosedRefParts(a, k);
    ClosedRefParts(b, l);
    SplitRef(a, ClosedTail(k), b, ClosedTail(l));
    ClosedTailInjective(k, l);
  }

  lemma OpenRefInjective(a: BookKey, e: string, b: BookKey, f: string)
    requires ColonFree(a.symbol) && ColonFree(b.symbol)
    requires OpenRef(a, e) == OpenRef(b, f)
    ensures a == b && e == f
  {
    OpenRefParts(a, e);
    OpenRefParts(b, f);
    SplitRef(a, OpenTail(e), b, OpenTail(f));
    assert |OpenTail(e)| == 5 + |e| && |OpenTail(f)| == 5 + |f|;
    SplitAtLength("open:", e, "open:", f);
  }

  lemma ClosedRefIsNotOpen(a: BookKey, k: ExitKey, b: BookKey, e: string)
    requires ColonFree(a.symbol) && ColonFree(b.symbol)
    ensures ClosedRef(a, k) != OpenRef(b, e)
  {
    ClosedRefParts(a, k);
    OpenRefParts(b, e);
    assert ClosedTail(k)[0] == 'c' && OpenTail(e)[0] == 'o';
    if ClosedRef(a, k) == OpenRef(b, e) {
      SplitRef(a, ClosedTail(k), b, OpenTail(e));
      assert false;
    }
  }

  // --- rows ----------------------------------------------------------------------------------

  /** A row's ref is built from its own stock, funding and, when closed, day and holding. */
  ghost predicate WellNamed(p: ImportedPosition) {
    if p.closedOn.Some? then
      exists e: string :: p.ref == ClosedRef(BookKey(p.symbol, p.funding), ExitKey(p.closedOn.value, e))
    else
      exists e: string :: p.ref == OpenRef(BookKey(p.symbol, p.funding), e)
  }

  ghost predicate IsClosedRow(row: ImportedPosition, key: BookKey, sold: seq<Sold>, k: ExitKey) {
    var exit := ExitOf(At(sold, k), k.episode);
    exit.quantity > 0 && exit.openedOn.Some? && row == ClosedRow(key, k, exit)
  }

  lemma RowsAtSnoc(key: BookKey, sold: seq<Sold>, ks: seq<ExitKey>, k: ExitKey) returns (row: ImportedPosition)
    requires k in Keys(sold)
    ensures IsClosedRow(row, key, sold, k)
    ensures RowsAt(key, sold, ks + [k]) == RowsAt(key, sold, ks) + [row]
  {
    ExitsHaveSales(sold, k);
    row := ClosedRow(key, k, ExitOf(At(sold, k), k.episode));
    assert (ks + [k])[..|ks + [k]| - 1] == ks;
  }

  lemma {:induction false} RowsAtEach(key: BookKey, sold: seq<Sold>, ks: seq<ExitKey>)
    requires forall i :: 0 <= i < |ks| ==> ks[i] in Keys(sold)
    ensures |RowsAt(key, sold, ks)| == |ks|
    ensures forall i :: 0 <= i < |ks| ==> IsClosedRow(RowsAt(key, sold, ks)[i], key, sold, ks[i])
  {
    if ks != [] {
      var front, k := ks[..|ks| - 1], ks[|ks| - 1];
      RowsAtEach(key, sold, front);
      var row := RowsAtSnoc(key, sold, front, k);
      SplitLast(ks);
      var before := RowsAt(key, sold, front);
      forall i | 0 <= i < |ks| ensures IsClosedRow((before + [row])[i], key, sold, ks[i]) {
        assert i < |front| ==> ks[i] == front[i];
      }
    }
  }

  lemma ClosedKeys(sold: seq<Sold>)
    ensures var ks := SortedSet(ExitKeyLe, Keys(sold));
      && Distinct(ks) && (forall i :: 0 <= i < |ks| ==> ks[i] in Keys(sold))
      && (forall k :: k in Keys(sold) ==> k in ks)
  {
    ExitKeyOrder();
    SortedSetListing(ExitKeyLe, Keys(sold));
    var ks := SortedSet(ExitKeyLe, Keys(sold));
    forall i | 0 <= i < |ks| ensures ks[i] in Keys(sold) {
      assert ks[i] in ks;
    }
  }

  ghost predicate RefsDistinct(rows: seq<ImportedPosition>) {
    forall i, j :: 0 <= i < j < |rows| ==> rows[i].ref != rows[j].ref
  }

  ghost predicate OneOpenPerBook(rows: seq<ImportedPosition>) {
    forall i, j :: 0 <= i < j < |rows| && rows[i].closedOn.None? && rows[j].closedOn.None? ==>
      rows[i].symbol != rows[j].symbol || rows[i].funding != rows[j].funding
  }

  ghost predicate RowsOfBook(rows: seq<ImportedPosition>, key: BookKey) {
    forall i :: 0 <= i < |rows| ==>
      rows[i].symbol == key.symbol && rows[i].funding == key.funding && WellNamed(rows[i])
  }

  lemma ClosedRowsDistinct(key: BookKey, sold: seq<Sold>)
    requires ColonFree(key.symbol)
    ensures var rows := ClosedRows(key, sold);
      RefsDistinct(rows) && RowsOfBook(rows, key) && forall i :: 0 <= i < |rows| ==> rows[i].closedOn.Some?
  {
    ClosedKeys(sold);
    var ks := SortedSet(ExitKeyLe, Keys(sold));
    RowsAtEach(key, sold, ks);
    var rows := ClosedRows(key, sold);
    forall i, j | 0 <= i < j < |rows| ensures rows[i].ref != rows[j].ref {
      if rows[i].ref == rows[j].ref {
        ClosedRefInjective(key, ks[i], key, ks[j]);
        assert false;
      }
    }
    forall i | 0 <= i < |rows|
      ensures rows[i].symbol == key.symbol && rows[i].funding == key.funding && rows[i].closedOn.Some?
      ensures WellNamed(rows[i])
    {
      assert rows[i].ref ==
        ClosedRef(BookKey(rows[i].symbol, rows[i].funding), ExitKey(rows[i].closedOn.value, ks[i].episode));
    }
  }

  lemma DifferentRefs(p: ImportedPosition, q: ImportedPosition)
    requires WellNamed(p) && WellNamed(q) && ColonFree(p.symbol) && ColonFree(q.symbol)
    requires p.symbol != q.symbol || p.funding != q.funding || p.closedOn.Some? != q.closedOn.Some?
    ensures p.ref != q.ref
  {
    if p.ref == q.ref {
      var a, b := BookKey(p.symbol, p.funding), BookKey(q.symbol, q.funding);
      if p.closedOn.Some? {
        var e :| p.ref == ClosedRef(a, ExitKey(p.closedOn.value, e));
        if q.closedOn.Some? {
          var f :| q.ref == ClosedRef(b, ExitKey(q.closedOn.value, f));
          ClosedRefInjective(a, ExitKey(p.closedOn.value, e), b, ExitKey(q.closedOn.value, f));
        } else {
          var f :| q.ref == OpenRef(b, f);
          ClosedRefIsNotOpen(a, ExitKey(p.closedOn.value, e), b, f);
        }
      } else {
        var e :| p.ref == OpenRef(a, e);
        if q.closedOn.Some? {
          var f :| q.ref == ClosedRef(b, ExitKey(q.closedOn.value, f));
          ClosedRefIsNotOpen(b, ExitKey(q.closedOn.value, f), a, e);
        } else {
          var f :| q.ref == OpenRef(b, f);
          OpenRefInjective(a, e, b, f);
        }
      }
      assert false;
    }
  }

  lemma OpenRowNamed(key: BookKey, queue: seq<Share>, historyFrom: Day)
    requires queue != []
    ensures WellNamed(OpenRow(key, queue, historyFrom))
  {
    var row := OpenRow(key, queue, historyFrom);
    assert row.ref == OpenRef(BookKey(row.symbol, row.funding), queue[0].episode);
  }

  /** One open row more, after closed ones of the same book. */
  lemma OpenAfterClosed(key: BookKey, closed: seq<ImportedPosition>, open: ImportedPosition)
    requires ColonFree(key.symbol) && RefsDistinct(closed) && RowsOfBook(closed, key)
    requires forall i :: 0 <= i < |closed| ==> closed[i].closedOn.Some?
    requires open.symbol == key.symbol && open.funding == key.funding && open.closedOn.None? && WellNamed(open)
    ensures
      var rows := closed + [open];
      RefsDistinct(rows) && RowsOfBook(rows, key) && OneOpenPerBook(rows)
  {
    forall i | 0 <= i < |closed| ensures closed[i].ref != open.ref {
      DifferentRefs(closed[i], open);
    }
  }

  lemma BookRowsDistinct(inputs: Inputs, key: BookKey)
    requires ColonFree(key.symbol)
    ensures var rows := BookRows(inputs, key);
      RefsDistinct(rows) && RowsOfBook(rows, key) && OneOpenPerBook(rows)
  {
    var a := inputs.AccountOf(key);
    var closed, open := ClosedRows(key, a.sold), OpenRows(key, a.queue, inputs.historyFrom);
    BookRowsOf(inputs, key, a);
    ClosedRowsDistinct(key, a.sold);
    if open != [] {
      OpenRowNamed(key, a.queue, inputs.historyFrom);
      OpenAfterClosed(key, closed, open[0]);
    } else {
      assert closed + [] == closed;
    }
  }

  ghost predicate RowsOfBooks(rows: seq<ImportedPosition>, keys: seq<BookKey>) {
    forall i :: 0 <= i < |rows| ==> WellNamed(rows[i]) && BookKey(rows[i].symbol, rows[i].funding) in keys
  }

  lemma JoinBooks(before: seq<ImportedPosition>, keys: seq<BookKey>, mine: seq<ImportedPosition>, key: BookKey)
    requires RefsDistinct(before) && OneOpenPerBook(before) && RowsOfBooks(before, keys)
    requires RefsDistinct(mine) && OneOpenPerBook(mine) && RowsOfBook(mine, key)
    requires key !in keys && ColonFree(key.symbol) && forall i :: 0 <= i < |keys| ==> ColonFree(keys[i].symbol)
    ensures RefsDistinct(before + mine) && OneOpenPerBook(before + mine) && RowsOfBooks(before + mine, keys + [key])
  {
    forall i, j | 0 <= i < |before| && 0 <= j < |mine|
      ensures before[i].ref != mine[j].ref
      ensures before[i].symbol != mine[j].symbol || before[i].funding != mine[j].funding
    {
      var k := BookKey(before[i].symbol, before[i].funding);
      assert k in keys && k != key;
      DifferentRefs(before[i], mine[j]);
    }
    forall i | 0 <= i < |before + mine|
      ensures WellNamed((before + mine)[i])
      ensures BookKey((before + mine)[i].symbol, (before + mine)[i].funding) in keys + [key]
    {
      if i >= |before| {
        assert BookKey(mine[i - |before|].symbol, mine[i - |before|].funding) == key;
        assert (keys + [key])[|keys|] == key;
      }
    }
  }

  /** The rows of several books, all told apart. */
  ghost predicate Separate(rows: seq<ImportedPosition>, keys: seq<BookKey>) {
    RefsDistinct(rows) && OneOpenPerBook(rows) && RowsOfBooks(rows, keys)
  }

  lemma JoinNextBook(inputs: Inputs, front: seq<BookKey>, key: BookKey)
    requires Separate(RowsOver(inputs, front), front)
    requires key !in front && ColonFree(key.symbol) && forall i :: 0 <= i < |front| ==> ColonFree(front[i].symbol)
    ensures Separate(RowsOver(inputs, front + [key]), front + [key])
  {
    BookRowsDistinct(inputs, key);
    OverSnoc(inputs, front, key);
    JoinBooks(RowsOver(inputs, front), front, BookRows(inputs, key), key);
  }

  lemma {:induction false} RowsOverDistinct(inputs: Inputs, keys: seq<BookKey>)
    requires Distinct(keys) && forall i :: 0 <= i < |keys| ==> ColonFree(keys[i].symbol)
    ensures Separate(RowsOver(inputs, keys), keys)
  {
    if keys != [] {
      var front, key := keys[..|keys| - 1], keys[|keys| - 1];
      SplitLast(keys);
      assert key !in front;
      RowsOverDistinct(inputs, front);
      JoinNextBook(inputs, front, key);
    }
  }

  ghost predicate SymbolsColonFree(inputs: Inputs) {
    (forall i :: 0 <= i < |inputs.trades| ==> ColonFree(inputs.trades[i].symbol))
    && (forall i :: 0 <= i < |inputs.holdings| ==> ColonFree(inputs.holdings[i].symbol))
  }

  /** No two positions of a reconciliation share a ref, and each stock and funding has at most one open row. */
  lemma PositionRefsDistinct(inputs: Inputs)
    requires SymbolsColonFree(inputs)
    ensures RefsDistinct(Positions(inputs)) && OneOpenPerBook(Positions(inputs))
  {
    BookKeyOrder();
    var all := inputs.BookKeys();
    SortedSetListing(BookKeyLe, all);
    var keys := SortedSet(BookKeyLe, all);
    forall i | 0 <= i < |keys| ensures ColonFree(keys[i].symbol) {
      assert keys[i] in keys && keys[i] in all;
    }
    RowsOverDistinct(inputs, keys);
  }
}

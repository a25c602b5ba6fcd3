/** src/swingdash/adapters/storage/repos/broker_trades.py: stored fills, keyed by trade id. */
module BrokerTrades {
  import opened Wrappers
  import opened Ordering
  import opened Ledger
  import opened Reconciliation
  import opened Broker

  type Fills = map<string, Trade>

  /** `ON CONFLICT ... DO UPDATE`: what a re-read fill keeps of the stored one. */
  function Refreshed(stored: Trade, t: Trade): Trade {
    t.(symbol := if t.symbol == "" then stored.symbol else t.symbol,
       isin := if t.isin.Some? then t.isin else stored.isin,
       charges := MaxReal(t.charges, stored.charges))
  }

  function Upsert(rows: Fills, t: Trade): Fills {
    rows[t.tradeId := if t.tradeId in rows then Refreshed(rows[t.tradeId], t) else t]
  }

  function SavedAll(rows: Fills, trades: seq<Trade>): Fills {
    if trades == [] then rows
    else Upsert(SavedAll(rows, trades[..|trades| - 1]), trades[|trades| - 1])
  }

  ghost predicate KeyedById(rows: Fills) {
    forall id :: id in rows ==> rows[id].tradeId == id
  }

  /** Saving stores each fill once under its id, forgets none, and never lowers a fill's charges. */
  lemma {:induction false} SaveKeeps(rows: Fills, trades: seq<Trade>)
    requires KeyedById(rows)
    ensures KeyedById(SavedAll(rows, trades))
    ensures forall id :: id in SavedAll(rows, trades) <==>
      id in rows || exists i :: 0 <= i < |trades| && trades[i].tradeId == id
    ensures forall id :: id in rows ==> SavedAll(rows, trades)[id].charges >= rows[id].charges
    ensures forall i :: 0 <= i < |trades| ==> SavedAll(rows, trades)[trades[i].tradeId].charges >= trades[i].charges
  {
    if trades != [] {
      var front, last := trades[..|trades| - 1], trades[|trades| - 1];
      SaveKeeps(rows, front);
      var before, after := SavedAll(rows, front), SavedAll(rows, trades);
      forall id ensures id in after <==> id in rows || exists i :: 0 <= i < |trades| && trades[i].tradeId == id {
        if id in before && id !in rows {
          var i :| 0 <= i < |front| && front[i].tradeId == id;
          assert trades[i].tradeId == id;
        }
        if id == last.tradeId {
          assert trades[|trades| - 1].tradeId == id;
        }
        if exists i :: 0 <= i < |trades| && trades[i].tradeId == id {
          var i :| 0 <= i < |trades| && trades[i].tradeId == id;
          assert i < |front| ==> front[i].tradeId == id;
        }
      }
      forall i | 0 <= i < |trades| ensures after[trades[i].tradeId].charges >= trades[i].charges {
        if i < |front| {
          assert front[i] == trades[i];
        }
      }
    }
  }

  ghost predicate IsLastReading(trades: seq<Trade>, i: int) {
    0 <= i < |trades| && forall j :: i < j < |trades| ==> trades[j].tradeId != trades[i].tradeId
  }

  /** Side, product, quantity, price and time of the reading, and the symbol and ISIN where it has them. */
  ghost predicate IsReading(row: Trade, t: Trade) {
    && row.tradeId == t.tradeId && row.side == t.side && row.product == t.product && row.quantity == t.quantity
    && row.price == t.price && row.time == t.time
    && (t.symbol != "" ==> row.symbol == t.symbol) && (t.isin.Some? ==> row.isin == t.isin)
  }

  ghost predicate ChargesSeen(rows: Fills, trades: seq<Trade>, id: string, charges: real) {
    || (id in rows && rows[id].charges == charges)
    || exists i :: 0 <= i < |trades| && trades[i].tradeId == id && trades[i].charges == charges
  }

  ghost predicate SymbolSeen(rows: Fills, trades: seq<Trade>, id: string, symbol: string) {
    || (id in rows && rows[id].symbol == symbol)
    || exists i :: 0 <= i < |trades| && trades[i].tradeId == id && trades[i].symbol == symbol
  }

  ghost predicate IsinSeen(rows: Fills, trades: seq<Trade>, id: string, isin: Option<string>) {
    || (id in rows && rows[id].isin == isin)
    || exists i :: 0 <= i < |trades| && trades[i].tradeId == id && trades[i].isin == isin
  }

  /** Charges, symbol and ISIN are those of a reading, or of the fill stored before. */
  ghost predicate Seen(rows: Fills, trades: seq<Trade>, row: Trade) {
    && ChargesSeen(rows, trades, row.tradeId, row.charges) && SymbolSeen(rows, trades, row.tradeId, row.symbol)
    && IsinSeen(rows, trades, row.tradeId, row.isin)
  }

  lemma StillSeen(rows: Fills, front: seq<Trade>, last: Trade, row: Trade)
    requires Seen(rows, front, row)
    ensures Seen(rows, front + [last], row)
  {
    var trades := front + [last];
    assert forall i :: 0 <= i < |front| ==> trades[i] == front[i];
  }

  lemma LastSeen(rows: Fills, front: seq<Trade>, last: Trade)
    ensures Seen(rows, front + [last], last)
  {
    assert (front + [last])[|front|] == last;
  }

  lemma {:induction false} SavedSeen(rows: Fills, trades: seq<Trade>, id: string)
    requires KeyedById(rows) && id in SavedAll(rows, trades)
    ensures SavedAll(rows, trades)[id].tradeId == id && Seen(rows, trades, SavedAll(rows, trades)[id])
  {
    if trades != [] {
      var front, last := trades[..|trades| - 1], trades[|trades| - 1];
      assert trades == front + [last];
      if id in SavedAll(rows, front) {
        SavedSeen(rows, front, id);
        StillSeen(rows, front, last, SavedAll(rows, front)[id]);
      }
      LastSeen(rows, front, last);
    }
  }

  /** A fill that is not read stays as it is. */
  lemma {:induction false} UnreadKept(rows: Fills, trades: seq<Trade>, id: string)
    requires id in rows && forall i :: 0 <= i < |trades| ==> trades[i].tradeId != id
    ensures id in SavedAll(rows, trades) && SavedAll(rows, trades)[id] == rows[id]
  {
    if trades != [] {
      UnreadKept(rows, trades[..|trades| - 1], id);
    }
  }

  /** A fill that is read is as last read. */
  lemma {:induction false} LastReadingStored(rows: Fills, trades: seq<Trade>, i: int)
    requires KeyedById(rows) && IsLastReading(trades, i)
    ensures trades[i].tradeId in SavedAll(rows, trades)
    ensures IsReading(SavedAll(rows, trades)[trades[i].tradeId], trades[i])
  {
    if i < |trades| - 1 {
      LastReadingStored(rows, trades[..|trades| - 1], i);
    }
  }

  /** A symbol or an ISIN once known is not lost to a reading without one. */
  lemma {:induction false} NamesKept(rows: Fills, trades: seq<Trade>, id: string)
    requires KeyedById(rows) && id in SavedAll(rows, trades)
    ensures SavedAll(rows, trades)[id].symbol == "" ==>
      && (id in rows ==> rows[id].symbol == "")
      && forall i :: 0 <= i < |trades| && trades[i].tradeId == id ==> trades[i].symbol == ""
    ensures SavedAll(rows, trades)[id].isin.None? ==>
      && (id in rows ==> rows[id].isin.None?)
      && forall i :: 0 <= i < |trades| && trades[i].tradeId == id ==> trades[i].isin.None?
  {
    if trades != [] {
      var front := trades[..|trades| - 1];
      SaveKeeps(rows, front);
      if id in SavedAll(rows, front) {
        NamesKept(rows, front, id);
      }
      assert forall i :: 0 <= i < |front| ==> front[i] == trades[i];
    }
  }

  /** The stored row already has everything this fill brings. */
  ghost predicate Absorbed(rows: Fills, t: Trade) {
    t.tradeId in rows && Refreshed(rows[t.tradeId], t) == rows[t.tradeId]
  }

  lemma {:induction false} SaveAbsorbs(rows: Fills, trades: seq<Trade>)
    requires forall i, j :: 0 <= i < j < |trades| ==> trades[i].tradeId != trades[j].tradeId
    ensures forall i :: 0 <= i < |trades| ==> Absorbed(SavedAll(rows, trades), trades[i])
  {
    if trades != [] {
      var front, last := trades[..|trades| - 1], trades[|trades| - 1];
      SaveAbsorbs(rows, front);
      forall i | 0 <= i < |trades| ensures Absorbed(SavedAll(rows, trades), trades[i]) {
        if i < |front| {
          assert front[i] == trades[i] && trades[i].tradeId != last.tradeId;
        }
      }
    }
  }

  lemma {:induction false} AbsorbedUnchanged(rows: Fills, trades: seq<Trade>)
    requires forall i :: 0 <= i < |trades| ==> Absorbed(rows, trades[i])
    ensures SavedAll(rows, trades) == rows
  {
    if trades != [] {
      var front, last := trades[..|trades| - 1], trades[|trades| - 1];
      assert forall i :: 0 <= i < |front| ==> front[i] == trades[i];
      AbsorbedUnchanged(rows, front);
      assert Absorbed(rows, last);
    }
  }

  /** Reading a day's trade book again changes nothing. */
  lemma ResaveUnchanged(rows: Fills, trades: seq<Trade>)
    requires forall i, j :: 0 <= i < j < |trades| ==> trades[i].tradeId != trades[j].tradeId
    ensures SavedAll(SavedAll(rows, trades), trades) == SavedAll(rows, trades)
  {
    SaveAbsorbs(rows, trades);
    AbsorbedUnchanged(SavedAll(rows, trades), trades);
  }

  /** Every stored fill, by time, then id. */
  ghost function StoredFills(rows: Fills): seq<Trade> {
    SortedSet(FillLe, rows.Values)
  }

  lemma FillsOrdered(rows: Fills)
    requires KeyedById(rows)
    ensures AntisymmetricOn(FillLe, rows.Values)
  {
    forall x, y | x in rows.Values && y in rows.Values && FillLe(x, y) && FillLe(y, x) ensures x == y {
      StringLeAntisymmetric(x.tradeId, y.tradeId);
      assert rows[x.tradeId] == x && rows[y.tradeId] == y;
    }
  }

  lemma SortedFillsUnique(rows: Fills, list: seq<Trade>)
    requires KeyedById(rows) && Lists(list, rows.Values)
    ensures SortBy(FillLe, list) == StoredFills(rows)
  {
    FillOrder();
    FillsOrdered(rows);
    ListOfLists(rows.Values);
    SortByKeepsListing(FillLe, list, rows.Values);
    SortByKeepsListing(FillLe, ListOf(rows.Values), rows.Values);
    SortBySorted(FillLe, list);
    SortBySorted(FillLe, ListOf(rows.Values));
    SortedListingUnique(FillLe, SortBy(FillLe, list), StoredFills(rows), rows.Values);
  }

  method ListFills(rows: Fills) returns (list: seq<Trade>)
    requires KeyedById(rows)
    ensures Lists(list, rows.Values)
  {
    var ids := ListSet(rows.Keys);
    assert forall i :: 0 <= i < |ids| ==> ids[i] in ids && ids[i] in rows;
    list := seq(|ids|, i requires 0 <= i < |ids| => rows[ids[i]]);
    assert forall i :: 0 <= i < |ids| ==> list[i].tradeId == ids[i];
    forall t ensures t in list <==> t in rows.Values {
      if t in rows.Values {
        assert t.tradeId in ids;
        var i :| 0 <= i < |ids| && ids[i] == t.tradeId;
        assert list[i] == t;
      }
    }
  }

  class BrokerTradeRepository {
    var rows: Fills

    method Save(trades: seq<Trade>) returns (saved: nat)
      modifies this
      ensures rows == SavedAll(old(rows), trades)
      ensures saved == |trades|
    {
      ghost var before := rows;
      for i := 0 to |trades|
        invariant rows == SavedAll(before, trades[..i])
      {
        assert trades[..i + 1][..i] == trades[..i];
        rows := Upsert(rows, trades[i]);
      }
      assert trades[..|trades|] == trades;
      saved := |trades|;
    }

    method All() returns (list: seq<Trade>)
      requires KeyedById(rows)
      ensures list == StoredFills(rows)
    {
      var unsorted := ListFills(rows);
      list := SortBy(FillLe, unsorted);
      SortedFillsUnique(rows, unsorted);
    }
  }
}

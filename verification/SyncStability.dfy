/**
 * From the store to the rows: a sync that stores fills of later days, and re-reads some it already has,
 * reconciles the earlier fills and a later suffix - so what it keeps is what module ClosedRows says.
 */
module SyncStability {
  import opened Wrappers
  import opened Dates
  import opened Ordering
  import opened Sums
  import opened Ledger
  import opened Reconciliation
  import opened Broker
  import opened BrokerStability
  import opened BrokerTrades
  import opened ClosedRows
  import opened DhanSync

  /** What a sync brings: fills the store already has in full, and new ones of later days. */
  ghost predicate BringsLater(rows: Fills, fills: seq<Trade>, day: Day) {
    forall i :: 0 <= i < |fills| ==>
      if fills[i].tradeId in rows then Absorbed(rows, fills[i]) else DayOf(fills[i]) > day
  }

  ghost predicate StoredUpTo(rows: Fills, day: Day) {
    forall id :: id in rows ==> DayOf(rows[id]) <= day
  }

  /** The later store has every earlier fill unchanged, and otherwise only fills of later days. */
  ghost predicate Extends(rows: Fills, later: Fills, day: Day) {
    && (forall id :: id in rows ==> id in later && later[id] == rows[id])
    && (forall id :: id in later && id !in rows ==> DayOf(later[id]) > day)
  }

  lemma {:induction false} SaveExtends(rows: Fills, fills: seq<Trade>, day: Day)
    requires KeyedById(rows) && BringsLater(rows, fills, day)
    ensures KeyedById(SavedAll(rows, fills)) && Extends(rows, SavedAll(rows, fills), day)
  {
    if fills != [] {
      var front, t := fills[..|fills| - 1], fills[|fills| - 1];
      assert forall i :: 0 <= i < |front| ==> front[i] == fills[i];
      SaveExtends(rows, front, day);
      if t.tradeId in rows {
        assert Absorbed(rows, t);
      } else {
        assert DayOf(t) > day;
      }
    }
  }

  function NewFills(rows: Fills, later: Fills): Fills {
    map id | id in later && id !in rows :: later[id]
  }

  lemma StoredListing(rows: Fills)
    requires KeyedById(rows)
    ensures Sorted(FillLe, StoredFills(rows)) && Lists(StoredFills(rows), rows.Values)
  {
    FillOrder();
    ListOfLists(rows.Values);
    SortBySorted(FillLe, ListOf(rows.Values));
    SortByKeepsListing(FillLe, ListOf(rows.Values), rows.Values);
  }

  lemma StoredDays(rows: Fills, later: Fills, day: Day)
    requires KeyedById(rows) && KeyedById(later) && StoredUpTo(rows, day) && Extends(rows, later, day)
    ensures AllUpTo(StoredFills(rows), day) && AllAfter(StoredFills(NewFills(rows, later)), day)
  {
    var a, b := StoredFills(rows), StoredFills(NewFills(rows, later));
    StoredListing(rows);
    StoredListing(NewFills(rows, later));
    forall i | 0 <= i < |a| ensures DayOf(a[i]) <= day {
      assert a[i] in rows.Values;
    }
    forall i | 0 <= i < |b| ensures DayOf(b[i]) > day {
      assert b[i] in NewFills(rows, later).Values;
    }
  }

  lemma JoinedListing<T(!new)>(a: seq<T>, b: seq<T>, s: set<T>, t: set<T>)
    requires Lists(a, s) && Lists(b, t) && s !! t
    ensures Lists(a + b, s + t)
  {
    forall x ensures x in a + b <==> x in s + t {
      assert x in a + b <==> x in a || x in b;
    }
    forall i, j | 0 <= i < j < |a + b| ensures (a + b)[i] != (a + b)[j] {
      if i < |a| <= j {
        assert a[i] in a && b[j - |a|] in b;
      }
    }
  }

  lemma ValuesJoin(rows: Fills, later: Fills, day: Day)
    requires KeyedById(rows) && KeyedById(later) && Extends(rows, later, day)
    ensures rows.Values !! NewFills(rows, later).Values
    ensures rows.Values + NewFills(rows, later).Values == later.Values
  {
    var added := NewFills(rows, later);
    forall t ensures t in later.Values <==> t in rows.Values || t in added.Values {
      if t in later.Values {
        assert later[t.tradeId] == t;
        if t.tradeId in rows {
          assert rows[t.tradeId] == t;
        } else {
          assert added[t.tradeId] == t;
        }
      }
      if t in rows.Values {
        assert rows[t.tradeId] == t && later[t.tradeId] == t;
      }
    }
  }

  /** The stored fills, in order, are the earlier ones followed by the new ones. */
  lemma StoredFillsExtend(rows: Fills, later: Fills, day: Day)
    requires KeyedById(rows) && KeyedById(later) && StoredUpTo(rows, day) && Extends(rows, later, day)
    ensures StoredFills(later) == StoredFills(rows) + StoredFills(NewFills(rows, later))
  {
    var a, b := StoredFills(rows), StoredFills(NewFills(rows, later));
    StoredListing(rows);
    StoredListing(NewFills(rows, later));
    StoredListing(later);
    StoredDays(rows, later, day);
    ValuesJoin(rows, later, day);
    JoinedListing(a, b, rows.Values, NewFills(rows, later).Values);
    forall i, j | 0 <= i < j < |a + b| ensures FillLe((a + b)[i], (a + b)[j]) {
      if i < |a| <= j {
        assert DayOf(a[i]) < DayOf(b[j - |a|]);
      }
    }
    FillsOrdered(later);
    SortedListingUnique(FillLe, StoredFills(later), a + b, later.Values);
  }

  lemma {:induction false} NamedFillsAppend(a: seq<Trade>, b: seq<Trade>, historyFrom: Day, instruments: Instruments)
    ensures NamedFills(a + b, historyFrom, instruments)
      == NamedFills(a, historyFrom, instruments) + NamedFills(b, historyFrom, instruments)
  {
    if b == [] {
      assert a + b == a;
    } else {
      var front, last := b[..|b| - 1], b[|b| - 1];
      NamedFillsAppend(a, front, historyFrom, instruments);
      assert a + b == (a + front) + [last];
      assert (a + b)[..|a + b| - 1] == a + front;
    }
  }

  /** A fill that is reconciled: of the chosen start or later, and of a stock with an NSE name. */
  predicate Qualifies(t: Trade, start: Day, instruments: Instruments) {
    DateOf(t.time) >= start && instruments.nseSymbol(t.isin, t.symbol).Some?
  }

  /** `named` is the qualifying ones of `fills`, at the rising indices `source`, each under its NSE name. */
  ghost predicate Selects(fills: seq<Trade>, source: seq<nat>, named: seq<Trade>, start: Day,
      instruments: Instruments) {
    && |source| == |named|
    && (forall i :: 0 <= i < |source| ==> source[i] < |fills|)
    && (forall i, j :: 0 <= i < j < |source| ==> source[i] < source[j])
    && (forall n: nat :: n in source <==> n < |fills| && Qualifies(fills[n], start, instruments))
    && (forall i :: 0 <= i < |named| ==>
         var t := fills[source[i]];
         named[i] == t.(symbol := instruments.nseSymbol(t.isin, t.symbol).value))
  }

  lemma {:induction false} SelectsMore(fills: seq<Trade>, t: Trade, source: seq<nat>, named: seq<Trade>, start: Day,
      instruments: Instruments)
    requires Selects(fills, source, named, start, instruments)
    ensures Qualifies(t, start, instruments) ==>
      var renamed := t.(symbol := instruments.nseSymbol(t.isin, t.symbol).value);
      Selects(fills + [t], source + [|fills|], named + [renamed], start, instruments)
    ensures !Qualifies(t, start, instruments) ==> Selects(fills + [t], source, named, start, instruments)
  {
    var all := fills + [t];
    forall n: nat
      ensures n < |all| && Qualifies(all[n], start, instruments) <==>
        n in source || (n == |fills| && Qualifies(t, start, instruments))
    {
      assert n < |fills| ==> all[n] == fills[n];
    }
    assert forall n: nat :: n in source + [|fills|] <==> n in source || n == |fills|;
  }

  /** Naming keeps exactly the fills of the chosen start or later that have a name, in order. */
  lemma {:induction false} NamedFillsFrom(fills: seq<Trade>, historyFrom: Day, instruments: Instruments)
    returns (source: seq<nat>)
    ensures Selects(fills, source, NamedFills(fills, historyFrom, instruments), historyFrom, instruments)
  {
    source := [];
    if fills != [] {
      var front, t := fills[..|fills| - 1], fills[|fills| - 1];
      source := NamedFillsFrom(front, historyFrom, instruments);
      SplitLast(fills);
      SelectsMore(front, t, source, NamedFills(front, historyFrom, instruments), historyFrom, instruments);
      if Qualifies(t, historyFrom, instruments) {
        source := source + [|front|];
      }
    }
  }

  /** The stored fills: each once, by time, those of one moment by trade id. */
  ghost predicate ListsStore(list: seq<Trade>, rows: Fills) {
    && (forall t :: t in list <==> t in rows.Values)
    && (forall i, j :: 0 <= i < j < |list| ==>
         list[i] != list[j]
         && (list[i].time < list[j].time
             || (list[i].time == list[j].time && StringLe(list[i].tradeId, list[j].tradeId))))
  }

  /**
   * What a sync reconciles: of the stored fills in order, exactly those of the chosen start or later that have
   * an NSE name, under that name; and every holding, under its NSE name where it has one.
   */
  lemma {:induction false} SyncInputsExact(rows: Fills, start: Day, today: Day, holdings: seq<Holding>,
      instruments: Instruments)
    returns (stored: seq<Trade>, source: seq<nat>)
    requires KeyedById(rows)
    ensures
      var inputs := SyncInputs(rows, start, today, holdings, instruments);
      && ListsStore(stored, rows) && Selects(stored, source, inputs.trades, start, instruments)
      && inputs.historyFrom == start && inputs.today == today && |inputs.holdings| == |holdings|
      && forall i :: 0 <= i < |holdings| ==>
           var symbol := instruments.nseSymbol(holdings[i].isin, holdings[i].symbol);
           inputs.holdings[i] == holdings[i].(symbol := if symbol.Some? then symbol.value else holdings[i].symbol)
  {
    stored := StoredFills(rows);
    StoredListing(rows);
    source := NamedFillsFrom(stored, start, instruments);
  }

  // --- nothing before the start matters ---------------------------------------------------------------

  function OnOrAfter(start: Day): Trade -> bool {
    (t: Trade) => DateOf(t.time) >= start
  }

  lemma {:induction false} NamedOfLater(fills: seq<Trade>, start: Day, instruments: Instruments)
    ensures NamedFills(Filter(OnOrAfter(start), fills), start, instruments) == NamedFills(fills, start, instruments)
  {
    if fills != [] {
      var front, t := fills[..|fills| - 1], fills[|fills| - 1];
      NamedOfLater(front, start, instruments);
      var kept := Filter(OnOrAfter(start), front);
      assert (kept + [t])[..|kept + [t]| - 1] == kept;
    }
  }

  lemma {:induction false} FilterSorted(fills: seq<Trade>, keep: Trade -> bool)
    requires Sorted(FillLe, fills) && Distinct(fills)
    ensures Sorted(FillLe, Filter(keep, fills)) && Distinct(Filter(keep, fills))
  {
    if fills != [] {
      var front, t := fills[..|fills| - 1], fills[|fills| - 1];
      FilterSorted(front, keep);
      FilterMembers(keep, front);
      var kept := Filter(keep, front);
      forall i | 0 <= i < |kept| ensures FillLe(kept[i], t) && kept[i] != t {
        assert kept[i] in kept;
        var j :| 0 <= j < |front| && front[j] == kept[i];
        assert fills[j] == front[j];
      }
    }
  }

  ghost function LaterFills(rows: Fills, start: Day): set<Trade> {
    set t | t in rows.Values && DateOf(t.time) >= start
  }

  lemma {:induction false} LaterListing(rows: Fills, start: Day)
    requires KeyedById(rows)
    ensures
      var list := Filter(OnOrAfter(start), StoredFills(rows));
      Sorted(FillLe, list) && Lists(list, LaterFills(rows, start))
  {
    StoredListing(rows);
    FilterSorted(StoredFills(rows), OnOrAfter(start));
    FilterMembers(OnOrAfter(start), StoredFills(rows));
  }

  /** Two stores with the same fills from the chosen start on are reconciled alike. */
  lemma {:induction false} OnlyFromStart(a: Fills, b: Fills, start: Day, today: Day, holdings: seq<Holding>,
      instruments: Instruments)
    requires KeyedById(a) && KeyedById(b)
    requires forall t: Trade :: DateOf(t.time) >= start ==> (t in a.Values <==> t in b.Values)
    ensures
      var first := SyncInputs(a, start, today, holdings, instruments);
      var second := SyncInputs(b, start, today, holdings, instruments);
      first == second && Positions(first) == Positions(second) && Mismatches(first) == Mismatches(second)
  {
    assert LaterFills(a, start) == LaterFills(b, start);
    LaterListing(a, start);
    LaterListing(b, start);
    FillsOrdered(a);
    SortedListingUnique(
      FillLe, Filter(OnOrAfter(start), StoredFills(a)), Filter(OnOrAfter(start), StoredFills(b)), LaterFills(a, start));
    NamedOfLater(StoredFills(a), start, instruments);
    NamedOfLater(StoredFills(b), start, instruments);
  }

  lemma StoredIdsDistinct(rows: Fills)
    requires KeyedById(rows)
    ensures DistinctIds(StoredFills(rows))
  {
    var s := StoredFills(rows);
    StoredListing(rows);
    forall i, j | 0 <= i < j < |s| ensures s[i].tradeId != s[j].tradeId {
      assert s[i] in s && s[j] in s;
      assert rows[s[i].tradeId] == s[i] && rows[s[j].tradeId] == s[j];
    }
  }

  /** What a sync reconciles carries the store's keys, so distinct ones. */
  lemma SyncIdsProper(rows: Fills, historyFrom: Day, today: Day, holdings: seq<Holding>, instruments: Instruments)
    requires KeyedById(rows) && BeforeEpisode(historyFrom) !in rows
    ensures ProperIds(SyncInputs(rows, historyFrom, today, holdings, instruments))
  {
    var s := StoredFills(rows);
    var source := NamedFillsFrom(s, historyFrom, instruments);
    StoredListing(rows);
    StoredIdsDistinct(rows);
    forall i | 0 <= i < |source| ensures s[source[i]].tradeId in rows {
      assert s[source[i]] in s;
    }
  }

  lemma NamedDays(fills: seq<Trade>, historyFrom: Day, instruments: Instruments, day: Day)
    ensures AllUpTo(fills, day) ==> AllUpTo(NamedFills(fills, historyFrom, instruments), day)
    ensures AllAfter(fills, day) ==> AllAfter(NamedFills(fills, historyFrom, instruments), day)
  {
    var source := NamedFillsFrom(fills, historyFrom, instruments);
  }

  /**
   * After saving what a later sync brings, the fills it reconciles are those of the earlier sync followed by
   * later ones.
   */
  lemma SavedFillsFollow(
      rows: Fills, fills: seq<Trade>, historyFrom: Day, today: Day, later: Day,
      held: seq<Holding>, heldLater: seq<Holding>, instruments: Instruments)
    returns (more: seq<Trade>)
    requires KeyedById(rows) && StoredUpTo(rows, today) && BringsLater(rows, fills, today) && today < later
    ensures
      LaterSync(
        SyncInputs(rows, historyFrom, today, held, instruments), more,
        SyncInputs(SavedAll(rows, fills), historyFrom, later, heldLater, instruments))
  {
    var saved := SavedAll(rows, fills);
    SaveExtends(rows, fills, today);
    var a, b := StoredFills(rows), StoredFills(NewFills(rows, saved));
    StoredFillsExtend(rows, saved, today);
    StoredDays(rows, saved, today);
    NamedFillsAppend(a, b, historyFrom, instruments);
    NamedDays(a, historyFrom, instruments, today);
    NamedDays(b, historyFrom, instruments, today);
    more := NamedFills(b, historyFrom, instruments);
  }

  /**
   * Two syncs of one store: when every book's holding moves by the fills stored in between, at the same
   * average cost, the later one keeps every closed position just when no book's opening shares matter.
   */
  lemma SyncKeepsClosedIff(
      rows: Fills, fills: seq<Trade>, historyFrom: Day, today: Day, later: Day,
      held: seq<Holding>, heldLater: seq<Holding>, instruments: Instruments)
    returns (more: seq<Trade>)
    requires KeyedById(rows) && StoredUpTo(rows, today) && BringsLater(rows, fills, today) && today < later
    requires BeforeEpisode(historyFrom) !in SavedAll(rows, fills)
    ensures
      var first := SyncInputs(rows, historyFrom, today, held, instruments);
      var second := SyncInputs(SavedAll(rows, fills), historyFrom, later, heldLater, instruments);
      && LaterSync(first, more, second)
      && ((forall key :: key in first.BookKeys() ==>
            HoldingMoved(first, more, second, key) && SameAverageCost(first, second, key))
          ==> (ClosedPositionsKept(first, second)
               <==> forall key :: key in first.BookKeys() ==> OpeningHarmless(first, second, key)))
  {
    var first := SyncInputs(rows, historyFrom, today, held, instruments);
    var second := SyncInputs(SavedAll(rows, fills), historyFrom, later, heldLater, instruments);
    more := SavedFillsFollow(rows, fills, historyFrom, today, later, held, heldLater, instruments);
    SaveExtends(rows, fills, today);
    SyncIdsProper(SavedAll(rows, fills), historyFrom, later, heldLater, instruments);
    if forall key :: key in first.BookKeys() ==>
         HoldingMoved(first, more, second, key) && SameAverageCost(first, second, key)
    {
      ClosedPositionsKeptIff(first, more, second);
    }
  }
}

/**
 * src/swingdash/services/dhan_sync.py as an object: its stored fills, its positions table and the
 * markers of what history has been read.
 */
module DhanSyncService {
  import opened Wrappers
  import opened Dates
  import opened Sums
  import opened Ledger
  import opened Reconciliation
  import opened Broker
  import opened BrokerRefs
  import opened BrokerTrades
  import opened DhanHistory
  import opened DhanMerge
  import opened DhanSync
  import opened PositionTable

  /** Every fill the broker has of a day between the markers is stored. */
  ghost predicate StoredThrough(rows: Fills, covered: Option<int>, through: Option<int>, fillsOn: int -> seq<Trade>) {
    forall d, t :: Known(covered, through, d) && t in fillsOn(d) ==> t.tradeId in rows
  }

  ghost predicate SpansStored(rows: Fills, spans: seq<Span>, fillsOn: int -> seq<Trade>) {
    forall d, t :: InSpans(spans, d) && t in fillsOn(d) ==> t.tradeId in rows
  }

  /** No fill is forgotten, and none becomes cheaper. */
  ghost predicate Kept(rows: Fills, later: Fills) {
    forall id :: id in rows ==> id in later && later[id].charges >= rows[id].charges
  }

  lemma SavedKeeps(rows: Fills, fills: seq<Trade>)
    requires KeyedById(rows)
    ensures Kept(rows, SavedAll(rows, fills))
    ensures forall t :: t in fills ==> t.tradeId in SavedAll(rows, fills)
  {
    SaveKeeps(rows, fills);
    forall t | t in fills ensures t.tradeId in SavedAll(rows, fills) {
      var i :| 0 <= i < |fills| && fills[i] == t;
    }
  }

  /**
   * The table after a sync: merged from what it was with the reconciled positions that are not hidden, with
   * their refs and no others; settled, so that the same again would change nothing - and did not, if it was
   * settled before.
   */
  ghost predicate Applied(inputs: Inputs, keyOf: KeyOf, hidden: set<string>, before: Table,
      nextId: int, rows: Table, mismatches: seq<Mismatch>)
  {
    var wanted := Wanted(inputs, hidden);
    && mismatches == Mismatches(inputs)
    && RefsIn(rows) == Refs(Positions(inputs)) - hidden
    && Merged(before, nextId, rows, wanted, keyOf)
    && Settled(rows, wanted, keyOf)
    && (Settled(before, wanted, keyOf) ==> rows == before)
  }

  ghost predicate Counted(wanted: seq<ImportedPosition>, open: int, closed: int) {
    open == Count(IsOpen, wanted) && closed == |wanted| - open
  }

  class DhanSyncService {
    const trades: BrokerTradeRepository
    const positions: PositionRepository
    var coveredFrom: Option<int>
    var through: Option<int>
    var mismatches: seq<Mismatch>

    constructor (trades: BrokerTradeRepository, positions: PositionRepository)
      ensures this.trades == trades && this.positions == positions
      ensures coveredFrom.None? && through.None? && mismatches == []
    {
      this.trades, this.positions := trades, positions;
      coveredFrom, through, mismatches := None, None, [];
    }

    ghost predicate Valid()
      reads this, trades, positions
    {
      positions.Valid() && KeyedById(trades.rows) && MarkersValid(coveredFrom, through)
    }

    /**
     * The reading part of `_sync`: the gaps up to yesterday, each stored as it is read, then the
     * markers. A failing request leaves the markers where they were.
     */
    method ReadHistory(fetch: Fetch, start: int, yesterday: int, ghost fillsOn: int -> seq<Trade>) returns (ok: bool)
      requires Valid() && Complete(fetch, fillsOn)
      requires StoredThrough(trades.rows, coveredFrom, through, fillsOn)
      requires start <= yesterday + 1
      modifies this`coveredFrom, this`through, trades
      ensures Valid()
      ensures Kept(old(trades.rows), trades.rows)
      ensures !ok ==> coveredFrom == old(coveredFrom) && through == old(through)
      ensures ok ==> coveredFrom == Some(CoveredAfter(old(coveredFrom), start)) && through == Some(yesterday)
      ensures !ok || old(coveredFrom).None? || start <= old(through).value + 1 ==>
        StoredThrough(trades.rows, coveredFrom, through, fillsOn)
    {
      var gaps := MissingHistory(coveredFrom, through, start, yesterday);
      ghost var rows := trades.rows;
      for i := 0 to |gaps|
        invariant Valid() && coveredFrom == old(coveredFrom) && through == old(through)
        invariant Kept(rows, trades.rows)
        invariant SpansStored(trades.rows, gaps[..i], fillsOn)
        invariant StoredThrough(trades.rows, coveredFrom, through, fillsOn)
      {
        var read := TradeHistory(fetch, gaps[i].start, gaps[i].end);
        if read.None? {
          return false;
        }
        ghost var before := trades.rows;
        SaveKeeps(before, read.value);
        var _ := trades.Save(read.value);
        GapStored(fetch, fillsOn, gaps, i, before, read.value);
      }
      assert gaps[..|gaps|] == gaps;
      MarkersMoved(coveredFrom, through, start, yesterday, trades.rows, fillsOn);
      coveredFrom := Some(CoveredAfter(coveredFrom, start));
      through := Some(yesterday);
      ok := true;
    }

    /** Storing today's trade book: fills are refreshed, never duplicated. */
    method SaveToday(today: seq<Trade>)
      requires Valid()
      modifies trades
      ensures Valid()
      ensures trades.rows == SavedAll(old(trades.rows), today)
    {
      SaveKeeps(trades.rows, today);
      var _ := trades.Save(today);
    }

    /** `_apply`: rebuild positions from the stored fills and the holdings, and merge them into the table. */
    method Apply(historyFrom: Day, today: Day, holdings: seq<Holding>, instruments: Instruments)
      returns (open: int, closed: int)
      requires Valid() && NseNames(instruments, holdings)
      modifies this`mismatches, positions`rows, positions`nextId
      ensures Valid()
      ensures var inputs := SyncInputs(trades.rows, historyFrom, today, holdings, instruments);
        && Applied(inputs, instruments.keyOf, positions.hidden, old(positions.rows), old(positions.nextId),
             positions.rows, mismatches)
        && Counted(Wanted(inputs, positions.hidden), open, closed)
    {
      var stored := trades.All();
      var inputs := Inputs(NamedFills(stored, historyFrom, instruments), NamedHoldings(holdings, instruments),
        historyFrom, today);
      var result := Reconcile(inputs);
      var wanted := Filter(NotHidden(positions.hidden), result.positions);
      InputsColonFree(stored, historyFrom, today, holdings, instruments);
      WantedRefsDistinct(inputs, positions.hidden);
      ghost var before, nextId := positions.rows, positions.nextId;
      MergePositions(positions, wanted, instruments.keyOf);
      MergedSettles(before, nextId, positions.rows, wanted, instruments.keyOf);
      if Settled(before, wanted, instruments.keyOf) {
        SettledUnchanged(before, nextId, positions.rows, wanted, instruments.keyOf);
      }
      mismatches := result.mismatches;
      open := Count(IsOpen, wanted);
      closed := |wanted| - open;
    }

    /**
     * `_sync` from the reading of history on: yesterday and before, then today's trade book, then the
     * holdings, then the merge. A request that fails ends it; what was stored by then stays.
     */
    method Sync(
        fetch: Fetch, start: Day, today: Day, todays: Option<seq<Trade>>, holdings: Option<seq<Holding>>,
        instruments: Instruments, ghost fillsOn: int -> seq<Trade>)
      returns (done: bool, open: int, closed: int)
      requires Valid() && Complete(fetch, fillsOn) && start <= today
      requires StoredThrough(trades.rows, coveredFrom, through, fillsOn)
      requires holdings.Some? ==> NseNames(instruments, holdings.value)
      modifies this, trades, positions`rows, positions`nextId
      ensures Valid()
      ensures Kept(old(trades.rows), trades.rows)
      ensures old(coveredFrom).None? || start <= old(through).value + 1 ==>
        StoredThrough(trades.rows, coveredFrom, through, fillsOn)
      ensures done ==> todays.Some? && holdings.Some?
      ensures done ==> coveredFrom == Some(CoveredAfter(old(coveredFrom), start)) && through == Some(today - 1)
      ensures done ==> forall t :: t in todays.value ==> t.tradeId in trades.rows
      ensures !done ==> positions.rows == old(positions.rows) && mismatches == old(mismatches)
      ensures done ==>
        var inputs := SyncInputs(trades.rows, start, today, holdings.value, instruments);
        && Applied(inputs, instruments.keyOf, positions.hidden, old(positions.rows), old(positions.nextId),
             positions.rows, mismatches)
        && Counted(Wanted(inputs, positions.hidden), open, closed)
    {
      done, open, closed := false, 0, 0;
      var read := ReadHistory(fetch, start, today - 1, fillsOn);
      if !read || todays.None? {
        return;
      }
      ghost var rows := trades.rows;
      SaveToday(todays.value);
      SavedKeeps(rows, todays.value);
      if holdings.None? {
        return;
      }
      open, closed := Apply(start, today, holdings.value, instruments);
      done := true;
    }
  }

  lemma InputsColonFree(stored: seq<Trade>, historyFrom: Day, today: Day, holdings: seq<Holding>,
      instruments: Instruments)
    requires NseNames(instruments, holdings)
    ensures SymbolsColonFree(Inputs(NamedFills(stored, historyFrom, instruments), NamedHoldings(holdings, instruments),
      historyFrom, today))
  {
    NamedFillsColonFree(stored, historyFrom, instruments);
  }

  lemma GapStored(fetch: Fetch, fillsOn: int -> seq<Trade>, gaps: seq<Span>, i: nat, before: Fills, read: seq<Trade>)
    requires Complete(fetch, fillsOn) && i < |gaps| && KeyedById(before)
    requires HistoryOver(fetch, Windows(gaps[i].start, gaps[i].end)) == Some(read)
    requires SpansStored(before, gaps[..i], fillsOn)
    ensures SpansStored(SavedAll(before, read), gaps[..i + 1], fillsOn)
  {
    SaveKeeps(before, read);
    forall d, t | InSpans(gaps[..i + 1], d) && t in fillsOn(d) ensures t.tradeId in SavedAll(before, read) {
      var j :| 0 <= j < i + 1 && gaps[..i + 1][j].Has(d);
      if j == i {
        HistoryComplete(fetch, fillsOn, gaps[i].start, gaps[i].end, d, t);
        var k :| 0 <= k < |read| && read[k] == t;
      } else {
        assert gaps[..i][j].Has(d);
      }
    }
  }

  lemma MarkersMoved(covered: Option<int>, through: Option<int>, start: int, yesterday: int, rows: Fills,
      fillsOn: int -> seq<Trade>)
    requires MarkersValid(covered, through) && start <= yesterday + 1
    requires StoredThrough(rows, covered, through, fillsOn)
    requires SpansStored(rows, MissingHistory(covered, through, start, yesterday), fillsOn)
    ensures MarkersValid(Some(CoveredAfter(covered, start)), Some(yesterday))
    ensures covered.None? || start <= through.value + 1 ==>
      StoredThrough(rows, Some(CoveredAfter(covered, start)), Some(yesterday), fillsOn)
  {
    GapsExact(covered, through, start, yesterday);
  }
}

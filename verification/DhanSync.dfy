/**
 * src/swingdash/services/dhan_sync.py, the part of a sync after reading: rebuild positions from the
 * stored fills and merge them into the positions table.
 */
module DhanSync {
  import opened Wrappers
  import opened Dates
  import opened Ordering
  import opened Ledger
  import opened Reconciliation
  import opened BrokerRefs
  import opened PositionTable
  import opened DhanMerge
  import BT = BrokerTrades

  function Filter<T>(keep: T -> bool, s: seq<T>): seq<T> {
    if s == [] then []
    else if keep(s[|s| - 1]) then Filter(keep, s[..|s| - 1]) + [s[|s| - 1]]
    else Filter(keep, s[..|s| - 1])
  }

  lemma {:induction false} FilterMembers<T(!new)>(keep: T -> bool, s: seq<T>)
    ensures forall x :: x in Filter(keep, s) <==> x in s && keep(x)
  {
    if s != [] {
      FilterMembers(keep, s[..|s| - 1]);
      assert s == s[..|s| - 1] + [s[|s| - 1]];
    }
  }

  lemma {:induction false} FilterListed(s: seq<Position>, keep: Position -> bool)
    requires forall i, j :: 0 <= i < j < |s| ==> s[i].id != s[j].id
    ensures forall i, j :: 0 <= i < j < |Filter(keep, s)| ==> Filter(keep, s)[i].id != Filter(keep, s)[j].id
    ensures forall i :: 0 <= i < |Filter(keep, s)| ==> Filter(keep, s)[i] in s
  {
    if s != [] {
      var front, last := s[..|s| - 1], s[|s| - 1];
      FilterListed(front, keep);
      FilterMembers(keep, front);
      forall i | 0 <= i < |Filter(keep, front)| ensures Filter(keep, front)[i].id != last.id {
        assert Filter(keep, front)[i] in front;
      }
      assert s == front + [last];
    }
  }

  /** `next(p for p in stale_open if ...)`. */
  function FirstOfHolding(stale: seq<Position>, w: ImportedPosition): (r: Option<nat>)
    ensures r.Some? ==> r.value < |stale| && SameHolding(stale[r.value], w)
    ensures r.None? ==> forall i :: 0 <= i < |stale| ==> !SameHolding(stale[i], w)
  {
    if stale == [] then None
    else if SameHolding(stale[0], w) then Some(0)
    else
      var rest := FirstOfHolding(stale[1..], w);
      assert stale == [stale[0]] + stale[1..];
      if rest.None? then None else Some(rest.value + 1)
  }

  function RemoveAt<T>(s: seq<T>, j: nat): seq<T>
    requires j < |s|
  {
    s[..j] + s[j + 1..]
  }

  lemma RemoveAtMembers(list: seq<Position>, j: nat)
    requires j < |list| && forall a, b :: 0 <= a < b < |list| ==> list[a].id != list[b].id
    ensures var rest := RemoveAt(list, j);
      && (forall i :: 0 <= i < |rest| ==> rest[i] in list && rest[i].id != list[j].id)
      && (forall a, b :: 0 <= a < b < |rest| ==> rest[a].id != rest[b].id)
      && (forall x :: x in list && x.id != list[j].id ==> x in rest)
  {
    var rest := RemoveAt(list, j);
    assert forall i :: 0 <= i < |rest| ==> rest[i] == if i < j then list[i] else list[i + 1];
    forall x | x in list && x.id != list[j].id ensures x in rest {
      var i :| 0 <= i < |list| && list[i] == x;
      assert rest[if i < j then i else i - 1] == x;
    }
  }

  /** Dropping the entry of a row just taken keeps the list of rows still as they were. */
  lemma ListedWithout(list: seq<Position>, before: Table, now: Table, filter: Position -> bool, j: nat, row: Position)
    requires StillListed(list, before, now, filter) && j < |list|
    requires forall id :: id in before ==> before[id].id == id
    requires row != before[list[j].id]
    ensures StillListed(RemoveAt(list, j), before, now[list[j].id := row], filter)
  {
    var rest, now' := RemoveAt(list, j), now[list[j].id := row];
    RemoveAtMembers(list, j);
    forall i | 0 <= i < |rest|
      ensures Untouched(before, now', rest[i].id) && before[rest[i].id] == rest[i] && filter(rest[i])
    {
      var k :| 0 <= k < |list| && list[k] == rest[i];
    }
    forall id | Untouched(before, now', id) && filter(before[id]) ensures before[id] in rest {
      assert id != list[j].id;
      assert Untouched(before, now, id);
    }
  }

  /** Saving into a row the filter does not keep, or a new one, leaves the list as it is. */
  lemma ListedStill(list: seq<Position>, before: Table, now: Table, filter: Position -> bool, id: int, row: Position)
    requires StillListed(list, before, now, filter)
    requires id in before ==> !filter(before[id])
    ensures StillListed(list, before, now[id := row], filter)
  {
    var now' := now[id := row];
    forall j | 0 <= j < |list| ensures Untouched(before, now', list[j].id) {
      assert Untouched(before, now, list[j].id);
    }
    forall x | Untouched(before, now', x) && filter(before[x]) ensures before[x] in list {
      assert Untouched(before, now, x);
    }
  }

  function StaleFilter(wantedRefs: set<string>): Position -> bool {
    p => IsStale(p, wantedRefs)
  }

  ghost predicate Stage(before: Table, nextId: int, positions: PositionRepository, wanted: seq<ImportedPosition>,
                        keyOf: KeyOf, i: nat, stale: seq<Position>, plans: seq<Position>)
    requires i <= |wanted|
    reads positions
  {
    && positions.Valid()
    && ValidTable(before, nextId) && nextId <= positions.nextId
    && RowsStage(before, nextId, positions.rows, wanted, keyOf, i)
    && StillListed(stale, before, positions.rows, StaleFilter(Refs(wanted)))
    && StillListed(plans, before, positions.rows, IsPlan)
  }

  /** `p.ref in existing` or closed: the row with the ref, or a new one. */
  method SaveInPlace(positions: PositionRepository, wanted: seq<ImportedPosition>, keyOf: KeyOf, i: nat,
                     ghost before: Table, ghost nextId: int, ghost stale: seq<Position>, ghost plans: seq<Position>)
    requires i < |wanted| && RefsDistinct(wanted)
    requires Stage(before, nextId, positions, wanted, keyOf, i, stale, plans)
    requires wanted[i].ref in RefsIn(before) || wanted[i].closedOn.Some?
    modifies positions`rows, positions`nextId
    ensures Stage(before, nextId, positions, wanted, keyOf, i + 1, stale, plans)
  {
    var w := wanted[i];
    ghost var now := positions.rows;
    RefsPrefix(wanted, i);
    if w.ref in RefsIn(before) {
      WantedRefKept(before, nextId, now, wanted, keyOf, i, w.ref);
    }
    var saved := positions.SaveImported(w, keyOf(w.symbol), None);
    var id := saved.value;
    if w.ref in RefsIn(now) {
      assert now[id].brokerRef == Some(w.ref);
      assert Untouched(before, now, id);
    }
    StageStep(before, nextId, now, wanted, keyOf, i, id, positions.rows);
    ListedStill(stale, before, now, StaleFilter(Refs(wanted)), id, positions.rows[id]);
    ListedStill(plans, before, now, IsPlan, id, positions.rows[id]);
  }

  /** A wanted ref stays on its row while the merge runs. */
  lemma WantedRefKept(before: Table, nextId: int, now: Table, wanted: seq<ImportedPosition>, keyOf: KeyOf, i: nat,
      ref: string)
    requires i <= |wanted| && ValidTable(before, nextId)
    requires RowsStage(before, nextId, now, wanted, keyOf, i)
    requires ref in Refs(wanted) && ref in RefsIn(before)
    ensures ref in RefsIn(now)
  {
    var id :| id in before && before[id].brokerRef == Some(ref);
    forall k | 0 <= k < i ensures now[id].brokerRef == Some(wanted[k].ref) ==> wanted[k].ref == ref {
      var w := wanted[k];
      assert now[id].brokerRef == Some(w.ref) ==> Placed(before, now, Refs(wanted), id, w);
    }
    if now[id].brokerRef.Some? && now[id].brokerRef.value in Refs(wanted[..i]) {
      var k :| 0 <= k < i && wanted[..i][k].ref == now[id].brokerRef.value;
      assert wanted[k].ref == ref;
    }
  }

  lemma NewRefIsFree(before: Table, nextId: int, now: Table, wanted: seq<ImportedPosition>, keyOf: KeyOf, i: nat)
    requires i < |wanted| && RefsDistinct(wanted)
    requires RowsStage(before, nextId, now, wanted, keyOf, i)
    requires wanted[i].ref !in RefsIn(before)
    ensures wanted[i].ref !in RefsIn(now)
  {
    RefsPrefix(wanted, i);
    forall id | id in now ensures now[id].brokerRef != Some(wanted[i].ref) {
      assert Untouched(before, now, id) ==> now[id].brokerRef != Some(wanted[i].ref);
    }
  }

  /** When the list of stale rows has none of this holding, there never was one. */
  lemma NoStale(before: Table, nextId: int, now: Table, wanted: seq<ImportedPosition>, keyOf: KeyOf, i: nat,
      stale: seq<Position>)
    requires i < |wanted| && OneOpenPerBook(wanted) && wanted[i].closedOn.None?
    requires RowsStage(before, nextId, now, wanted, keyOf, i)
    requires StillListed(stale, before, now, StaleFilter(Refs(wanted)))
    requires forall j :: 0 <= j < |stale| ==> !SameHolding(stale[j], wanted[i])
    ensures !HasStale(before, Refs(wanted), wanted[i])
  {
    forall s | s in before && IsStale(before[s], Refs(wanted)) ensures !SameHolding(before[s], wanted[i]) {
      if SameHolding(before[s], wanted[i]) {
        StaleLeft(before, nextId, now, wanted, keyOf, i, s);
      }
    }
  }

  /** The rows that are still plans are the ones listed. */
  lemma PlansListed(before: Table, nextId: int, now: Table, wanted: seq<ImportedPosition>, keyOf: KeyOf, i: nat,
                    plans: seq<Position>, q: int)
    requires i <= |wanted| && RowsStage(before, nextId, now, wanted, keyOf, i)
    requires StillListed(plans, before, now, IsPlan)
    requires forall id :: id in now ==> (now[id].source == Manual <==> now[id].brokerRef.None?)
    requires q in now && IsPlan(now[q])
    ensures now[q] in plans
  {
    assert Untouched(before, now, q);
  }

  /** A stale row of the same holding takes the new ref. */
  method SaveIntoStale(positions: PositionRepository, wanted: seq<ImportedPosition>, keyOf: KeyOf, i: nat, j: nat,
                       stale: seq<Position>, ghost plans: seq<Position>, ghost before: Table, ghost nextId: int)
    requires i < |wanted| && RefsDistinct(wanted)
    requires Stage(before, nextId, positions, wanted, keyOf, i, stale, plans)
    requires wanted[i].ref !in RefsIn(before) && wanted[i].closedOn.None?
    requires j < |stale| && SameHolding(stale[j], wanted[i])
    modifies positions`rows, positions`nextId
    ensures Stage(before, nextId, positions, wanted, keyOf, i + 1, RemoveAt(stale, j), plans)
  {
    var w, id := wanted[i], stale[j].id;
    ghost var now := positions.rows;
    NewRefIsFree(before, nextId, now, wanted, keyOf, i);
    assert Untouched(before, now, id) && IsStale(before[id], Refs(wanted));
    RefsPrefix(wanted, i);
    var _ := positions.SaveImported(w, keyOf(w.symbol), Some(id));
    StageStep(before, nextId, now, wanted, keyOf, i, id, positions.rows);
    ListedWithout(stale, before, now, StaleFilter(Refs(wanted)), j, positions.rows[id]);
    ListedStill(plans, before, now, IsPlan, id, positions.rows[id]);
  }

  /** The closest plan becomes the import. */
  method SaveIntoPlan(positions: PositionRepository, wanted: seq<ImportedPosition>, keyOf: KeyOf, i: nat, j: nat,
                      ghost stale: seq<Position>, plans: seq<Position>, ghost before: Table, ghost nextId: int)
    requires i < |wanted| && RefsDistinct(wanted)
    requires Stage(before, nextId, positions, wanted, keyOf, i, stale, plans)
    requires wanted[i].ref !in RefsIn(before) && wanted[i].closedOn.None?
    requires !HasStale(before, Refs(wanted), wanted[i])
    requires MatchingPlan(wanted[i], plans) == Some(j)
    modifies positions`rows, positions`nextId
    ensures Stage(before, nextId, positions, wanted, keyOf, i + 1, stale, RemoveAt(plans, j))
  {
    var w, id := wanted[i], plans[j].id;
    ghost var now := positions.rows;
    NewRefIsFree(before, nextId, now, wanted, keyOf, i);
    assert Untouched(before, now, id) && IsPlan(before[id]);
    var _ := positions.SaveImported(w, keyOf(w.symbol), Some(id));
    forall q | q in positions.rows && IsPlan(positions.rows[q]) && Matches(positions.rows[q], w)
      ensures Gap(before[id], w) <= Gap(positions.rows[q], w)
    {
      PlansListed(before, nextId, now, wanted, keyOf, i, plans, q);
    }
    StageStep(before, nextId, now, wanted, keyOf, i, id, positions.rows);
    ListedStill(stale, before, now, StaleFilter(Refs(wanted)), id, positions.rows[id]);
    ListedWithout(plans, before, now, IsPlan, j, positions.rows[id]);
  }

  /** Neither: a new row. */
  method SaveNew(positions: PositionRepository, wanted: seq<ImportedPosition>, keyOf: KeyOf, i: nat,
                 ghost stale: seq<Position>, plans: seq<Position>, ghost before: Table, ghost nextId: int)
    requires i < |wanted| && RefsDistinct(wanted)
    requires Stage(before, nextId, positions, wanted, keyOf, i, stale, plans)
    requires wanted[i].ref !in RefsIn(before) && wanted[i].closedOn.None?
    requires !HasStale(before, Refs(wanted), wanted[i])
    requires MatchingPlan(wanted[i], plans).None?
    modifies positions`rows, positions`nextId
    ensures Stage(before, nextId, positions, wanted, keyOf, i + 1, stale, plans)
  {
    var w := wanted[i];
    ghost var now := positions.rows;
    NewRefIsFree(before, nextId, now, wanted, keyOf, i);
    var saved := positions.SaveImported(w, keyOf(w.symbol), None);
    var id := saved.value;
    forall q | q in positions.rows && IsPlan(positions.rows[q]) ensures !Matches(positions.rows[q], w) {
      PlansListed(before, nextId, now, wanted, keyOf, i, plans, q);
    }
    StageStep(before, nextId, now, wanted, keyOf, i, id, positions.rows);
    ListedStill(stale, before, now, StaleFilter(Refs(wanted)), id, positions.rows[id]);
    ListedStill(plans, before, now, IsPlan, id, positions.rows[id]);
  }

  /** The loop of `_apply` over the wanted positions. */
  method SaveAll(positions: PositionRepository, wanted: seq<ImportedPosition>, keyOf: KeyOf, existing: set<string>,
                 staleOpen: seq<Position>, openPlans: seq<Position>, ghost before: Table, ghost nextId: int)
    returns (stale: seq<Position>, ghost plans: seq<Position>)
    requires RefsDistinct(wanted) && OneOpenPerBook(wanted)
    requires existing == RefsIn(before)
    requires Stage(before, nextId, positions, wanted, keyOf, 0, staleOpen, openPlans)
    modifies positions`rows, positions`nextId
    ensures Stage(before, nextId, positions, wanted, keyOf, |wanted|, stale, plans)
  {
    stale := staleOpen;
    var left := openPlans;
    for i := 0 to |wanted|
      invariant Stage(before, nextId, positions, wanted, keyOf, i, stale, left)
    {
      var w := wanted[i];
      if w.ref !in existing && w.closedOn.None? {
        var previous := FirstOfHolding(stale, w);
        var plan := MatchingPlan(w, left);
        if previous.Some? {
          SaveIntoStale(positions, wanted, keyOf, i, previous.value, stale, left, before, nextId);
          stale := RemoveAt(stale, previous.value);
        } else {
          NoStale(before, nextId, positions.rows, wanted, keyOf, i, stale);
          if plan.Some? {
            SaveIntoPlan(positions, wanted, keyOf, i, plan.value, stale, left, before, nextId);
            left := RemoveAt(left, plan.value);
          } else {
            SaveNew(positions, wanted, keyOf, i, stale, left, before, nextId);
          }
        }
      } else {
        SaveInPlace(positions, wanted, keyOf, i, before, nextId, stale, left);
      }
    }
    plans := left;
  }

  // --- what a sync rebuilds from ---------------------------------------------------------------

  /** The instrument master: the NSE symbol of a fill or holding, and a symbol's instrument key. */
  datatype Instruments = Instruments(nseSymbol: (Option<string>, string) -> Option<string>, keyOf: KeyOf)

  /** Fills from the chosen start on, named by their NSE symbol; those without one are left out. */
  function NamedFills(fills: seq<Trade>, historyFrom: Day, instruments: Instruments): seq<Trade> {
    if fills == [] then []
    else
      var front, t := NamedFills(fills[..|fills| - 1], historyFrom, instruments), fills[|fills| - 1];
      var symbol := instruments.nseSymbol(t.isin, t.symbol);
      if DayOf(t) < historyFrom || symbol.None? then front else front + [t.(symbol := symbol.value)]
  }

  function NamedHoldings(holdings: seq<Holding>, instruments: Instruments): seq<Holding> {
    seq(|holdings|, i requires 0 <= i < |holdings| =>
      var symbol := instruments.nseSymbol(holdings[i].isin, holdings[i].symbol);
      holdings[i].(symbol := if symbol.Some? then symbol.value else holdings[i].symbol))
  }

  ghost function SyncInputs(rows: BT.Fills, historyFrom: Day, today: Day, holdings: seq<Holding>,
      instruments: Instruments)
    : Inputs
  {
    Inputs(NamedFills(BT.StoredFills(rows), historyFrom, instruments), NamedHoldings(holdings, instruments),
      historyFrom, today)
  }

  function NotHidden(hidden: set<string>): ImportedPosition -> bool {
    (p: ImportedPosition) => p.ref !in hidden
  }

  /** The reconciled positions minus the ones the user hid. */
  ghost function Wanted(inputs: Inputs, hidden: set<string>): seq<ImportedPosition> {
    Filter(NotHidden(hidden), Positions(inputs))
  }

  /** NSE symbols hold no colon. */
  ghost predicate NseNames(instruments: Instruments, holdings: seq<Holding>) {
    && (forall isin, s :: instruments.nseSymbol(isin, s).Some? ==> ColonFree(instruments.nseSymbol(isin, s).value))
    && (forall i :: 0 <= i < |holdings| ==> ColonFree(holdings[i].symbol))
  }

  lemma {:induction false} NamedFillsColonFree(fills: seq<Trade>, historyFrom: Day, instruments: Instruments)
    requires forall isin, s :: instruments.nseSymbol(isin, s).Some? ==> ColonFree(instruments.nseSymbol(isin, s).value)
    ensures forall i :: 0 <= i < |NamedFills(fills, historyFrom, instruments)| ==>
      ColonFree(NamedFills(fills, historyFrom, instruments)[i].symbol)
  {
    if fills != [] {
      NamedFillsColonFree(fills[..|fills| - 1], historyFrom, instruments);
    }
  }

  lemma {:induction false} FilterKeepsRefs(keep: ImportedPosition -> bool, s: seq<ImportedPosition>)
    requires RefsDistinct(s) && OneOpenPerBook(s)
    ensures RefsDistinct(Filter(keep, s)) && OneOpenPerBook(Filter(keep, s))
  {
    if s != [] {
      var front, last := s[..|s| - 1], s[|s| - 1];
      FilterKeepsRefs(keep, front);
      FilterMembers(keep, front);
      var kept := Filter(keep, front);
      forall i | 0 <= i < |kept|
        ensures kept[i].ref != last.ref
        ensures kept[i].closedOn.None? && last.closedOn.None? ==>
          kept[i].symbol != last.symbol || kept[i].funding != last.funding
      {
        assert kept[i] in kept;
        var j :| 0 <= j < |front| && front[j] == kept[i];
        assert s[j] == kept[i];
      }
    }
  }

  /** What `_apply` merges has distinct refs and at most one open position per stock and funding. */
  lemma WantedRefsDistinct(inputs: Inputs, hidden: set<string>)
    requires SymbolsColonFree(inputs)
    ensures RefsDistinct(Wanted(inputs, hidden)) && OneOpenPerBook(Wanted(inputs, hidden))
    ensures Refs(Wanted(inputs, hidden)) == Refs(Positions(inputs)) - hidden
  {
    PositionRefsDistinct(inputs);
    FilterKeepsRefs(NotHidden(hidden), Positions(inputs));
    var all, wanted := Positions(inputs), Wanted(inputs, hidden);
    FilterMembers(NotHidden(hidden), all);
    forall r ensures r in Refs(wanted) <==> r in Refs(all) && r !in hidden {
      if r in Refs(wanted) {
        var i :| 0 <= i < |wanted| && wanted[i].ref == r;
        assert wanted[i] in wanted;
        var j :| 0 <= j < |all| && all[j] == wanted[i];
      }
      if r in Refs(all) && r !in hidden {
        var i :| 0 <= i < |all| && all[i].ref == r;
        assert all[i] in all && all[i] in wanted;
      }
    }
  }

  function IsOpen(p: ImportedPosition): int { if p.closedOn.None? then 1 else 0 }

  // --- the merge ----------------------------------------------------------------------------------

  method ListStale(existing: map<string, Position>, wantedRefs: set<string>) returns (stale: seq<Position>)
    requires forall ref :: ref in existing ==> existing[ref].brokerRef == Some(ref) && existing[ref].source == Dhan
    requires forall r, s :: r in existing && s in existing && r != s ==> existing[r].id != existing[s].id
    ensures forall p :: p in stale <==>
      p.brokerRef.Some? && p.brokerRef.value in existing && existing[p.brokerRef.value] == p && IsStale(p, wantedRefs)
    ensures forall i, j :: 0 <= i < j < |stale| ==> stale[i].id != stale[j].id
  {
    var refs := ListSet(existing.Keys);
    assert forall i :: 0 <= i < |refs| ==> refs[i] in refs && refs[i] in existing;
    var rows := seq(|refs|, i requires 0 <= i < |refs| => existing[refs[i]]);
    assert forall i :: 0 <= i < |refs| ==> rows[i].brokerRef == Some(refs[i]);
    forall p: Position | p.brokerRef.Some? && p.brokerRef.value in existing && existing[p.brokerRef.value] == p
      ensures p in rows
    {
      assert p.brokerRef.value in refs;
      var i :| 0 <= i < |refs| && refs[i] == p.brokerRef.value;
      assert rows[i] == p;
    }
    stale := Filter(StaleFilter(wantedRefs), rows);
    FilterMembers(StaleFilter(wantedRefs), rows);
    FilterListed(rows, StaleFilter(wantedRefs));
  }

  /** From the table as it is: nothing saved yet. */
  lemma StartStage(rows: Table, nextId: int, wanted: seq<ImportedPosition>, keyOf: KeyOf)
    requires ValidTable(rows, nextId)
    ensures RowsStage(rows, nextId, rows, wanted, keyOf, 0)
  {
    assert wanted[..0] == [];
  }

  lemma StaleListed(rows: Table, nextId: int, existing: map<string, Position>, wantedRefs: set<string>,
      stale: seq<Position>)
    requires ValidTable(rows, nextId) && existing.Keys == RefsIn(rows)
    requires forall ref :: ref in existing ==>
      existing[ref].id in rows && rows[existing[ref].id] == existing[ref] && existing[ref].brokerRef == Some(ref)
    requires forall p :: p in stale <==>
      p.brokerRef.Some? && p.brokerRef.value in existing && existing[p.brokerRef.value] == p && IsStale(p, wantedRefs)
    requires forall i, j :: 0 <= i < j < |stale| ==> stale[i].id != stale[j].id
    ensures StillListed(stale, rows, rows, StaleFilter(wantedRefs))
  {
    forall j | 0 <= j < |stale| ensures Untouched(rows, rows, stale[j].id) && rows[stale[j].id] == stale[j] {
      assert stale[j] in stale;
    }
    forall id | id in rows && IsStale(rows[id], wantedRefs) ensures rows[id] in stale {
      var ref := rows[id].brokerRef.value;
      assert ref in RefsIn(rows);
      assert existing[ref].id == id;
    }
  }

  lemma PlansFiltered(rows: Table, list: seq<Position>)
    requires ListsRows(list, rows)
    ensures StillListed(Filter(IsPlan, list), rows, rows, IsPlan)
  {
    FilterMembers(IsPlan, list);
    FilterListed(list, IsPlan);
    var plans := Filter(IsPlan, list);
    forall j | 0 <= j < |plans|
      ensures Untouched(rows, rows, plans[j].id) && rows[plans[j].id] == plans[j] && IsPlan(plans[j])
    {
      assert plans[j] in plans;
      var i :| 0 <= i < |list| && list[i] == plans[j];
    }
  }

  /** Refs of rows that go: closed ones no longer wanted, and stale open ones nothing took over. */
  function RefsToDelete(existing: map<string, Position>, wantedRefs: set<string>, stale: seq<Position>): set<string> {
    (set ref | ref in existing && ref !in wantedRefs && existing[ref].closedOn.Some?)
    + (set i | 0 <= i < |stale| && stale[i].brokerRef.Some? :: stale[i].brokerRef.value)
  }

  lemma LeftoversDeleted(before: Table, nextId: int, now: Table, wanted: seq<ImportedPosition>, keyOf: KeyOf,
                         existing: map<string, Position>, stale: seq<Position>)
    requires ValidTable(before, nextId) && RowsStage(before, nextId, now, wanted, keyOf, |wanted|)
    requires StillListed(stale, before, now, StaleFilter(Refs(wanted)))
    requires existing.Keys == RefsIn(before)
    requires forall ref :: ref in existing ==>
      existing[ref].id in before && before[existing[ref].id] == existing[ref] && existing[ref].brokerRef == Some(ref)
    ensures var gone := RefsToDelete(existing, Refs(wanted), stale);
      gone !! Refs(wanted) && RefsIn(now) <= Refs(wanted) + gone
  {
    var gone := RefsToDelete(existing, Refs(wanted), stale);
    assert wanted[..|wanted|] == wanted;
    forall r | r in RefsIn(now) && r !in Refs(wanted) ensures r in gone {
      var id :| id in now && now[id].brokerRef == Some(r);
      assert Untouched(before, now, id);
      assert r in RefsIn(before) && existing[r].id == id;
      if before[id].closedOn.None? {
        assert IsStale(before[id], Refs(wanted));
        assert before[id] in stale;
        var j :| 0 <= j < |stale| && stale[j] == before[id];
      }
    }
  }

  /** `_apply` after reconciling: save every wanted position, then drop what is left over. */
  method MergePositions(positions: PositionRepository, wanted: seq<ImportedPosition>, keyOf: KeyOf)
    requires positions.Valid() && RefsDistinct(wanted) && OneOpenPerBook(wanted)
    modifies positions`rows, positions`nextId
    ensures positions.Valid()
    ensures Merged(old(positions.rows), old(positions.nextId), positions.rows, wanted, keyOf)
  {
    ghost var before, nextId := positions.rows, positions.nextId;
    var existing := positions.ByRef();
    var all := positions.All();
    var plans := Filter(IsPlan, all);
    PlansFiltered(before, all);
    var wantedRefs := Refs(wanted);
    var stale := ListStale(existing, wantedRefs);
    StaleListed(before, nextId, existing, wantedRefs, stale);
    StartStage(before, nextId, wanted, keyOf);
    var left, _ := SaveAll(positions, wanted, keyOf, existing.Keys, stale, plans, before, nextId);
    LeftoversDeleted(before, nextId, positions.rows, wanted, keyOf, existing, left);
    ghost var now := positions.rows;
    var gone := RefsToDelete(existing, wantedRefs, left);
    positions.DeleteRefs(gone);
    MergeDone(before, nextId, now, wanted, keyOf, positions.rows, gone);
  }
}

/**
 * src/swingdash/adapters/storage/repos/positions.py: the positions table as a map from id to row,
 * with `broker_ref` unique. Manual rows have no ref; imported rows have one.
 */
module PositionTable {
  import opened Wrappers
  import opened Dates
  import opened Ordering
  import opened Ledger
  import opened Reconciliation

  datatype Source = Manual | Dhan

  datatype Position = Position(
    id: int,
    symbol: string,
    instrumentKey: Option<string>,
    quantity: int,
    entry: real,
    stop: Option<real>,
    initialStop: Option<real>,
    openedOn: Day,
    funding: Funding,
    note: string,
    closedOn: Option<Day>,
    exitPrice: Option<real>,
    source: Source,
    brokerRef: Option<string>,
    plannedQuantity: Option<int>,
    plannedStop: Option<real>,
    charges: real)

  type Table = map<int, Position>

  ghost predicate ValidTable(rows: Table, nextId: int) {
    && (forall id :: id in rows ==> rows[id].id == id && id < nextId)
    && (forall id :: id in rows ==> (rows[id].source == Manual <==> rows[id].brokerRef.None?))
    && (forall i, j :: i in rows && j in rows && rows[i].brokerRef.Some? && rows[i].brokerRef == rows[j].brokerRef ==>
      i == j)
  }

  ghost function RefsIn(rows: Table): set<string> {
    set id | id in rows && rows[id].brokerRef.Some? :: rows[id].brokerRef.value
  }

  /**
   * The UPDATE of `save_imported`: the broker's columns change, the user's stop and plan do not, a note is only
   * filled in.
   */
  function Refreshed(row: Position, p: ImportedPosition, key: Option<string>): Position {
    row.(symbol := p.symbol, instrumentKey := key, quantity := p.quantity, entry := p.entry,
         openedOn := p.openedOn, funding := p.funding, closedOn := p.closedOn, exitPrice := p.exitPrice,
         source := Dhan, brokerRef := Some(p.ref), charges := p.charges,
         note := if row.note == "" then p.note else row.note)
  }

  /** The INSERT of `save_imported`; the columns it does not name default to none. */
  function Inserted(id: int, p: ImportedPosition, key: Option<string>): Position {
    Position(id, p.symbol, key, p.quantity, p.entry, None, None, p.openedOn, p.funding, p.note,
             p.closedOn, p.exitPrice, Dhan, Some(p.ref), None, None, p.charges)
  }

  /** The INSERT of `add`: a manual position, which keeps what it was sized at as its plan. */
  function Entered(id: int, symbol: string, key: Option<string>, quantity: int, entry: real, stop: Option<real>,
      openedOn: Day, note: string, planned: bool, funding: Funding): Position
  {
    Position(id, symbol, key, quantity, entry, stop, stop, openedOn, funding, note, None, None, Manual, None,
             if planned then Some(quantity) else None, if planned then stop else None, 0.0)
  }

  /** The UPDATE of `update`: the plan stays, and so does an initial stop. */
  function Edited(row: Position, quantity: int, entry: real, stop: Option<real>, note: string, openedOn: Day)
    : Position
  {
    row.(quantity := quantity, entry := entry, stop := stop, note := note, openedOn := openedOn,
         initialStop := if row.initialStop.Some? then row.initialStop else stop)
  }

  /** The UPDATE of `close`. */
  function Exited(row: Position, exitPrice: real, closedOn: Day): Position {
    row.(exitPrice := Some(exitPrice), closedOn := Some(closedOn))
  }

  // --- the same, column by column ---------------------------------------------------------------------

  /** What a row was made as: nothing a user does later changes it. */
  ghost predicate SameOrigin(a: Position, b: Position) {
    && a.id == b.id && a.symbol == b.symbol && a.instrumentKey == b.instrumentKey && a.funding == b.funding
    && a.source == b.source && a.brokerRef == b.brokerRef && a.charges == b.charges
    && a.plannedQuantity == b.plannedQuantity && a.plannedStop == b.plannedStop
  }

  /** A row entered by hand: still open, its first stop also its initial one, and a plan only when planned. */
  ghost predicate IsEntry(p: Position, symbol: string, key: Option<string>, quantity: int, entry: real,
      stop: Option<real>, openedOn: Day, note: string, planned: bool, funding: Funding)
  {
    && p.symbol == symbol && p.instrumentKey == key && p.quantity == quantity && p.entry == entry
    && p.stop == stop && p.initialStop == stop && p.openedOn == openedOn && p.funding == funding && p.note == note
    && p.closedOn.None? && p.exitPrice.None? && p.source == Manual && p.brokerRef.None? && p.charges == 0.0
    && (if planned then p.plannedQuantity == Some(quantity) && p.plannedStop == stop
        else p.plannedQuantity.None? && p.plannedStop.None?)
  }

  /** An edit writes the named columns; an initial stop once set is kept, and so is everything else. */
  ghost predicate IsEdit(before: Position, after: Position, quantity: int, entry: real, stop: Option<real>,
      note: string, openedOn: Day)
  {
    && SameOrigin(before, after)
    && after.quantity == quantity && after.entry == entry && after.stop == stop && after.note == note
    && after.openedOn == openedOn && after.closedOn == before.closedOn && after.exitPrice == before.exitPrice
    && (before.initialStop.Some? ==> after.initialStop == before.initialStop)
    && (before.initialStop.None? ==> after.initialStop == stop)
  }

  /** An exit writes its price and day and nothing else. */
  ghost predicate IsExit(before: Position, after: Position, exitPrice: real, closedOn: Day) {
    && SameOrigin(before, after)
    && after.exitPrice == Some(exitPrice) && after.closedOn == Some(closedOn)
    && after.quantity == before.quantity && after.entry == before.entry && after.stop == before.stop
    && after.initialStop == before.initialStop && after.openedOn == before.openedOn && after.note == before.note
  }

  /** One row may differ; every other is there as before. */
  ghost predicate OnlyRow(before: Table, after: Table, id: int) {
    forall other :: other != id ==>
      (other in after <==> other in before) && (other in before ==> after[other] == before[other])
  }

  function Saved(rows: Table, id: int, p: ImportedPosition, key: Option<string>): Position {
    if id in rows then Refreshed(rows[id], p, key) else Inserted(id, p, key)
  }

  /** `ORDER BY`: the open rows by day, before the closed rows by exit, most recent exit first. */
  predicate PositionLe(a: Position, b: Position) {
    if a.closedOn.None? then
      b.closedOn.Some? || a.openedOn < b.openedOn || (a.openedOn == b.openedOn && a.id <= b.id)
    else
      b.closedOn.Some?
      && (a.closedOn.value > b.closedOn.value || (a.closedOn.value == b.closedOn.value && a.id <= b.id))
  }

  /** A row other than this one holds the ref. */
  predicate RefTaken(rows: Table, ref: string, id: int) {
    exists other :: other in rows && other != id && rows[other].brokerRef == Some(ref)
  }

  ghost predicate ListsRows(list: seq<Position>, rows: Table) {
    && (forall i :: 0 <= i < |list| ==> list[i].id in rows && rows[list[i].id] == list[i])
    && (forall id :: id in rows ==> rows[id] in list)
    && (forall i, j :: 0 <= i < j < |list| ==> list[i].id != list[j].id)
  }

  lemma ListsRowsPermuted(a: seq<Position>, b: seq<Position>, rows: Table)
    requires ListsRows(a, rows) && multiset(a) == multiset(b)
    ensures ListsRows(b, rows)
  {
    MultisetMembers(a, b);
    assert forall i :: 0 <= i < |b| ==> b[i] in b;
    forall i, j | 0 <= i < j < |b| ensures b[i].id != b[j].id {
      if b[i].id == b[j].id {
        assert b[i] in a && b[j] in a;
        RepeatedTwice(b, i, j);
        DistinctOnce(a, b[i]);
        assert false;
      }
    }
  }

  lemma PositionOrder()
    ensures Total(PositionLe) && Transitive(PositionLe)
  {}

  method ListRows(rows: Table) returns (list: seq<Position>)
    requires forall id :: id in rows ==> rows[id].id == id
    ensures ListsRows(list, rows)
  {
    var ids := ListSet(rows.Keys);
    assert forall i :: 0 <= i < |ids| ==> ids[i] in ids && ids[i] in rows;
    list := seq(|ids|, i requires 0 <= i < |ids| => rows[ids[i]]);
    assert forall i :: 0 <= i < |ids| ==> list[i].id == ids[i];
    forall id | id in rows ensures rows[id] in list {
      assert id in ids;
      var i :| 0 <= i < |ids| && ids[i] == id;
      assert list[i] == rows[id];
    }
  }

  class PositionRepository {
    var rows: Table
    var nextId: int
    /** Refs the user hid: `broker_ignored`. */
    var hidden: set<string>

    ghost predicate Valid()
      reads this
    {
      ValidTable(rows, nextId)
    }

    /** Every position, in the order the tab shows them. */
    method All() returns (list: seq<Position>)
      requires Valid()
      ensures ListsRows(list, rows) && Sorted(PositionLe, list)
    {
      var unsorted := ListRows(rows);
      list := SortBy(PositionLe, unsorted);
      SortByPermutes(PositionLe, unsorted);
      ListsRowsPermuted(unsorted, list, rows);
      assert Sorted(PositionLe, list) by {
        PositionOrder();
        SortBySorted(PositionLe, unsorted);
      }
    }

    method Add(symbol: string, key: Option<string>, quantity: int, entry: real, stop: Option<real>, openedOn: Day,
        note: string, planned: bool, funding: Funding)
      returns (id: int)
      requires Valid()
      modifies this`rows, this`nextId
      ensures Valid() && id == old(nextId) && id !in old(rows) && nextId == id + 1
      ensures rows == old(rows)[id := Entered(id, symbol, key, quantity, entry, stop, openedOn, note, planned, funding)]
      ensures OnlyRow(old(rows), rows, id) && id in rows
        && IsEntry(rows[id], symbol, key, quantity, entry, stop, openedOn, note, planned, funding)
    {
      id := nextId;
      rows := rows[id := Entered(id, symbol, key, quantity, entry, stop, openedOn, note, planned, funding)];
      nextId := nextId + 1;
    }

    method Update(id: int, quantity: int, entry: real, stop: Option<real>, note: string, openedOn: Day)
      requires Valid()
      modifies this`rows
      ensures Valid()
      ensures rows ==
        if id in old(rows) then old(rows)[id := Edited(old(rows)[id], quantity, entry, stop, note, openedOn)]
        else old(rows)
      ensures OnlyRow(old(rows), rows, id) && (id in rows <==> id in old(rows))
      ensures id in old(rows) ==> IsEdit(old(rows)[id], rows[id], quantity, entry, stop, note, openedOn)
    {
      if id in rows {
        rows := rows[id := Edited(rows[id], quantity, entry, stop, note, openedOn)];
      }
    }

    method Close(id: int, exitPrice: real, closedOn: Day)
      requires Valid()
      modifies this`rows
      ensures Valid()
      ensures rows == if id in old(rows) then old(rows)[id := Exited(old(rows)[id], exitPrice, closedOn)] else old(rows)
      ensures OnlyRow(old(rows), rows, id) && (id in rows <==> id in old(rows))
      ensures id in old(rows) ==> IsExit(old(rows)[id], rows[id], exitPrice, closedOn)
    {
      if id in rows {
        rows := rows[id := Exited(rows[id], exitPrice, closedOn)];
      }
    }

    /** The imported rows by ref. */
    function ByRef(): (found: map<string, Position>)
      requires Valid()
      reads this
      ensures found.Keys == RefsIn(rows)
      ensures forall ref :: ref in found ==>
        found[ref].id in rows && rows[found[ref].id] == found[ref] && found[ref].brokerRef == Some(ref)
    {
      map id | id in rows && rows[id].source == Dhan && rows[id].brokerRef.Some? :: rows[id].brokerRef.value := rows[id]
    }

    /** `SELECT id ... WHERE broker_ref = ?`. */
    method FindRef(ref: string) returns (id: Option<int>)
      requires Valid()
      ensures id.Some? ==> id.value in rows && rows[id.value].brokerRef == Some(ref)
      ensures id.None? ==> ref !in RefsIn(rows)
    {
      var found := ByRef();
      id := if ref in found then Some(found[ref].id) else None;
    }

    /**
     * Inserts or refreshes an imported row. `into` is an existing row to turn into this import; an id
     * that is not there updates nothing. When another row holds the ref, the unique index refuses the
     * update and nothing changes.
     */
    method SaveImported(p: ImportedPosition, key: Option<string>, into: Option<int>) returns (saved: Option<int>)
      requires Valid()
      modifies this`rows, this`nextId
      ensures Valid()
      ensures saved.None? <==> into.Some? && into.value in old(rows) && RefTaken(old(rows), p.ref, into.value)
      ensures saved.Some? && into.Some? ==> saved == into
      ensures into.None? && p.ref in RefsIn(old(rows)) ==>
        saved.value in old(rows) && old(rows)[saved.value].brokerRef == Some(p.ref)
      ensures into.None? && p.ref !in RefsIn(old(rows)) ==> saved == Some(old(nextId)) && old(nextId) !in old(rows)
      ensures rows == if saved.None? || (into.Some? && into.value !in old(rows)) then old(rows)
        else old(rows)[saved.value := Saved(old(rows), saved.value, p, key)]
      ensures nextId == if into.None? && p.ref !in RefsIn(old(rows)) then old(nextId) + 1 else old(nextId)
    {
      var target := into;
      if target.None? {
        target := FindRef(p.ref);
      }
      if target.None? {
        rows := rows[nextId := Inserted(nextId, p, key)];
        nextId := nextId + 1;
        return Some(nextId - 1);
      }
      var id := target.value;
      if id in rows {
        if RefTaken(rows, p.ref, id) {
          return None;
        }
        rows := rows[id := Refreshed(rows[id], p, key)];
      }
      saved := target;
    }

    method DeleteRefs(refs: set<string>)
      requires Valid()
      modifies this`rows
      ensures Valid()
      ensures rows == map id |
        id in old(rows) && !(old(rows)[id].brokerRef.Some? && old(rows)[id].brokerRef.value in refs) :: old(rows)[id]
    {
      assert forall id :: id in rows && rows[id].brokerRef.Some? ==> rows[id].source == Dhan;
      rows := map id |
        id in rows && !(rows[id].source == Dhan && rows[id].brokerRef.Some? && rows[id].brokerRef.value in refs) ::
        rows[id];
    }
  }
}

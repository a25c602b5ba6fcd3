/**
 * What the merge in `_apply` of src/swingdash/services/dhan_sync.py may do to the positions table,
 * stated on tables: `Merged` relates the table before and after, `Stage` holds while it runs.
 */
module DhanMerge {
  import opened Wrappers
  import opened Ledger
  import opened Reconciliation
  import opened BrokerRefs
  import opened PositionTable

  // How far apart, in days, a plan and the buy that fulfils it may lie.
  const PLAN_LINK_DAYS := 5

  function Refs(wanted: seq<ImportedPosition>): set<string> {
    set i | 0 <= i < |wanted| :: wanted[i].ref
  }

  /** An open, sized, manual position. */
  predicate IsPlan(p: Position) {
    p.closedOn.None? && p.source == Manual && p.plannedQuantity.Some?
  }

  function Gap(plan: Position, w: ImportedPosition): nat {
    if plan.openedOn >= w.openedOn then plan.openedOn - w.openedOn else w.openedOn - plan.openedOn
  }

  predicate Matches(plan: Position, w: ImportedPosition) {
    plan.symbol == w.symbol && Gap(plan, w) <= PLAN_LINK_DAYS
  }

  /** `_matching_plan`: of the plans for the same stock close enough to the buy, the closest; the first of equals. */
  function MatchingPlan(w: ImportedPosition, plans: seq<Position>): (r: Option<nat>)
    ensures r.None? ==> forall i :: 0 <= i < |plans| ==> !Matches(plans[i], w)
    ensures r.Some? ==> r.value < |plans| && Matches(plans[r.value], w)
    ensures r.Some? ==> forall i :: 0 <= i < |plans| && Matches(plans[i], w) ==>
      Gap(plans[r.value], w) < Gap(plans[i], w) || (Gap(plans[r.value], w) == Gap(plans[i], w) && r.value <= i)
  {
    if plans == [] then None
    else
      var front, last := plans[..|plans| - 1], plans[|plans| - 1];
      assert plans == front + [last];
      var best := MatchingPlan(w, front);
      if Matches(last, w) && (best.None? || Gap(last, w) < Gap(front[best.value], w)) then Some(|plans| - 1)
      else best
  }

  /** An open imported row that no wanted position names. */
  predicate IsStale(p: Position, wantedRefs: set<string>) {
    p.closedOn.None? && p.source == Dhan && p.brokerRef.Some? && p.brokerRef.value !in wantedRefs
  }

  predicate SameHolding(p: Position, w: ImportedPosition) {
    p.symbol == w.symbol && p.funding == w.funding
  }

  ghost predicate HasStale(before: Table, wantedRefs: set<string>, w: ImportedPosition) {
    exists s :: s in before && IsStale(before[s], wantedRefs) && SameHolding(before[s], w)
  }

  /**
   * Where a wanted position lands: the row already holding its ref; for a new open one, a stale open
   * row of the same stock and funding, else the closest matching plan, else a new row. `now` is the
   * table whose remaining plans no closer one may be left in.
   */
  ghost predicate Placed(before: Table, now: Table, wantedRefs: set<string>, id: int, w: ImportedPosition) {
    if w.ref in RefsIn(before) then
      id in before && before[id].brokerRef == Some(w.ref)
    else if w.closedOn.Some? then
      id !in before
    else if HasStale(before, wantedRefs, w) then
      id in before && IsStale(before[id], wantedRefs) && SameHolding(before[id], w)
    else
      && (id in before ==> IsPlan(before[id]) && Matches(before[id], w))
      && (forall q :: q in now && IsPlan(now[q]) && Matches(now[q], w) ==>
            id in before && Gap(before[id], w) <= Gap(now[q], w))
  }

  type KeyOf = string -> Option<string>

  ghost predicate Merged(before: Table, nextId: int, after: Table, wanted: seq<ImportedPosition>, keyOf: KeyOf) {
    // the stored refs are the wanted ones
    && RefsIn(after) == Refs(wanted)
    // each on a row refreshed from what it was, placed as above
    && (forall id, k :: id in after && 0 <= k < |wanted| && after[id].brokerRef == Some(wanted[k].ref) ==>
          after[id] == Saved(before, id, wanted[k], keyOf(wanted[k].symbol))
          && Placed(before, after, Refs(wanted), id, wanted[k]))
    // what is still manual is untouched, and nothing manual or still wanted is removed
    && (forall id :: id in after && after[id].brokerRef.None? ==> id in before && after[id] == before[id])
    && (forall id :: id in before && (before[id].brokerRef.None? || before[id].brokerRef.value in Refs(wanted)) ==>
      id in after)
    && (forall id :: id in after && id !in before ==> nextId <= id)
  }

  // --- while it runs -------------------------------------------------------------------------

  ghost predicate Untouched(before: Table, now: Table, id: int) {
    id in before && id in now && now[id] == before[id]
  }

  /** The rows holding one of the first `i` refs are those positions, where they belong. */
  ghost predicate SavedSoFar(before: Table, now: Table, wanted: seq<ImportedPosition>, keyOf: KeyOf, i: nat)
    requires i <= |wanted|
  {
    forall id, k :: id in now && 0 <= k < i && now[id].brokerRef == Some(wanted[k].ref) ==>
      && now[id] == Saved(before, id, wanted[k], keyOf(wanted[k].symbol))
      && Placed(before, now, Refs(wanted), id, wanted[k])
  }

  /** The row holds none of the refs. */
  ghost predicate Without(row: Position, refs: set<string>) {
    row.brokerRef.None? || row.brokerRef.value !in refs
  }

  ghost predicate RestUntouched(before: Table, now: Table, refs: set<string>) {
    forall id :: id in now && Without(now[id], refs) ==> Untouched(before, now, id)
  }

  ghost predicate RowsStage(before: Table, nextId: int, now: Table, wanted: seq<ImportedPosition>, keyOf: KeyOf, i: nat)
    requires i <= |wanted|
  {
    && (forall id :: id in before ==> id in now)
    && SavedSoFar(before, now, wanted, keyOf, i)
    && RestUntouched(before, now, Refs(wanted[..i]))
    && Refs(wanted[..i]) <= RefsIn(now)
    && (forall id :: id in now && id !in before ==> nextId <= id)
  }

  /** The rows of `before` that satisfy a filter and are still as they were, each listed once. */
  ghost predicate StillListed(list: seq<Position>, before: Table, now: Table, filter: Position -> bool) {
    && (forall j :: 0 <= j < |list| ==>
      Untouched(before, now, list[j].id) && before[list[j].id] == list[j] && filter(list[j]))
    && (forall id :: Untouched(before, now, id) && filter(before[id]) ==> before[id] in list)
    && (forall i, j :: 0 <= i < j < |list| ==> list[i].id != list[j].id)
  }

  lemma RefsSnoc(wanted: seq<ImportedPosition>, i: nat)
    requires i < |wanted|
    ensures Refs(wanted[..i + 1]) == Refs(wanted[..i]) + {wanted[i].ref}
  {
    var next := wanted[..i + 1];
    forall r ensures r in Refs(next) <==> r in Refs(wanted[..i]) + {wanted[i].ref} {
      if r in Refs(next) {
        var k :| 0 <= k < |next| && next[k].ref == r;
        assert k < i ==> wanted[..i][k].ref == r;
      }
      if r in Refs(wanted[..i]) {
        var k :| 0 <= k < i && wanted[..i][k].ref == r;
        assert next[k].ref == r;
      }
      assert next[i].ref == wanted[i].ref;
    }
  }

  lemma RefsPrefix(wanted: seq<ImportedPosition>, i: nat)
    requires i < |wanted| && RefsDistinct(wanted)
    ensures wanted[i].ref !in Refs(wanted[..i]) && wanted[i].ref in Refs(wanted)
    ensures Refs(wanted[..i]) <= Refs(wanted)
  {
    forall r | r in Refs(wanted[..i]) ensures r in Refs(wanted) && r != wanted[i].ref {
      var k :| 0 <= k < i && wanted[..i][k].ref == r;
      assert wanted[k].ref == r;
    }
  }

  /** Fewer plans left to beat only makes a placement easier to keep. */
  lemma PlacedKept(before: Table, now: Table, now': Table, wantedRefs: set<string>, id: int, w: ImportedPosition)
    requires Placed(before, now, wantedRefs, id, w)
    requires forall q :: q in now' && IsPlan(now'[q]) ==> q in now && now[q] == now'[q]
    ensures Placed(before, now', wantedRefs, id, w)
  {}

  /** `now` with the next wanted position saved into an untouched row or a new one. */
  ghost predicate NextSaved(
      before: Table, nextId: int, now: Table, wanted: seq<ImportedPosition>, keyOf: KeyOf, i: nat, id: int,
      after: Table)
    requires i < |wanted|
  {
    && (if id in now then Untouched(before, now, id) && Without(now[id], Refs(wanted[..i]))
        else nextId <= id && id !in before)
    && after == now[id := Saved(now, id, wanted[i], keyOf(wanted[i].symbol))]
    && (forall j :: j in now && now[j].brokerRef == Some(wanted[i].ref) ==> j == id)
  }

  lemma SavedSoFarStep(
      before: Table, nextId: int, now: Table, wanted: seq<ImportedPosition>, keyOf: KeyOf, i: nat, id: int,
      after: Table)
    requires i < |wanted| && RefsDistinct(wanted) && NextSaved(before, nextId, now, wanted, keyOf, i, id, after)
    requires SavedSoFar(before, now, wanted, keyOf, i) && Placed(before, after, Refs(wanted), id, wanted[i])
    ensures SavedSoFar(before, after, wanted, keyOf, i + 1)
  {
    forall j, k | j in after && 0 <= k < i + 1 && after[j].brokerRef == Some(wanted[k].ref)
      ensures after[j] == Saved(before, j, wanted[k], keyOf(wanted[k].symbol))
      ensures Placed(before, after, Refs(wanted), j, wanted[k])
    {
      if j == id {
        assert wanted[k].ref == wanted[i].ref;
        assert k == i;
      } else {
        assert k < i;
        PlacedKept(before, now, after, Refs(wanted), j, wanted[k]);
      }
    }
  }

  lemma RestStep(
      before: Table, nextId: int, now: Table, wanted: seq<ImportedPosition>, keyOf: KeyOf, i: nat, id: int,
      after: Table)
    requires i < |wanted| && NextSaved(before, nextId, now, wanted, keyOf, i, id, after)
    requires RestUntouched(before, now, Refs(wanted[..i]))
    ensures RestUntouched(before, after, Refs(wanted[..i + 1]))
  {
    RefsSnoc(wanted, i);
    forall j | j in after && Without(after[j], Refs(wanted[..i + 1])) ensures Untouched(before, after, j) {
      assert after[id].brokerRef == Some(wanted[i].ref);
      assert j != id && Without(now[j], Refs(wanted[..i]));
    }
  }

  lemma RefsStep(
      before: Table, nextId: int, now: Table, wanted: seq<ImportedPosition>, keyOf: KeyOf, i: nat, id: int,
      after: Table)
    requires i < |wanted| && NextSaved(before, nextId, now, wanted, keyOf, i, id, after)
    requires Refs(wanted[..i]) <= RefsIn(now)
    ensures Refs(wanted[..i + 1]) <= RefsIn(after)
  {
    RefsSnoc(wanted, i);
    assert after[id].brokerRef == Some(wanted[i].ref);
    forall r | r in Refs(wanted[..i]) ensures r in RefsIn(after) {
      assert r in RefsIn(now);
      var j :| j in now && now[j].brokerRef == Some(r);
      assert j != id ==> after[j].brokerRef == Some(r);
    }
  }

  /** Saving the next wanted position into an untouched row, or a new one, advances the stage. */
  lemma StageStep(
      before: Table, nextId: int, now: Table, wanted: seq<ImportedPosition>, keyOf: KeyOf, i: nat, id: int,
      after: Table)
    requires i < |wanted| && RefsDistinct(wanted)
    requires RowsStage(before, nextId, now, wanted, keyOf, i)
    requires NextSaved(before, nextId, now, wanted, keyOf, i, id, after)
    requires Placed(before, after, Refs(wanted), id, wanted[i])
    ensures RowsStage(before, nextId, after, wanted, keyOf, i + 1)
  {
    SavedSoFarStep(before, nextId, now, wanted, keyOf, i, id, after);
    RestStep(before, nextId, now, wanted, keyOf, i, id, after);
    RefsStep(before, nextId, now, wanted, keyOf, i, id, after);
  }

  /** A stale row already moved was moved to a wanted open position of its own stock and funding. */
  lemma StaleLeft(before: Table, nextId: int, now: Table, wanted: seq<ImportedPosition>, keyOf: KeyOf, i: nat, s: int)
    requires i < |wanted| && OneOpenPerBook(wanted)
    requires RowsStage(before, nextId, now, wanted, keyOf, i)
    requires s in before && IsStale(before[s], Refs(wanted))
    requires wanted[i].closedOn.None? && SameHolding(before[s], wanted[i])
    ensures Untouched(before, now, s)
  {
    forall k | 0 <= k < i ensures now[s].brokerRef != Some(wanted[k].ref) {
      var w := wanted[k];
      assert w.ref in Refs(wanted);
      assert now[s].brokerRef == Some(w.ref) ==> Placed(before, now, Refs(wanted), s, w);
    }
    assert now[s].brokerRef.None? || now[s].brokerRef.value !in Refs(wanted[..i]);
  }

  /** Once every wanted position is saved and the leftovers are deleted, the tables are merged. */
  lemma MergeDone(before: Table, nextId: int, now: Table, wanted: seq<ImportedPosition>, keyOf: KeyOf, after: Table,
      gone: set<string>)
    requires RowsStage(before, nextId, now, wanted, keyOf, |wanted|)
    requires gone !! Refs(wanted) && RefsIn(now) <= Refs(wanted) + gone
    requires after == map id | id in now && !(now[id].brokerRef.Some? && now[id].brokerRef.value in gone) :: now[id]
    ensures Merged(before, nextId, after, wanted, keyOf)
  {
    assert wanted[..|wanted|] == wanted;
    forall r ensures r in RefsIn(after) <==> r in Refs(wanted) {
      if r in Refs(wanted) {
        var id :| id in now && now[id].brokerRef == Some(r);
        assert after[id].brokerRef == Some(r);
      }
    }
    forall id, k | id in after && 0 <= k < |wanted| && after[id].brokerRef == Some(wanted[k].ref)
      ensures after[id] == Saved(before, id, wanted[k], keyOf(wanted[k].symbol))
      ensures Placed(before, after, Refs(wanted), id, wanted[k])
    {
      PlacedKept(before, now, after, Refs(wanted), id, wanted[k]);
    }
  }

  // --- what a merge means ------------------------------------------------------------------------

  /** The user's stop, plan and note survive on every row the merge keeps, whichever ref it now holds. */
  lemma UserColumnsKept(before: Table, nextId: int, after: Table, wanted: seq<ImportedPosition>, keyOf: KeyOf, id: int)
    requires Merged(before, nextId, after, wanted, keyOf) && id in before && id in after
    ensures after[id].stop == before[id].stop && after[id].initialStop == before[id].initialStop
    ensures after[id].plannedQuantity == before[id].plannedQuantity && after[id].plannedStop == before[id].plannedStop
    ensures before[id].note != "" ==> after[id].note == before[id].note
  {
    if after[id].brokerRef.Some? {
      assert after[id].brokerRef.value in RefsIn(after);
      var k :| 0 <= k < |wanted| && wanted[k].ref == after[id].brokerRef.value;
      assert after[id] == Saved(before, id, wanted[k], keyOf(wanted[k].symbol));
    }
  }

  /** Every wanted position is on exactly one row, with the broker's figures. */
  lemma OneRowEach(before: Table, nextId: int, after: Table, next: int, wanted: seq<ImportedPosition>, keyOf: KeyOf,
      k: nat)
    returns (id: int)
    requires Merged(before, nextId, after, wanted, keyOf) && ValidTable(after, next) && k < |wanted|
    ensures id in after && after[id].brokerRef == Some(wanted[k].ref)
    ensures forall other :: other in after && after[other].brokerRef == Some(wanted[k].ref) ==> other == id
    ensures after[id].symbol == wanted[k].symbol && after[id].funding == wanted[k].funding
    ensures after[id].quantity == wanted[k].quantity && after[id].entry == wanted[k].entry
    ensures after[id].openedOn == wanted[k].openedOn && after[id].closedOn == wanted[k].closedOn
    ensures after[id].exitPrice == wanted[k].exitPrice && after[id].charges == wanted[k].charges
    ensures after[id].source == Dhan && after[id].instrumentKey == keyOf(wanted[k].symbol)
    ensures after[id].note == if id in before && before[id].note != "" then before[id].note else wanted[k].note
    // a ref stays on its row; a new closed position starts one, with no stop and no plan
    ensures wanted[k].ref in RefsIn(before) ==> id in before && before[id].brokerRef == Some(wanted[k].ref)
    ensures wanted[k].ref !in RefsIn(before) && wanted[k].closedOn.Some? ==> id !in before
    ensures id !in before ==>
      && after[id].stop.None? && after[id].initialStop.None?
      && after[id].plannedQuantity.None? && after[id].plannedStop.None?
  {
    assert wanted[k].ref in Refs(wanted);
    id :| id in after && after[id].brokerRef == Some(wanted[k].ref);
    assert Placed(before, after, Refs(wanted), id, wanted[k]);
  }

  /** An open import of the same stock and funding whose ref is no longer wanted. */
  ghost predicate Superseded(p: Position, w: ImportedPosition, wantedRefs: set<string>) {
    && p.closedOn.None? && p.source == Dhan && p.brokerRef.Some? && p.brokerRef.value !in wantedRefs
    && p.symbol == w.symbol && p.funding == w.funding
  }

  /** An open manual position sized for this stock, at most five days before or after the buy. */
  ghost predicate PlansFor(p: Position, w: ImportedPosition) {
    && p.closedOn.None? && p.source == Manual && p.plannedQuantity.Some? && p.symbol == w.symbol
    && -5 <= p.openedOn - w.openedOn <= 5
  }

  /** Row `id` now holds the ref of wanted position `k`, and did not before. */
  ghost predicate TakesRef(before: Table, after: Table, wanted: seq<ImportedPosition>, id: int, k: nat)
    requires id in before && id in after && k < |wanted|
  {
    after[id].brokerRef == Some(wanted[k].ref) && before[id].brokerRef != Some(wanted[k].ref)
  }

  /** A row changes its ref only for a new open position: one it was planned for, or one that supersedes it. */
  lemma RefMoves(before: Table, nextId: int, after: Table, wanted: seq<ImportedPosition>, keyOf: KeyOf, id: int, k: nat)
    requires Merged(before, nextId, after, wanted, keyOf) && id in before && id in after && k < |wanted|
    requires TakesRef(before, after, wanted, id, k)
    ensures wanted[k].closedOn.None? && wanted[k].ref !in RefsIn(before)
    ensures Superseded(before[id], wanted[k], Refs(wanted)) || PlansFor(before[id], wanted[k])
  {
    assert Placed(before, after, Refs(wanted), id, wanted[k]);
  }

  /** A manual row is never lost, and changes only by becoming the import of a position it was planned for. */
  lemma ManualRowsKept(before: Table, nextId: int, after: Table, wanted: seq<ImportedPosition>, keyOf: KeyOf, id: int)
    requires Merged(before, nextId, after, wanted, keyOf) && ValidTable(before, nextId)
    requires id in before && before[id].source == Manual
    ensures id in after
    ensures after[id] == before[id]
      || exists k :: 0 <= k < |wanted| && TakesRef(before, after, wanted, id, k) && PlansFor(before[id], wanted[k])
  {
    if after[id].brokerRef.Some? {
      assert after[id].brokerRef.value in RefsIn(after);
      var k :| 0 <= k < |wanted| && wanted[k].ref == after[id].brokerRef.value;
      RefMoves(before, nextId, after, wanted, keyOf, id, k);
    }
  }

  /** The new open position `w` took over a stale row of its stock and funding. */
  ghost predicate TookOver(before: Table, after: Table, wantedRefs: set<string>, w: ImportedPosition) {
    exists id ::
      && id in before && id in after && Superseded(before[id], w, wantedRefs)
      && after[id].brokerRef == Some(w.ref)
  }

  /**
   * An imported row goes only when its ref is no longer wanted and every new position of its holding took
   * another stale row.
   */
  lemma ImportedRowsKept(before: Table, nextId: int, after: Table, next: int, wanted: seq<ImportedPosition>,
      keyOf: KeyOf, id: int, k: nat)
    requires Merged(before, nextId, after, wanted, keyOf) && ValidTable(before, nextId) && ValidTable(after, next)
    requires id in before && before[id].source == Dhan && id !in after
    ensures before[id].brokerRef.value !in Refs(wanted)
    ensures k < |wanted| && wanted[k].ref !in RefsIn(before) && wanted[k].closedOn.None?
            && Superseded(before[id], wanted[k], Refs(wanted))
            ==> TookOver(before, after, Refs(wanted), wanted[k])
  {
    if k < |wanted| && wanted[k].ref !in RefsIn(before) && wanted[k].closedOn.None?
       && Superseded(before[id], wanted[k], Refs(wanted))
    {
      var other := OneRowEach(before, nextId, after, next, wanted, keyOf, k);
      assert IsStale(before[id], Refs(wanted)) && SameHolding(before[id], wanted[k]);
      assert Placed(before, after, Refs(wanted), other, wanted[k]);
    }
  }

  /**
   * A holding whose ref changed keeps its row: the one stale row of the stock takes the new ref, with stop and
   * plan.
   */
  lemma StopFollows(before: Table, nextId: int, after: Table, next: int, wanted: seq<ImportedPosition>, keyOf: KeyOf,
      id: int, k: nat)
    requires Merged(before, nextId, after, wanted, keyOf) && ValidTable(after, next)
    requires k < |wanted| && wanted[k].ref !in RefsIn(before) && wanted[k].closedOn.None?
    requires id in before && Superseded(before[id], wanted[k], Refs(wanted))
    requires forall s :: s in before && Superseded(before[s], wanted[k], Refs(wanted)) ==> s == id
    ensures id in after && after[id].brokerRef == Some(wanted[k].ref)
    ensures after[id].stop == before[id].stop && after[id].initialStop == before[id].initialStop
    ensures after[id].plannedQuantity == before[id].plannedQuantity && after[id].plannedStop == before[id].plannedStop
  {
    var row := OneRowEach(before, nextId, after, next, wanted, keyOf, k);
    assert IsStale(before[id], Refs(wanted)) && SameHolding(before[id], wanted[k]);
    assert Placed(before, after, Refs(wanted), row, wanted[k]);
    assert Superseded(before[row], wanted[k], Refs(wanted));
    UserColumnsKept(before, nextId, after, wanted, keyOf, id);
  }

  /** Days between two days. */
  function Away(a: int, b: int): int {
    if a < b then b - a else a - b
  }

  /**
   * A buy that was planned for keeps the plan: unless an older import of its holding took it over, a plan near it
   * either became an import itself, or the buy is on a plan at least as close.
   */
  lemma PlanFollows(before: Table, nextId: int, after: Table, next: int, wanted: seq<ImportedPosition>, keyOf: KeyOf,
      id: int, k: nat)
    returns (row: int)
    requires Merged(before, nextId, after, wanted, keyOf) && ValidTable(before, nextId) && ValidTable(after, next)
    requires k < |wanted| && wanted[k].ref !in RefsIn(before) && wanted[k].closedOn.None?
    requires forall s :: s in before ==> !Superseded(before[s], wanted[k], Refs(wanted))
    requires id in before && PlansFor(before[id], wanted[k])
    ensures id in after && (after[id] == before[id] ==>
      && row in before && row in after && after[row].brokerRef == Some(wanted[k].ref)
      && PlansFor(before[row], wanted[k])
      && Away(before[row].openedOn, wanted[k].openedOn) <= Away(before[id].openedOn, wanted[k].openedOn)
      && after[row].plannedQuantity == before[row].plannedQuantity && after[row].stop == before[row].stop)
  {
    row := OneRowEach(before, nextId, after, next, wanted, keyOf, k);
    assert Placed(before, after, Refs(wanted), row, wanted[k]);
    assert forall s :: s in before && IsStale(before[s], Refs(wanted)) ==> !SameHolding(before[s], wanted[k]);
    if after[id] == before[id] {
      assert IsPlan(after[id]) && Matches(after[id], wanted[k]);
      UserColumnsKept(before, nextId, after, wanted, keyOf, row);
    }
  }

  // --- merging again ---------------------------------------------------------------------------------

  /** The table already holds exactly the wanted positions, up to date. */
  ghost predicate Settled(rows: Table, wanted: seq<ImportedPosition>, keyOf: KeyOf) {
    && RefsIn(rows) == Refs(wanted)
    && forall id, k :: id in rows && 0 <= k < |wanted| && rows[id].brokerRef == Some(wanted[k].ref) ==>
         rows[id] == Refreshed(rows[id], wanted[k], keyOf(wanted[k].symbol))
  }

  lemma MergedSettles(before: Table, nextId: int, after: Table, wanted: seq<ImportedPosition>, keyOf: KeyOf)
    requires Merged(before, nextId, after, wanted, keyOf)
    ensures Settled(after, wanted, keyOf)
  {
    forall id, k | id in after && 0 <= k < |wanted| && after[id].brokerRef == Some(wanted[k].ref)
      ensures after[id] == Refreshed(after[id], wanted[k], keyOf(wanted[k].symbol))
    {
      assert after[id] == Saved(before, id, wanted[k], keyOf(wanted[k].symbol));
    }
  }

  /** A settled table is a fixed point: merging the same positions again changes no row. */
  lemma SettledUnchanged(before: Table, nextId: int, after: Table, wanted: seq<ImportedPosition>, keyOf: KeyOf)
    requires Settled(before, wanted, keyOf) && Merged(before, nextId, after, wanted, keyOf)
    ensures after == before
  {
    forall id ensures id in after <==> id in before
      ensures id in after ==> after[id] == before[id]
    {
      if id in before && before[id].brokerRef.Some? {
        assert before[id].brokerRef.value in RefsIn(before);
      }
      if id in after && after[id].brokerRef.Some? {
        assert after[id].brokerRef.value in RefsIn(after);
        var k :| 0 <= k < |wanted| && wanted[k].ref == after[id].brokerRef.value;
        assert Placed(before, after, Refs(wanted), id, wanted[k]);
        assert before[id] == Refreshed(before[id], wanted[k], keyOf(wanted[k].symbol));
      }
    }
  }
}

/**
 * The regression triage lifecycle of lnt/server/ui/regression_views.py: a
 * store of field changes, regressions, regression indicators (which link a
 * regression to a field change) and ignored changes, and the POST handlers
 * that create, ignore, merge, edit, split and delete, each one atomic step
 * that ends at its commit.
 */
module Regressions {
  import opened Wrappers
  import opened Ordering
  import opened Comparison

  datatype Regression = Regression(title: string, bug: string, state: int)

  /** A RegressionIndicator row: the regression it belongs to and the field change it points at. */
  datatype Indicator = Indicator(regressionId: int, fieldChangeId: int)

  /** The `limit(500)` of the untriaged listing. */
  const UntriagedLimit := 500

  // ---------------------------------------------------------------------
  // Views of the tables
  // ---------------------------------------------------------------------

  /** The field changes that carry an indicator. */
  function AllChanges(inds: map<int, Indicator>): set<int> {
    set i | i in inds :: inds[i].fieldChangeId
  }

  /** The field changes owned by the regressions `rids`. */
  function Owned(inds: map<int, Indicator>, rids: set<int>): set<int> {
    set i | i in inds && inds[i].regressionId in rids :: inds[i].fieldChangeId
  }

  /** The indicators of the regressions `rids`. */
  function IndicatorsOf(inds: map<int, Indicator>, rids: set<int>): set<int> {
    set i | i in inds && inds[i].regressionId in rids
  }

  /** The indicators pointing at one of the field changes `fcs`, whatever their regression. */
  function IndicatorsOn(inds: map<int, Indicator>, fcs: set<int>): set<int> {
    set i | i in inds && inds[i].fieldChangeId in fcs
  }

  /** The field changes the indicators `ids` point at. */
  function ChangesOf(inds: map<int, Indicator>, ids: set<int>): set<int> {
    set i | i in ids && i in inds :: inds[i].fieldChangeId
  }

  /** The invariant of the triage store: no field change has two indicators. */
  ghost predicate OneIndicatorPerChange(inds: map<int, Indicator>) {
    forall i, j :: i in inds && j in inds && i != j ==> inds[i].fieldChangeId != inds[j].fieldChangeId
  }

  /** No field change is ignored twice. */
  ghost predicate OneIgnorePerChange(ignores: map<int, int>) {
    forall i, j :: i in ignores && j in ignores && i != j ==> ignores[i] != ignores[j]
  }

  /** The indicators new_regression creates for regression `rid`: ids rid+1, rid+2, ... in the order of `fcIds`. */
  function NewIndicators(rid: int, fcIds: seq<int>): map<int, Indicator> {
    map k | rid + 1 <= k < rid + 1 + |fcIds| :: IndicatorAt(rid, fcIds, k)
  }

  function IndicatorAt(rid: int, fcIds: seq<int>, k: int): Indicator
    requires rid + 1 <= k < rid + 1 + |fcIds|
  {
    Indicator(rid, fcIds[k - rid - 1])
  }

  /** The ChangeIgnore rows of lines 90-94: ids base, base+1, ... in the order of `fcIds`. */
  function NewIgnores(base: int, fcIds: seq<int>): map<int, int> {
    map k | base <= k < base + |fcIds| :: IgnoreAt(base, fcIds, k)
  }

  function IgnoreAt(base: int, fcIds: seq<int>, k: int): int
    requires base <= k < base + |fcIds|
  {
    fcIds[k - base]
  }

  /** The field change ids of the indicators `ids`, in that order. */
  function FcIdsOf(inds: map<int, Indicator>, ids: seq<int>): (r: seq<int>)
    requires Elems(ids) <= inds.Keys
    ensures |r| == |ids|
    ensures forall k :: 0 <= k < |ids| ==> ids[k] in inds && r[k] == inds[ids[k]].fieldChangeId
  {
    if ids == [] then []
    else
      assert ids[0] in Elems(ids) && Elems(ids[1..]) <= Elems(ids);
      [inds[ids[0]].fieldChangeId] + FcIdsOf(inds, ids[1..])
  }

  ghost function MinOf(s: set<int>): (m: int)
    requires s != {}
    ensures m in s && forall x :: x in s ==> m <= x
  {
    var x := Pick(s);
    if s == {x} then x
    else
      var y := MinOf(s - {x});
      assert forall z :: z in s ==> z == x || z in s - {x};
      if x < y then x else y
  }

  /** The ids of `s` in ascending order, the order the id queries return rows in. */
  ghost function Ascending(s: set<int>): (r: seq<int>)
    ensures StrictlySorted(r, IntLess) && Elems(r) == s
    decreases s
  {
    if s == {} then []
    else
      var m := MinOf(s);
      var rest := Ascending(s - {m});
      assert forall k :: 0 <= k < |rest| ==> rest[k] in Elems(rest);
      PrependSmallest(m, rest);
      [m] + rest
  }

  /** A value below every element of an ascending list can go in front of it. */
  lemma PrependSmallest(m: int, rest: seq<int>)
    requires StrictlySorted(rest, IntLess)
    requires forall k :: 0 <= k < |rest| ==> m < rest[k]
    ensures StrictlySorted([m] + rest, IntLess) && Elems([m] + rest) == {m} + Elems(rest)
  {
    var r := [m] + rest;
    forall i, j | 0 <= i < j < |r| ensures IntLess(r[i], r[j]) {
      assert r[j] == rest[j - 1];
      if i > 0 {
        assert r[i] == rest[i - 1];
      }
    }
  }

  // ---------------------------------------------------------------------
  // Facts about adding and replacing indicators
  // ---------------------------------------------------------------------

  lemma NewIndicatorsFacts(inds: map<int, Indicator>, rid: int, fcIds: seq<int>)
    requires forall i :: i in inds ==> i <= rid && inds[i].regressionId != rid
    ensures inds.Keys !! NewIndicators(rid, fcIds).Keys
    ensures Owned(inds + NewIndicators(rid, fcIds), {rid}) == Elems(fcIds)
    ensures AllChanges(inds + NewIndicators(rid, fcIds)) == AllChanges(inds) + Elems(fcIds)
  {
    var nw := NewIndicators(rid, fcIds);
    var u := inds + nw;
    forall x | x in Elems(fcIds) ensures x in Owned(u, {rid}) && x in AllChanges(u) {
      var k :| 0 <= k < |fcIds| && fcIds[k] == x;
      assert u[rid + 1 + k] == Indicator(rid, x);
    }
    forall x | x in AllChanges(inds) ensures x in AllChanges(u) {
      var i :| i in inds && inds[i].fieldChangeId == x;
      assert u[i] == inds[i];
    }
    forall x | x in AllChanges(u) ensures x in AllChanges(inds) + Elems(fcIds) {
      var i :| i in u && u[i].fieldChangeId == x;
      if i in nw {
        assert fcIds[i - rid - 1] == x;
      } else {
        assert inds[i] == u[i];
      }
    }
  }

  /** Adding the indicators of a new regression keeps the invariant exactly when the ids are distinct and none is triaged already. */
  lemma AddKeepsOnePerChange(inds: map<int, Indicator>, rid: int, fcIds: seq<int>)
    requires forall i :: i in inds ==> i <= rid
    ensures OneIndicatorPerChange(inds + NewIndicators(rid, fcIds)) <==>
      && OneIndicatorPerChange(inds)
      && Distinct(fcIds)
      && forall k :: 0 <= k < |fcIds| ==> fcIds[k] !in AllChanges(inds)
  {
    var nw := NewIndicators(rid, fcIds);
    var u := inds + nw;
    if OneIndicatorPerChange(u) {
      forall i, j | i in inds && j in inds && i != j ensures inds[i].fieldChangeId != inds[j].fieldChangeId {
        assert u[i] == inds[i] && u[j] == inds[j];
      }
      forall a, b | 0 <= a < b < |fcIds| ensures fcIds[a] != fcIds[b] {
        assert u[rid + 1 + a].fieldChangeId == fcIds[a] && u[rid + 1 + b].fieldChangeId == fcIds[b];
      }
      forall k | 0 <= k < |fcIds| ensures fcIds[k] !in AllChanges(inds) {
        assert u[rid + 1 + k].fieldChangeId == fcIds[k];
        forall i | i in inds ensures inds[i].fieldChangeId != fcIds[k] {
          assert u[i] == inds[i];
        }
      }
    }
    if && OneIndicatorPerChange(inds) && Distinct(fcIds)
       && forall k :: 0 <= k < |fcIds| ==> fcIds[k] !in AllChanges(inds)
    {
      forall i, j | i in u && j in u && i != j ensures u[i].fieldChangeId != u[j].fieldChangeId {
        if i in nw && j in nw {
          assert u[i].fieldChangeId == fcIds[i - rid - 1] && u[j].fieldChangeId == fcIds[j - rid - 1];
        } else if i in nw {
          assert u[j] == inds[j] && u[i].fieldChangeId == fcIds[i - rid - 1];
        } else if j in nw {
          assert u[i] == inds[i] && u[j].fieldChangeId == fcIds[j - rid - 1];
        } else {
          assert u[i] == inds[i] && u[j] == inds[j];
        }
      }
    }
  }

  /** The field changes of the indicators `order` are the field changes those indicators point at. */
  lemma ChangesCovered(inds: map<int, Indicator>, order: seq<int>)
    requires Elems(order) <= inds.Keys
    ensures Elems(FcIdsOf(inds, order)) == ChangesOf(inds, Elems(order))
  {
    var fcIds := FcIdsOf(inds, order);
    forall x | x in ChangesOf(inds, Elems(order)) ensures x in Elems(fcIds) {
      var i :| i in Elems(order) && i in inds && inds[i].fieldChangeId == x;
      var k :| 0 <= k < |order| && order[k] == i;
      assert fcIds[k] == x;
    }
    forall x | x in Elems(fcIds) ensures x in ChangesOf(inds, Elems(order)) {
      var k :| 0 <= k < |fcIds| && fcIds[k] == x;
      var i := order[k];
      assert i in Elems(order) && i in inds && inds[i].fieldChangeId == x;
      assert inds[i].fieldChangeId in ChangesOf(inds, Elems(order));
    }
  }

  /** Under the invariant, distinct indicators give distinct field changes, which no other indicator carries. */
  lemma ChangesExclusive(inds: map<int, Indicator>, order: seq<int>)
    requires Elems(order) <= inds.Keys
    requires Distinct(order) && OneIndicatorPerChange(inds)
    ensures Distinct(FcIdsOf(inds, order))
    ensures forall k :: 0 <= k < |order| ==> FcIdsOf(inds, order)[k] !in AllChanges(inds - Elems(order))
  {
    var fcIds := FcIdsOf(inds, order);
    var kept := inds - Elems(order);
    forall k | 0 <= k < |fcIds| ensures fcIds[k] !in AllChanges(kept) {
      assert order[k] in Elems(order);
      forall i | i in kept ensures kept[i].fieldChangeId != fcIds[k] {
        assert i != order[k];
      }
    }
  }

  /**
   * Replacing the indicators `order` by those of a new regression `rid` for
   * the same field changes, in the same order: every row that is not an old
   * one belongs to `rid` and carries one of the replaced field changes.
   */
  lemma ReplacedRows(inds: map<int, Indicator>, order: seq<int>, rid: int)
    requires Elems(order) <= inds.Keys
    requires forall i :: i in inds ==> i <= rid
    ensures var after := (inds - Elems(order)) + NewIndicators(rid, FcIdsOf(inds, order));
      && (inds + NewIndicators(rid, FcIdsOf(inds, order))) - Elems(order) == after
      && (forall i :: i in after && i !in inds ==>
            after[i].regressionId == rid && after[i].fieldChangeId in ChangesOf(inds, Elems(order)))
  {
    var fcIds := FcIdsOf(inds, order);
    var kept := inds - Elems(order);
    var nw := NewIndicators(rid, fcIds);
    ChangesCovered(inds, order);
    assert (inds + nw) - Elems(order) == kept + nw;
    forall i | i in kept + nw && i !in inds
      ensures (kept + nw)[i].regressionId == rid && (kept + nw)[i].fieldChangeId in Elems(fcIds)
    {
      assert fcIds[i - rid - 1] in Elems(fcIds);
    }
  }

  /** After the same replacement, `rid` owns exactly the replaced field changes. */
  lemma ReplacedOwner(inds: map<int, Indicator>, order: seq<int>, rid: int)
    requires Elems(order) <= inds.Keys
    requires forall i :: i in inds ==> i <= rid && inds[i].regressionId != rid
    ensures Owned((inds - Elems(order)) + NewIndicators(rid, FcIdsOf(inds, order)), {rid}) == ChangesOf(inds, Elems(order))
  {
    ChangesCovered(inds, order);
    NewIndicatorsFacts(inds - Elems(order), rid, FcIdsOf(inds, order));
  }

  /** The same replacement keeps "at most one indicator per field change". */
  lemma ReplaceKeepsOnePerChange(inds: map<int, Indicator>, order: seq<int>, rid: int)
    requires Elems(order) <= inds.Keys && Distinct(order)
    requires forall i :: i in inds ==> i <= rid
    requires OneIndicatorPerChange(inds)
    ensures OneIndicatorPerChange((inds - Elems(order)) + NewIndicators(rid, FcIdsOf(inds, order)))
  {
    ChangesExclusive(inds, order);
    AddKeepsOnePerChange(inds - Elems(order), rid, FcIdsOf(inds, order));
  }

  /** Adding ChangeIgnore rows keeps "ignored at most once" exactly when the ids are distinct and none is ignored already. */
  lemma AddKeepsOneIgnorePerChange(ignores: map<int, int>, base: int, fcIds: seq<int>)
    requires forall i :: i in ignores ==> i < base
    ensures OneIgnorePerChange(ignores + NewIgnores(base, fcIds)) <==>
      && OneIgnorePerChange(ignores)
      && Distinct(fcIds)
      && forall k :: 0 <= k < |fcIds| ==> fcIds[k] !in ignores.Values
  {
    var nw := NewIgnores(base, fcIds);
    var u := ignores + nw;
    if OneIgnorePerChange(u) {
      forall i, j | i in ignores && j in ignores && i != j ensures ignores[i] != ignores[j] {
        assert u[i] == ignores[i] && u[j] == ignores[j];
      }
      forall a, b | 0 <= a < b < |fcIds| ensures fcIds[a] != fcIds[b] {
        assert u[base + a] == fcIds[a] && u[base + b] == fcIds[b];
      }
      forall k | 0 <= k < |fcIds| ensures fcIds[k] !in ignores.Values {
        assert u[base + k] == fcIds[k];
        forall i | i in ignores ensures ignores[i] != fcIds[k] {
          assert u[i] == ignores[i];
        }
      }
    }
    if && OneIgnorePerChange(ignores) && Distinct(fcIds)
       && forall k :: 0 <= k < |fcIds| ==> fcIds[k] !in ignores.Values
    {
      forall i, j | i in u && j in u && i != j ensures u[i] != u[j] {
        if i in nw && j in nw {
          assert u[i] == fcIds[i - base] && u[j] == fcIds[j - base];
        } else if i in nw {
          assert u[j] == ignores[j] && u[i] == fcIds[i - base];
          assert ignores[j] in ignores.Values;
        } else if j in nw {
          assert u[i] == ignores[i] && u[j] == fcIds[j - base];
          assert ignores[i] in ignores.Values;
        } else {
          assert u[i] == ignores[i] && u[j] == ignores[j];
        }
      }
    }
  }

  /** Ids below the allocator `next`, and every reference resolves. */
  ghost predicate TablesValid(fcs: map<int, FieldChange>, regs: map<int, Regression>,
                              inds: map<int, Indicator>, ignores: map<int, int>, next: int)
  {
    && (forall id :: id in regs ==> id < next)
    && (forall id :: id in inds ==> id < next)
    && (forall id :: id in ignores ==> id < next)
    && (forall id :: id in inds ==> inds[id].regressionId in regs)
    && (forall id :: id in inds ==> inds[id].fieldChangeId in fcs)
    && (forall id :: id in ignores ==> ignores[id] in fcs)
  }

  /**
   * Removing the regressions `gone` and the indicators `order`, which include
   * every indicator of `gone`, and adding a new regression `next` with an
   * indicator per removed field change keeps the tables valid.
   */
  lemma ReplaceKeepsTablesValid(fcs: map<int, FieldChange>, regs: map<int, Regression>,
                                inds: map<int, Indicator>, ignores: map<int, int>, next: int,
                                gone: set<int>, order: seq<int>, reg: Regression)
    requires TablesValid(fcs, regs, inds, ignores, next)
    requires Elems(order) <= inds.Keys && Distinct(order)
    requires gone <= regs.Keys && IndicatorsOf(inds, gone) <= Elems(order)
    ensures forall k :: 0 <= k < |order| ==> FcIdsOf(inds, order)[k] in fcs
    ensures (regs[next := reg]) - gone == (regs - gone)[next := reg]
    ensures TablesValid(fcs, (regs - gone)[next := reg],
                        (inds - Elems(order)) + NewIndicators(next, FcIdsOf(inds, order)),
                        ignores, next + 1 + |order|)
  {
    var fcIds := FcIdsOf(inds, order);
    ReplacedRows(inds, order, next);
    var after := (inds - Elems(order)) + NewIndicators(next, fcIds);
    var regs' := (regs - gone)[next := reg];
    var next' := next + 1 + |order|;
    forall id | id in after ensures after[id].regressionId in regs' && after[id].fieldChangeId in fcs {
      if id !in inds {
        assert after[id].fieldChangeId in ChangesOf(inds, Elems(order));
      } else {
        assert id !in Elems(order) && after[id] == inds[id];
        assert id !in IndicatorsOf(inds, gone);
      }
    }
    assert forall id :: id in regs' ==> id < next';
    assert forall id :: id in after ==> id < next';
    assert forall id :: id in ignores ==> id < next';
    assert next !in gone;
    assert (regs[next := reg]) - gone == regs';
  }

  // ---------------------------------------------------------------------
  // The store
  // ---------------------------------------------------------------------

  class Store {
    var fieldChanges: map<int, FieldChange>
    var regressions: map<int, Regression>
    var indicators: map<int, Indicator>
    /** ChangeIgnore rows: id -> the ignored field change. */
    var ignores: map<int, int>
    /** The next id to hand out to a new regression, indicator or ChangeIgnore row. */
    var nextId: int

    /** Ids below the allocator, and every reference resolves. */
    ghost predicate Valid()
      reads this
    {
      TablesValid(fieldChanges, regressions, indicators, ignores, nextId)
    }

    constructor(fieldChanges: map<int, FieldChange>)
      ensures Valid()
      ensures this.fieldChanges == fieldChanges
      ensures regressions == map[] && indicators == map[] && ignores == map[]
    {
      this.fieldChanges := fieldChanges;
      regressions := map[];
      indicators := map[];
      ignores := map[];
      nextId := 0;
    }

    /** Lines 53-54: get_fieldchange, whose `.one()` fails on an unknown id. */
    function GetFieldChange(id: int): (r: Result<FieldChange>)
      reads this
      ensures r.Ok? <==> id in fieldChanges
      ensures r.Ok? ==> r.value == fieldChanges[id]
      ensures r.Err? ==> r.error == NoResultFound
    {
      if id in fieldChanges then Ok(fieldChanges[id]) else Err(NoResultFound)
    }

    /** A field change with neither an indicator nor a ChangeIgnore row. */
    predicate IsUntriaged(fc: int)
      reads this
    {
      fc in fieldChanges && fc !in AllChanges(indicators) && fc !in ignores.Values
    }

    /**
     * new_regression: one initial regression `initial` (its title, bug and state
     * are chosen by the regression module) and one indicator per given field
     * change, in order. An unknown field change fails, changing nothing.
     */
    method NewRegression(fcIds: seq<int>, initial: Regression) returns (r: Result<int>)
      requires Valid()
      modifies this
      ensures Valid()
      ensures fieldChanges == old(fieldChanges) && ignores == old(ignores)
      ensures r.Err? <==> exists k :: 0 <= k < |fcIds| && fcIds[k] !in old(fieldChanges)
      ensures r.Err? ==>
        r.error == NoResultFound && regressions == old(regressions) && indicators == old(indicators) && nextId == old(nextId)
      ensures r.Ok? ==>
        && r.value == old(nextId)
        && regressions == old(regressions)[r.value := initial]
        && indicators == old(indicators) + NewIndicators(r.value, fcIds)
        && nextId == old(nextId) + 1 + |fcIds|
    {
      if exists k :: 0 <= k < |fcIds| && fcIds[k] !in fieldChanges {
        return Err(NoResultFound);
      }
      var rid := nextId;
      regressions := regressions[rid := initial];
      indicators := indicators + NewIndicators(rid, fcIds);
      nextId := nextId + 1 + |fcIds|;
      r := Ok(rid);
    }

    /** The `ts.delete` loops over an indicator list. */
    method DeleteIndicators(ids: seq<int>)
      modifies this
      ensures indicators == old(indicators) - Elems(ids)
      ensures fieldChanges == old(fieldChanges) && regressions == old(regressions)
      ensures ignores == old(ignores) && nextId == old(nextId)
    {
      for k := 0 to |ids|
        invariant indicators == old(indicators) - Elems(ids[..k])
        invariant fieldChanges == old(fieldChanges) && regressions == old(regressions)
        invariant ignores == old(ignores) && nextId == old(nextId)
      {
        assert Elems(ids[..k + 1]) == Elems(ids[..k]) + {ids[k]};
        indicators := indicators - {ids[k]};
      }
      assert ids[..|ids|] == ids;
    }

    /** The `ts.delete` loop over the merged regressions. */
    method DeleteRegressions(ids: seq<int>)
      modifies this
      ensures regressions == old(regressions) - Elems(ids)
      ensures fieldChanges == old(fieldChanges) && indicators == old(indicators)
      ensures ignores == old(ignores) && nextId == old(nextId)
    {
      for k := 0 to |ids|
        invariant regressions == old(regressions) - Elems(ids[..k])
        invariant fieldChanges == old(fieldChanges) && indicators == old(indicators)
        invariant ignores == old(ignores) && nextId == old(nextId)
      {
        assert Elems(ids[..k + 1]) == Elems(ids[..k]) + {ids[k]};
        regressions := regressions - {ids[k]};
      }
      assert ids[..|ids|] == ids;
    }

    /**
     * The common step of merge and split: new_regression for the field
     * changes of the indicators `order`, in order, with the given state; then
     * the indicators `order` and the regressions `gone` are deleted.
     */
    method Replace(gone: seq<int>, order: seq<int>, initial: Regression, state: int) returns (rid: int)
      requires Valid()
      requires Elems(order) <= indicators.Keys && Distinct(order)
      requires Elems(gone) <= regressions.Keys && IndicatorsOf(indicators, Elems(gone)) <= Elems(order)
      modifies this
      ensures Valid()
      ensures fieldChanges == old(fieldChanges) && ignores == old(ignores)
      ensures rid == old(nextId) && rid !in old(regressions)
      ensures nextId == old(nextId) + 1 + |order|
      ensures regressions == (old(regressions) - Elems(gone))[rid := initial.(state := state)]
      ensures indicators == (old(indicators) - Elems(order)) + NewIndicators(rid, FcIdsOf(old(indicators), order))
      ensures Owned(indicators, {rid}) == ChangesOf(old(indicators), Elems(order))
      ensures OneIndicatorPerChange(old(indicators)) ==> OneIndicatorPerChange(indicators)
    {
      var fcIds := FcIdsOf(indicators, order);
      var reg := initial.(state := state);
      ReplacedRows(indicators, order, nextId);
      ReplacedOwner(indicators, order, nextId);
      if OneIndicatorPerChange(indicators) {
        ReplaceKeepsOnePerChange(indicators, order, nextId);
      }
      ReplaceKeepsTablesValid(fieldChanges, regressions, indicators, ignores, nextId, Elems(gone), order, reg);
      ghost var regs0 := regressions;
      var created := NewRegression(fcIds, initial);
      rid := created.value;
      regressions := regressions[rid := regressions[rid].(state := state)];
      assert regressions == regs0[rid := reg];
      DeleteIndicators(order);
      DeleteRegressions(gone);
      assert regressions == (regs0 - Elems(gone))[rid := reg];
    }

    /**
     * Lines 82-83: "Create New Regression". The new regression owns exactly
     * the selected field changes, and the invariant survives exactly when the
     * selection is duplicate-free and untriaged, as the listing of lines
     * 100-108 offers it.
     */
    method Create(fcIds: seq<int>, initial: Regression) returns (r: Result<int>)
      requires Valid()
      modifies this
      ensures Valid()
      ensures fieldChanges == old(fieldChanges) && ignores == old(ignores)
      ensures r.Err? <==> exists k :: 0 <= k < |fcIds| && fcIds[k] !in old(fieldChanges)
      ensures r.Err? ==>
        r.error == NoResultFound && regressions == old(regressions) && indicators == old(indicators) && nextId == old(nextId)
      ensures r.Ok? ==>
        && r.value !in old(regressions)
        && regressions == old(regressions)[r.value := initial]
        && indicators == old(indicators) + NewIndicators(r.value, fcIds)
        && nextId == old(nextId) + 1 + |fcIds|
        && Owned(indicators, {r.value}) == Elems(fcIds)
        && AllChanges(indicators) == AllChanges(old(indicators)) + Elems(fcIds)
        && (OneIndicatorPerChange(indicators) <==>
              && OneIndicatorPerChange(old(indicators))
              && Distinct(fcIds)
              && forall k :: 0 <= k < |fcIds| ==> fcIds[k] !in AllChanges(old(indicators)))
    {
      ghost var before := indicators;
      r := NewRegression(fcIds, initial);
      if r.Ok? {
        NewIndicatorsFacts(before, r.value, fcIds);
        AddKeepsOnePerChange(before, r.value, fcIds);
      }
    }

    /**
     * Lines 87-95: "Ignore Changes", one ChangeIgnore row per selected field
     * change. An unknown field change fails, changing nothing.
     */
    method Ignore(fcIds: seq<int>) returns (r: Result<()>)
      requires Valid()
      modifies this
      ensures Valid()
      ensures fieldChanges == old(fieldChanges) && regressions == old(regressions) && indicators == old(indicators)
      ensures r.Err? <==> exists k :: 0 <= k < |fcIds| && fcIds[k] !in old(fieldChanges)
      ensures r.Err? ==> r.error == NoResultFound && ignores == old(ignores) && nextId == old(nextId)
      ensures r.Ok? ==>
        && ignores == old(ignores) + NewIgnores(old(nextId), fcIds)
        && ignores.Values == old(ignores).Values + Elems(fcIds)
        && nextId == old(nextId) + |fcIds|
        && (OneIgnorePerChange(ignores) <==>
              && OneIgnorePerChange(old(ignores))
              && Distinct(fcIds)
              && forall k :: 0 <= k < |fcIds| ==> fcIds[k] !in old(ignores).Values)
    {
      var added: map<int, int> := map[];
      for i := 0 to |fcIds|
        invariant added == NewIgnores(nextId, fcIds[..i])
        invariant forall k :: 0 <= k < i ==> fcIds[k] in fieldChanges
      {
        var fc := GetFieldChange(fcIds[i]);
        if fc.Err? {
          return Err(fc.error);
        }
        added := added[nextId + i := fcIds[i]];
      }
      assert fcIds[..|fcIds|] == fcIds;
      AddKeepsOneIgnorePerChange(ignores, nextId, fcIds);
      ghost var before := ignores;
      ignores := ignores + added;
      nextId := nextId + |fcIds|;
      forall x | x in Elems(fcIds) ensures x in ignores.Values {
        var k :| 0 <= k < |fcIds| && fcIds[k] == x;
        assert ignores[old(nextId) + k] == x;
      }
      forall x | x in ignores.Values ensures x in before.Values + Elems(fcIds) {
        var i :| i in ignores && ignores[i] == x;
        if i in added {
          assert fcIds[i - old(nextId)] == x;
        } else {
          assert before[i] == x;
        }
      }
      r := Ok(());
    }

    /**
     * Lines 100-108: the untriaged field changes, largest id first, at most
     * 500 of them, and no untriaged change left out is larger than one listed.
     */
    method Untriaged() returns (r: seq<int>)
      ensures |r| <= UntriagedLimit
      ensures forall i, j :: 0 <= i < j < |r| ==> r[i] > r[j]
      ensures forall k :: 0 <= k < |r| ==> IsUntriaged(r[k])
      ensures forall x :: IsUntriaged(x) && x !in r ==>
        |r| == UntriagedLimit && forall k :: 0 <= k < |r| ==> x < r[k]
    {
      var candidates := set fc | fc in fieldChanges && IsUntriaged(fc);
      assert StrictTotalOrder(IntGreater);
      var sorted := SortSet(candidates, IntGreater);
      assert forall k :: 0 <= k < |sorted| ==> sorted[k] in Elems(sorted);
      assert forall x :: IsUntriaged(x) ==> x in Elems(sorted);
      if |sorted| <= UntriagedLimit {
        r := sorted;
      } else {
        r := sorted[..UntriagedLimit];
        forall x | IsUntriaged(x) && x !in r ensures forall k :: 0 <= k < |r| ==> x < r[k] {
          assert x in Elems(sorted);
          var j :| 0 <= j < |sorted| && sorted[j] == x;
          assert j >= UntriagedLimit;
        }
      }
    }

    /**
     * Lines 160-173: "Merge Regressions". The selected regressions that exist
     * and all their indicators are removed; one new regression owns exactly
     * their field changes and takes the state of the first of them (the
     * smallest id). With no selected regression, `regressions[0]` raises
     * IndexError and nothing changes.
     */
    method Merge(selected: seq<int>, initial: Regression) returns (r: Result<int>)
      requires Valid()
      modifies this
      ensures Valid()
      ensures fieldChanges == old(fieldChanges) && ignores == old(ignores)
      ensures var merged := set id | id in old(regressions) && id in selected;
        && (r.Err? <==> merged == {})
        && (r.Err? ==>
              r.error == IndexError && regressions == old(regressions) && indicators == old(indicators) && nextId == old(nextId))
        && (r.Ok? ==>
              var removed := IndicatorsOf(old(indicators), merged);
              && r.value !in old(regressions)
              && regressions == (old(regressions) - merged)[r.value :=
                   initial.(state := old(regressions)[MinOf(merged)].state)]
              && indicators == (old(indicators) - removed)
                   + NewIndicators(r.value, FcIdsOf(old(indicators), Ascending(removed)))
              && nextId == old(nextId) + 1 + |Ascending(removed)|
              && Owned(indicators, {r.value}) == Owned(old(indicators), merged)
              && (OneIndicatorPerChange(old(indicators)) ==> OneIndicatorPerChange(indicators)))
    {
      var merged := set id | id in regressions && id in selected;
      if merged == {} {
        return Err(IndexError);
      }
      assert StrictTotalOrder(IntLess);
      var mergedInOrder := SortSet(merged, IntLess);
      var first := mergedInOrder[0];
      assert first == MinOf(merged) by {
        assert MinOf(merged) in Elems(mergedInOrder) && first in Elems(mergedInOrder);
      }
      var removed := IndicatorsOf(indicators, merged);
      var removedInOrder := SortSet(removed, IntLess);
      SortedUnique(removedInOrder, Ascending(removed), IntLess);
      SortedIsDistinct(removedInOrder, IntLess);
      assert Owned(indicators, merged) == ChangesOf(indicators, removed);
      var rid := Replace(mergedInOrder, removedInOrder, initial, regressions[first].state);
      r := Ok(rid);
    }

    /**
     * Lines 225-229: "Save Changes" overwrites the title, bug and state of
     * the regression and nothing else. An unknown regression fails the
     * `.one()` of lines 221-223.
     */
    method Edit(id: int, title: string, bug: string, state: int) returns (r: Result<()>)
      requires Valid()
      modifies this
      ensures Valid()
      ensures fieldChanges == old(fieldChanges) && indicators == old(indicators)
      ensures ignores == old(ignores) && nextId == old(nextId)
      ensures r.Err? <==> id !in old(regressions)
      ensures r.Err? ==> r.error == NoResultFound && regressions == old(regressions)
      ensures r.Ok? ==> regressions == old(regressions)[id := Regression(title, bug, state)]
    {
      if id !in regressions {
        return Err(NoResultFound);
      }
      regressions := regressions[id := regressions[id].(title := title)];
      regressions := regressions[id := regressions[id].(bug := bug)];
      regressions := regressions[id := regressions[id].(state := state)];
      r := Ok(());
    }

    /**
     * Lines 234-247: "Split Regression". Every indicator on a selected field
     * change is removed, whichever regression it belongs to; a new regression
     * owns exactly those field changes and takes the state of regression
     * `id`, whose title is then rebuilt (to `rebuiltTitle`).
     */
    method Split(id: int, selected: seq<int>, initial: Regression, rebuiltTitle: string) returns (r: Result<int>)
      requires Valid()
      modifies this
      ensures Valid()
      ensures fieldChanges == old(fieldChanges) && ignores == old(ignores)
      ensures r.Err? <==> id !in old(regressions)
      ensures r.Err? ==>
        r.error == NoResultFound && regressions == old(regressions) && indicators == old(indicators) && nextId == old(nextId)
      ensures r.Ok? ==>
        var removed := IndicatorsOn(old(indicators), Elems(selected));
        && r.value !in old(regressions)
        && regressions == old(regressions)
             [r.value := initial.(state := old(regressions)[id].state)]
             [id := old(regressions)[id].(title := rebuiltTitle)]
        && indicators == (old(indicators) - removed)
             + NewIndicators(r.value, FcIdsOf(old(indicators), Ascending(removed)))
        && nextId == old(nextId) + 1 + |Ascending(removed)|
        && Owned(indicators, {r.value}) == Elems(selected) * AllChanges(old(indicators))
        && (OneIndicatorPerChange(old(indicators)) ==> OneIndicatorPerChange(indicators))
    {
      if id !in regressions {
        return Err(NoResultFound);
      }
      var state := regressions[id].state;
      var removed := IndicatorsOn(indicators, set x | x in selected);
      assert StrictTotalOrder(IntLess);
      var removedInOrder := SortSet(removed, IntLess);
      SortedUnique(removedInOrder, Ascending(removed), IntLess);
      SortedIsDistinct(removedInOrder, IntLess);
      assert ChangesOf(indicators, removed) == Elems(selected) * AllChanges(indicators);
      ghost var regs0 := regressions;
      assert Elems<int>([]) == {} && regs0 - {} == regs0;
      var rid := Replace([], removedInOrder, initial, state);
      assert regressions == regs0[rid := initial.(state := state)];
      regressions := regressions[id := regressions[id].(title := rebuiltTitle)];
      r := Ok(rid);
    }

    /**
     * Lines 251-261: "Delete" removes the regression and every indicator of
     * it; field changes, ignores and the other regressions stay.
     */
    method Delete(id: int) returns (r: Result<()>)
      requires Valid()
      modifies this
      ensures Valid()
      ensures fieldChanges == old(fieldChanges) && ignores == old(ignores) && nextId == old(nextId)
      ensures r.Err? <==> id !in old(regressions)
      ensures r.Err? ==> r.error == NoResultFound && regressions == old(regressions) && indicators == old(indicators)
      ensures r.Ok? ==>
        && regressions == old(regressions) - {id}
        && indicators == old(indicators) - IndicatorsOf(old(indicators), {id})
        && (OneIndicatorPerChange(old(indicators)) ==>
              AllChanges(indicators) == AllChanges(old(indicators)) - Owned(old(indicators), {id}))
      ensures OneIndicatorPerChange(old(indicators)) ==> OneIndicatorPerChange(indicators)
    {
      if id !in regressions {
        return Err(NoResultFound);
      }
      ghost var before := indicators;
      var removed := IndicatorsOf(indicators, {id});
      assert StrictTotalOrder(IntLess);
      var removedInOrder := SortSet(removed, IntLess);
      DeleteIndicators(removedInOrder);
      regressions := regressions - {id};
      if OneIndicatorPerChange(before) {
        forall x | x in AllChanges(before) - Owned(before, {id}) ensures x in AllChanges(indicators) {
          var i :| i in before && before[i].fieldChangeId == x;
          assert i !in removed && indicators[i] == before[i];
        }
        forall x | x in AllChanges(indicators) ensures x !in Owned(before, {id}) {
          var i :| i in indicators && indicators[i].fieldChangeId == x;
          assert i !in removed && indicators[i] == before[i];
        }
      }
      r := Ok(());
    }
  }
}

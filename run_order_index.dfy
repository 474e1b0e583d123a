/**
 * SimpleSuiteRunSummary of lnt/db/perfdbsummary.py: the runs of one suite
 * grouped by their `run_order` value, the groups in descending order, their
 * concatenation as the total order of runs, and the queries over it.
 */
module RunOrderIndex {
  import opened Wrappers
  import opened Ordering
  import opened PerfDb

  datatype RunSummary = RunSummary(
    revision: int,
    tag: string,
    runOrders: seq<string>,
    runsByOrder: map<string, seq<int>>,
    runsInOrder: seq<int>,
    orderByRun: map<int, string>,
    machineIdByRun: map<int, int>)
  {
    /** The run summary depends on the RunInfo counter. */
    predicate IsUpToDate(db: Database) {
      revision == db.Revision(RunInfoKind)
    }
  }

  // ---------------------------------------------------------------------
  // The pieces the summary is built from
  // ---------------------------------------------------------------------

  ghost function RunIds(rows: seq<RunOrderRow>): set<int> {
    set i | 0 <= i < |rows| :: rows[i].runId
  }

  ghost function OrdersOf(rows: seq<RunOrderRow>): set<string> {
    set i | 0 <= i < |rows| :: rows[i].order
  }

  /** No run has two rows: every run has a single `run_order` entry. */
  ghost predicate OneRowPerRun(rows: seq<RunOrderRow>) {
    forall i, j :: 0 <= i < j < |rows| ==> rows[i].runId != rows[j].runId
  }

  /** Row `i` is the last row of run `x`. */
  ghost predicate IsLastRowOf(rows: seq<RunOrderRow>, i: int, x: int) {
    0 <= i < |rows| && rows[i].runId == x && forall j :: i < j < |rows| ==> rows[j].runId != x
  }

  /** The last row of a run in a prefix stays its last row when a row of another run follows. */
  lemma LastRowSnoc(rows: seq<RunOrderRow>, i: int, x: int)
    requires rows != [] && rows[|rows| - 1].runId != x
    requires IsLastRowOf(rows[..|rows| - 1], i, x)
    ensures IsLastRowOf(rows, i, x)
  {
  }

  /** Lines 149-150: `dict((run_id, order) for ...)`, a later row overwriting an earlier one. */
  function OrderByRun(rows: seq<RunOrderRow>): (m: map<int, string>)
    ensures m.Keys == RunIds(rows)
  {
    if rows == [] then map[]
    else
      var n := |rows| - 1;
      assert forall i :: 0 <= i < n ==> rows[..n][i] == rows[i];
      assert RunIds(rows) == RunIds(rows[..n]) + {rows[n].runId};
      OrderByRun(rows[..n])[rows[n].runId := rows[n].order]
  }

  /** Lines 151-152: `dict((run_id, machine_id) for ...)`, a later row overwriting an earlier one. */
  function MachineByRun(rows: seq<RunOrderRow>): (m: map<int, int>)
    ensures m.Keys == RunIds(rows)
  {
    if rows == [] then map[]
    else
      var n := |rows| - 1;
      assert forall i :: 0 <= i < n ==> rows[..n][i] == rows[i];
      assert RunIds(rows) == RunIds(rows[..n]) + {rows[n].runId};
      MachineByRun(rows[..n])[rows[n].runId := rows[n].machineId]
  }

  /** In `order_by_run` the last row of a run wins. */
  lemma {:induction false} OrderByRunLastWins(rows: seq<RunOrderRow>, x: int)
    requires x in OrderByRun(rows)
    ensures exists i :: IsLastRowOf(rows, i, x) && OrderByRun(rows)[x] == rows[i].order
  {
    var n := |rows| - 1;
    if rows[n].runId == x {
      assert IsLastRowOf(rows, n, x);
    } else {
      OrderByRunLastWins(rows[..n], x);
      var i :| IsLastRowOf(rows[..n], i, x) && OrderByRun(rows[..n])[x] == rows[..n][i].order;
      LastRowSnoc(rows, i, x);
    }
  }

  /** In `machine_id_by_run` the last row of a run wins. */
  lemma {:induction false} MachineByRunLastWins(rows: seq<RunOrderRow>, x: int)
    requires x in MachineByRun(rows)
    ensures exists i :: IsLastRowOf(rows, i, x) && MachineByRun(rows)[x] == rows[i].machineId
  {
    var n := |rows| - 1;
    if rows[n].runId == x {
      assert IsLastRowOf(rows, n, x);
    } else {
      MachineByRunLastWins(rows[..n], x);
      var i :| IsLastRowOf(rows[..n], i, x) && MachineByRun(rows[..n])[x] == rows[..n][i].machineId;
      LastRowSnoc(rows, i, x);
    }
  }

  /** `machine_id_by_run` of the run-order query gives each run the machine of its Run row, however many rows it has. */
  lemma MachineByRunIsRunMachine(db: Database, tag: string)
    ensures forall x :: x in MachineByRun(RunOrderRows(db, tag)) ==>
      x in db.machineOfRun && MachineByRun(RunOrderRows(db, tag))[x] == db.machineOfRun[x]
  {
    var rows := RunOrderRows(db, tag);
    forall x | x in MachineByRun(rows) ensures x in db.machineOfRun && MachineByRun(rows)[x] == db.machineOfRun[x] {
      MachineByRunLastWins(rows, x);
      var i :| IsLastRowOf(rows, i, x) && MachineByRun(rows)[x] == rows[i].machineId;
      assert rows[i] in rows;
    }
  }

  /** The ids of the rows with order `o`, in row order. */
  function RunsWithOrder(rows: seq<RunOrderRow>, o: string): (r: seq<int>)
    ensures |r| <= |rows|
    ensures o !in OrdersOf(rows) ==> r == []
  {
    if rows == [] then []
    else
      var n := |rows| - 1;
      assert forall i :: 0 <= i < n ==> rows[..n][i] == rows[i];
      assert OrdersOf(rows) == OrdersOf(rows[..n]) + {rows[n].order};
      RunsWithOrder(rows[..n], o) + (if rows[n].order == o then [rows[n].runId] else [])
  }

  /** Lines 155-160: `runs_by_order`, one group per order value, each in row order. */
  ghost function GroupsOf(rows: seq<RunOrderRow>): map<string, seq<int>> {
    map o | o in OrdersOf(rows) :: RunsWithOrder(rows, o)
  }

  /** The groups of `orders`, concatenated in that order. */
  function Concat(orders: seq<string>, groups: map<string, seq<int>>): seq<int>
    requires forall k :: 0 <= k < |orders| ==> orders[k] in groups
  {
    if orders == [] then []
    else Concat(orders[..|orders| - 1], groups) + groups[orders[|orders| - 1]]
  }

  function Reverse<T>(s: seq<T>): (r: seq<T>)
    ensures |r| == |s|
    ensures forall i :: 0 <= i < |s| ==> r[i] == s[|s| - 1 - i]
  {
    if s == [] then [] else Reverse(s[1..]) + [s[0]]
  }

  /** What SimpleSuiteRunSummary.fromdb(db, tag) holds. */
  ghost predicate IsRunSummaryOf(s: RunSummary, db: Database, tag: string) {
    var rows := RunOrderRows(db, tag);
    && s.revision == db.Revision(RunInfoKind)
    && s.tag == tag
    && s.orderByRun == OrderByRun(rows)
    && s.machineIdByRun == MachineByRun(rows)
    && StrictlySorted(s.runOrders, StringGreater)
    && Elems(s.runOrders) == OrdersOf(rows)
    && s.runsByOrder == GroupsOf(rows)
    && (forall k :: 0 <= k < |s.runOrders| ==> s.runOrders[k] in s.runsByOrder)
    && s.runsInOrder == Concat(s.runOrders, s.runsByOrder)
  }

  // ---------------------------------------------------------------------
  // Building the summary
  // ---------------------------------------------------------------------

  lemma RowsSnoc(rows: seq<RunOrderRow>, row: RunOrderRow, o: string)
    ensures OrdersOf(rows + [row]) == OrdersOf(rows) + {row.order}
    ensures RunsWithOrder(rows + [row], o) == RunsWithOrder(rows, o) + (if row.order == o then [row.runId] else [])
  {
    var u := rows + [row];
    var n := |rows|;
    assert u[..n] == rows && u[n] == row;
    assert forall i :: 0 <= i < n ==> u[..n][i] == u[i];
    assert OrdersOf(u) == OrdersOf(u[..n]) + {u[n].order};
  }

  /** The groups after one more row: the row's id is appended to its order's group. */
  lemma GroupsOneMore(rows: seq<RunOrderRow>, row: RunOrderRow)
    ensures GroupsOf(rows + [row]) ==
      GroupsOf(rows)[row.order := (if row.order in GroupsOf(rows) then GroupsOf(rows)[row.order] else []) + [row.runId]]
  {
    var g, g' := GroupsOf(rows), GroupsOf(rows + [row]);
    var h := g[row.order := (if row.order in g then g[row.order] else []) + [row.runId]];
    RowsSnoc(rows, row, row.order);
    forall o | o in g' ensures o in h && g'[o] == h[o] {
      RowsSnoc(rows, row, o);
    }
    assert g'.Keys == h.Keys;
  }

  /** Lines 155-160: groups the run ids by order, appending in row order. */
  method GroupByOrder(rows: seq<RunOrderRow>) returns (runsByOrder: map<string, seq<int>>)
    ensures runsByOrder == GroupsOf(rows)
  {
    runsByOrder := map[];
    for i := 0 to |rows|
      invariant runsByOrder == GroupsOf(rows[..i])
    {
      var row := rows[i];
      GroupsOneMore(rows[..i], row);
      assert rows[..i + 1] == rows[..i] + [row];
      var runs := if row.order in runsByOrder then runsByOrder[row.order] else [];
      runsByOrder := runsByOrder[row.order := runs + [row.runId]];
    }
    assert rows[..|rows|] == rows;
  }

  /** Lines 165-167: the distinct orders, sorted and then reversed. */
  method DescendingOrders(orders: set<string>) returns (r: seq<string>)
    ensures StrictlySorted(r, StringGreater)
    ensures Elems(r) == orders
  {
    StringLessIsStrictTotal();
    var ascending := SortSet(orders, StringLess);
    r := Reverse(ascending);
    forall x | x in ascending ensures x in r {
      var i :| 0 <= i < |ascending| && ascending[i] == x;
      assert r[|ascending| - 1 - i] == x;
    }
  }

  /** Lines 170-172: extends the total order by each group in turn. */
  method ConcatGroups(orders: seq<string>, groups: map<string, seq<int>>) returns (r: seq<int>)
    requires forall k :: 0 <= k < |orders| ==> orders[k] in groups
    ensures r == Concat(orders, groups)
  {
    r := [];
    for k := 0 to |orders|
      invariant r == Concat(orders[..k], groups)
    {
      assert orders[..k + 1][..k] == orders[..k];
      r := r + groups[orders[k]];
    }
    assert orders[..|orders|] == orders;
  }

  /** SimpleSuiteRunSummary.fromdb. */
  method RunSummaryFromDb(db: Database, tag: string) returns (s: RunSummary)
    ensures IsRunSummaryOf(s, db, tag)
  {
    var rows := RunOrderRows(db, tag);
    var orderByRun := OrderByRun(rows);
    var machineIdByRun := MachineByRun(rows);
    var runsByOrder := GroupByOrder(rows);
    var runOrders := DescendingOrders(runsByOrder.Keys);
    assert forall k :: 0 <= k < |runOrders| ==> runOrders[k] in Elems(runOrders);
    var runsInOrder := ConcatGroups(runOrders, runsByOrder);
    s := RunSummary(db.Revision(RunInfoKind), tag, runOrders, runsByOrder, runsInOrder, orderByRun, machineIdByRun);
  }

  /** The summary is determined by the database and the tag: any two builds agree. */
  lemma RunSummaryDeterministic(a: RunSummary, b: RunSummary, db: Database, tag: string)
    requires IsRunSummaryOf(a, db, tag) && IsRunSummaryOf(b, db, tag)
    ensures a == b
  {
    StringGreaterIsStrictTotal();
    SortedUnique(a.runOrders, b.runOrders, StringGreater);
  }

  // ---------------------------------------------------------------------
  // What the total order holds
  // ---------------------------------------------------------------------

  /** The ids of the rows whose order is in `os`, in row order. */
  ghost function RunsWithOrderIn(rows: seq<RunOrderRow>, os: set<string>): seq<int> {
    if rows == [] then []
    else
      var n := |rows| - 1;
      RunsWithOrderIn(rows[..n], os) + (if rows[n].order in os then [rows[n].runId] else [])
  }

  /** The run ids of the rows, in row order. */
  ghost function AllRunIds(rows: seq<RunOrderRow>): (r: seq<int>)
    ensures |r| == |rows|
    ensures forall i :: 0 <= i < |rows| ==> r[i] == rows[i].runId
  {
    if rows == [] then [] else AllRunIds(rows[..|rows| - 1]) + [rows[|rows| - 1].runId]
  }

  lemma {:induction false} RunsWithOrderInAdd(rows: seq<RunOrderRow>, os: set<string>, o: string)
    requires o !in os
    ensures multiset(RunsWithOrderIn(rows, os + {o})) == multiset(RunsWithOrderIn(rows, os)) + multiset(RunsWithOrder(rows, o))
  {
    if rows != [] {
      var n := |rows| - 1;
      var init, last := rows[..n], rows[n];
      RunsWithOrderInAdd(init, os, o);
      var one := [last.runId];
      var a, b, c := RunsWithOrderIn(init, os + {o}), RunsWithOrderIn(init, os), RunsWithOrder(init, o);
      assert RunsWithOrderIn(rows, os + {o}) == a + (if last.order in os + {o} then one else []);
      assert RunsWithOrderIn(rows, os) == b + (if last.order in os then one else []);
      assert RunsWithOrder(rows, o) == c + (if last.order == o then one else []);
      MultisetsAddOne(a, b, c, one);
      if last.order !in os + {o} {
        assert a + [] == a && b + [] == b && c + [] == c;
      }
    }
  }

  lemma MultisetsAddOne(a: seq<int>, b: seq<int>, c: seq<int>, one: seq<int>)
    requires multiset(a) == multiset(b) + multiset(c)
    ensures multiset(a + one) == multiset(b + one) + multiset(c)
    ensures multiset(a + one) == multiset(b) + multiset(c + one)
  {
  }

  lemma {:induction false} RunsWithOrderInAll(rows: seq<RunOrderRow>, os: set<string>)
    requires OrdersOf(rows) <= os
    ensures RunsWithOrderIn(rows, os) == AllRunIds(rows)
  {
    if rows != [] {
      var n := |rows| - 1;
      assert forall i :: 0 <= i < n ==> rows[..n][i] == rows[i];
      assert OrdersOf(rows) == OrdersOf(rows[..n]) + {rows[n].order};
      RunsWithOrderInAll(rows[..n], os);
    }
  }

  lemma {:induction false} ConcatCollects(orders: seq<string>, rows: seq<RunOrderRow>)
    requires Distinct(orders) && Elems(orders) <= OrdersOf(rows)
    ensures forall k :: 0 <= k < |orders| ==> orders[k] in GroupsOf(rows)
    ensures multiset(Concat(orders, GroupsOf(rows))) == multiset(RunsWithOrderIn(rows, Elems(orders)))
  {
    assert forall k :: 0 <= k < |orders| ==> orders[k] in Elems(orders);
    if orders == [] {
      assert Elems(orders) == {};
      RunsWithOrderInNone(rows);
    } else {
      var n := |orders| - 1;
      var init := orders[..n];
      assert forall k :: 0 <= k < n ==> init[k] == orders[k];
      assert Elems(orders) == Elems(init) + {orders[n]} && orders[n] !in Elems(init);
      ConcatCollects(init, rows);
      RunsWithOrderInAdd(rows, Elems(init), orders[n]);
    }
  }

  lemma {:induction false} RunsWithOrderInNone(rows: seq<RunOrderRow>)
    ensures RunsWithOrderIn(rows, {}) == []
  {
    if rows != [] {
      RunsWithOrderInNone(rows[..|rows| - 1]);
    }
  }

  /** `runs_in_order` is a permutation of the rows' run ids: every row is placed exactly once. */
  lemma RunsInOrderIsPermutation(s: RunSummary, db: Database, tag: string)
    requires IsRunSummaryOf(s, db, tag)
    ensures multiset(s.runsInOrder) == multiset(AllRunIds(RunOrderRows(db, tag)))
  {
    var rows := RunOrderRows(db, tag);
    StringGreaterIsStrictTotal();
    SortedIsDistinct(s.runOrders, StringGreater);
    ConcatCollects(s.runOrders, rows);
    RunsWithOrderInAll(rows, Elems(s.runOrders));
  }

  /** With one row per run, every member of a group has that group's order in `order_by_run`. */
  lemma {:induction false} GroupMembersHaveItsOrder(rows: seq<RunOrderRow>, o: string, x: int)
    requires OneRowPerRun(rows)
    requires x in RunsWithOrder(rows, o)
    ensures x in OrderByRun(rows) && OrderByRun(rows)[x] == o
  {
    var n := |rows| - 1;
    var init := rows[..n];
    assert forall i :: 0 <= i < n ==> init[i] == rows[i];
    if x in RunsWithOrder(init, o) {
      GroupMembersHaveItsOrder(init, o, x);
      if x == rows[n].runId {
        RowOfRun(init, x);
      }
    }
  }

  lemma {:induction false} RowOfRun(rows: seq<RunOrderRow>, x: int)
    requires x in OrderByRun(rows)
    ensures exists i :: 0 <= i < |rows| && rows[i].runId == x
  {
    assert x in RunIds(rows);
  }

  /** Every run of a concatenation of groups carries one of the concatenated orders, and those orders never increase. */
  lemma {:induction false} ConcatNonIncreasing(orders: seq<string>, groups: map<string, seq<int>>, ord: map<int, string>)
    requires StrictlySorted(orders, StringGreater)
    requires forall k :: 0 <= k < |orders| ==> orders[k] in groups
    requires forall o, x :: o in groups && x in groups[o] ==> x in ord && ord[x] == o
    ensures forall i :: 0 <= i < |Concat(orders, groups)| ==>
      Concat(orders, groups)[i] in ord && ord[Concat(orders, groups)[i]] in Elems(orders)
    ensures forall i, j :: 0 <= i < j < |Concat(orders, groups)| ==>
      !StringLess(ord[Concat(orders, groups)[i]], ord[Concat(orders, groups)[j]])
  {
    if orders != [] {
      var n := |orders| - 1;
      var init := orders[..n];
      var last := orders[n];
      assert forall k :: 0 <= k < n ==> init[k] == orders[k];
      ConcatNonIncreasing(init, groups, ord);
      var c0 := Concat(init, groups);
      var g := groups[last];
      var c := Concat(orders, groups);
      assert c == c0 + g;
      assert forall i :: 0 <= i < |g| ==> g[i] in groups[last];
      forall i | 0 <= i < |c| ensures c[i] in ord && ord[c[i]] in Elems(orders) {
        if i >= |c0| { assert c[i] == g[i - |c0|]; }
      }
      forall i, j | 0 <= i < j < |c| ensures !StringLess(ord[c[i]], ord[c[j]]) {
        if j < |c0| {
          assert c[i] == c0[i] && c[j] == c0[j];
        } else if i >= |c0| {
          assert c[i] == g[i - |c0|] && c[j] == g[j - |c0|];
          StringLessIrreflexive(last);
        } else {
          assert c[i] == c0[i] && c[j] == g[j - |c0|];
          var k :| 0 <= k < n && init[k] == ord[c0[i]];
          assert StringLess(last, ord[c[i]]);
          if StringLess(ord[c[i]], last) {
            StringLessTransitive(last, ord[c[i]], last);
            StringLessIrreflexive(last);
          }
        }
      }
    }
  }

  /** Lines 170-172: along `runs_in_order`, with one row per run, the run orders never increase. */
  lemma RunsInOrderNonIncreasing(s: RunSummary, db: Database, tag: string)
    requires IsRunSummaryOf(s, db, tag)
    requires OneRowPerRun(RunOrderRows(db, tag))
    ensures forall i :: 0 <= i < |s.runsInOrder| ==> s.runsInOrder[i] in s.orderByRun
    ensures forall i, j :: 0 <= i < j < |s.runsInOrder| ==>
      !StringLess(s.orderByRun[s.runsInOrder[i]], s.orderByRun[s.runsInOrder[j]])
  {
    var rows := RunOrderRows(db, tag);
    forall o, x | o in s.runsByOrder && x in s.runsByOrder[o]
      ensures x in s.orderByRun && s.orderByRun[x] == o
    {
      GroupMembersHaveItsOrder(rows, o, x);
    }
    ConcatNonIncreasing(s.runOrders, s.runsByOrder, s.orderByRun);
  }

  // ---------------------------------------------------------------------
  // Queries
  // ---------------------------------------------------------------------

  /** Lines 191-192: `order_by_run.get(run_id)`. */
  function GetRunOrder(s: RunSummary, runId: int): Option<string> {
    if runId in s.orderByRun then Some(s.orderByRun[runId]) else None
  }

  /** With one row per run, the order of a row's run is that row's order. */
  lemma {:induction false} OrderOfRow(rows: seq<RunOrderRow>, i: nat)
    requires OneRowPerRun(rows) && i < |rows|
    ensures OrderByRun(rows)[rows[i].runId] == rows[i].order
    ensures MachineByRun(rows)[rows[i].runId] == rows[i].machineId
  {
    var n := |rows| - 1;
    var init := rows[..n];
    assert OrderByRun(rows) == OrderByRun(init)[rows[n].runId := rows[n].order];
    assert MachineByRun(rows) == MachineByRun(init)[rows[n].runId := rows[n].machineId];
    if i < n {
      assert init[i] == rows[i] && rows[i].runId != rows[n].runId;
      assert OneRowPerRun(init) by {
        forall a, b | 0 <= a < b < n ensures init[a].runId != init[b].runId {
          assert init[a] == rows[a] && init[b] == rows[b];
        }
      }
      OrderOfRow(init, i);
    }
  }

  /** get_run_order on a built summary: a row's run has that row's order, a run with no row has none. */
  lemma RunOrderOfRow(s: RunSummary, db: Database, tag: string, row: RunOrderRow, runId: int)
    requires IsRunSummaryOf(s, db, tag) && OneRowPerRun(RunOrderRows(db, tag))
    ensures row in RunOrderRows(db, tag) ==> GetRunOrder(s, row.runId) == Some(row.order)
    ensures runId !in RunIds(RunOrderRows(db, tag)) ==> GetRunOrder(s, runId) == None
  {
    var rows := RunOrderRows(db, tag);
    if row in rows {
      var i :| 0 <= i < |rows| && rows[i] == row;
      OrderOfRow(rows, i);
    }
  }

  /** `list.index`: the first position of `x`, or ValueError when `x` is absent. */
  function IndexOf(xs: seq<int>, x: int): (r: Result<nat>)
    ensures r.Err? <==> x !in xs
    ensures r.Err? ==> r.error == ValueError
    ensures r.Ok? ==> r.value < |xs| && xs[r.value] == x && forall k :: 0 <= k < r.value ==> xs[k] != x
  {
    if xs == [] then Err(ValueError)
    else if xs[0] == x then Ok(0)
    else match IndexOf(xs[1..], x)
      case Ok(k) => Ok(k + 1)
      case Err(e) => Err(e)
  }

  /** Lines 194-200: get_run_ordered_index, the run's position in `runs_in_order`. */
  function GetRunOrderedIndex(s: RunSummary, runId: int): Result<nat> {
    IndexOf(s.runsInOrder, runId)
  }

  lemma {:induction false} AllRunIdsAreRunIds(rows: seq<RunOrderRow>, x: int)
    ensures x in AllRunIds(rows) <==> x in RunIds(rows)
  {
    var a := AllRunIds(rows);
    if x in a {
      var i :| 0 <= i < |a| && a[i] == x;
      assert rows[i].runId == x;
    }
    if x in RunIds(rows) {
      var i :| 0 <= i < |rows| && rows[i].runId == x;
      assert a[i] == x;
    }
  }

  /** On a built summary, a run has an ordered index exactly when it has a run order; otherwise ValueError. */
  lemma OrderedIndexExactlyForKnownRuns(s: RunSummary, db: Database, tag: string, runId: int)
    requires IsRunSummaryOf(s, db, tag)
    ensures GetRunOrderedIndex(s, runId).Ok? <==> runId in s.orderByRun
    ensures GetRunOrderedIndex(s, runId).Err? ==> GetRunOrderedIndex(s, runId).error == ValueError
  {
    RunsInOrderIsPermutation(s, db, tag);
    AllRunIdsAreRunIds(RunOrderRows(db, tag), runId);
    assert runId in s.runsInOrder <==> runId in multiset(s.runsInOrder);
  }

  /** Every run of `runs_in_order` has a machine, so the scans never raise KeyError. */
  ghost predicate MachinesKnown(s: RunSummary) {
    forall k :: 0 <= k < |s.runsInOrder| ==> s.runsInOrder[k] in s.machineIdByRun
  }

  /**
   * Scanning `rs` upward over [lo, hi) for the first run on machine `m`: its
   * index, None when no run there is on `m`, or KeyError at the first run
   * before any match whose machine is unknown.
   */
  function FirstOnMachine(rs: seq<int>, mach: map<int, int>, m: int, lo: nat, hi: nat): (r: Result<Option<nat>>)
    requires hi <= |rs|
    ensures r.Err? ==>
      && r.error == KeyError
      && exists k :: lo <= k < hi && rs[k] !in mach && forall k' :: lo <= k' < k ==> rs[k'] in mach && mach[rs[k']] != m
    ensures r == Ok(None) ==> forall k :: lo <= k < hi ==> rs[k] in mach && mach[rs[k]] != m
    ensures r.Ok? && r.value.Some? ==>
      && lo <= r.value.value < hi && rs[r.value.value] in mach && mach[rs[r.value.value]] == m
      && forall k :: lo <= k < r.value.value ==> rs[k] in mach && mach[rs[k]] != m
    decreases hi - lo
  {
    if lo >= hi then Ok(None)
    else if rs[lo] !in mach then Err(KeyError)
    else if mach[rs[lo]] == m then Ok(Some(lo))
    else FirstOnMachine(rs, mach, m, lo + 1, hi)
  }

  /**
   * Scanning `rs` downward over [0, hi) for the last run on machine `m`: its
   * index, None when no run there is on `m`, or KeyError at the first run
   * scanned before any match whose machine is unknown.
   */
  function LastOnMachine(rs: seq<int>, mach: map<int, int>, m: int, hi: nat): (r: Result<Option<nat>>)
    requires hi <= |rs|
    ensures r.Err? ==>
      && r.error == KeyError
      && exists k :: 0 <= k < hi && rs[k] !in mach && forall k' :: k < k' < hi ==> rs[k'] in mach && mach[rs[k']] != m
    ensures r == Ok(None) ==> forall k :: 0 <= k < hi ==> rs[k] in mach && mach[rs[k]] != m
    ensures r.Ok? && r.value.Some? ==>
      && r.value.value < hi && rs[r.value.value] in mach && mach[rs[r.value.value]] == m
      && forall k :: r.value.value < k < hi ==> rs[k] in mach && mach[rs[k]] != m
  {
    if hi == 0 then Ok(None)
    else if rs[hi - 1] !in mach then Err(KeyError)
    else if mach[rs[hi - 1]] == m then Ok(Some(hi - 1))
    else LastOnMachine(rs, mach, m, hi - 1)
  }

  /** Lines 202-208: the nearest later entry of `runs_in_order` (an older order) on the run's machine. */
  function PreviousRunOnMachine(s: RunSummary, runId: int): Result<Option<int>> {
    if runId !in s.machineIdByRun then Err(KeyError)
    else match IndexOf(s.runsInOrder, runId)
      case Err(e) => Err(e)
      case Ok(index) =>
        match FirstOnMachine(s.runsInOrder, s.machineIdByRun, s.machineIdByRun[runId], index + 1, |s.runsInOrder|)
        case Err(e) => Err(e)
        case Ok(None) => Ok(None)
        case Ok(Some(j)) => Ok(Some(s.runsInOrder[j]))
  }

  /** Lines 210-216: the nearest earlier entry of `runs_in_order` (a newer order) on the run's machine. */
  function NextRunOnMachine(s: RunSummary, runId: int): Result<Option<int>> {
    if runId !in s.machineIdByRun then Err(KeyError)
    else match IndexOf(s.runsInOrder, runId)
      case Err(e) => Err(e)
      case Ok(index) =>
        match LastOnMachine(s.runsInOrder, s.machineIdByRun, s.machineIdByRun[runId], index)
        case Err(e) => Err(e)
        case Ok(None) => Ok(None)
        case Ok(Some(j)) => Ok(Some(s.runsInOrder[j]))
  }

  /** get_previous_run_on_machine, scanning forward from the run's index. */
  method GetPreviousRunOnMachine(s: RunSummary, runId: int) returns (r: Result<Option<int>>)
    ensures r == PreviousRunOnMachine(s, runId)
  {
    if runId !in s.machineIdByRun {
      return Err(KeyError);
    }
    var machineId := s.machineIdByRun[runId];
    var index := GetRunOrderedIndex(s, runId);
    if index.Err? {
      return Err(index.error);
    }
    var rs := s.runsInOrder;
    var i := index.value + 1;
    while i < |rs|
      invariant index.value + 1 <= i <= |rs|
      invariant FirstOnMachine(rs, s.machineIdByRun, machineId, index.value + 1, |rs|)
             == FirstOnMachine(rs, s.machineIdByRun, machineId, i, |rs|)
    {
      var id := rs[i];
      if id !in s.machineIdByRun {
        return Err(KeyError);
      }
      if machineId == s.machineIdByRun[id] {
        return Ok(Some(id));
      }
      i := i + 1;
    }
    return Ok(None);
  }

  /** get_next_run_on_machine, scanning backward from just before the run's index. */
  method GetNextRunOnMachine(s: RunSummary, runId: int) returns (r: Result<Option<int>>)
    ensures r == NextRunOnMachine(s, runId)
  {
    if runId !in s.machineIdByRun {
      return Err(KeyError);
    }
    var machineId := s.machineIdByRun[runId];
    var index := GetRunOrderedIndex(s, runId);
    if index.Err? {
      return Err(index.error);
    }
    var rs := s.runsInOrder;
    var i := index.value;
    while i > 0
      invariant i <= index.value
      invariant LastOnMachine(rs, s.machineIdByRun, machineId, index.value)
             == LastOnMachine(rs, s.machineIdByRun, machineId, i)
    {
      var id := rs[i - 1];
      if id !in s.machineIdByRun {
        return Err(KeyError);
      }
      if machineId == s.machineIdByRun[id] {
        return Ok(Some(id));
      }
      i := i - 1;
    }
    return Ok(None);
  }

  /** A summary whose runs each appear once and each have a machine. */
  ghost predicate WellFormed(s: RunSummary) {
    Distinct(s.runsInOrder) && MachinesKnown(s)
  }

  /** The two scans are inverse: B is the previous run of A on their machine exactly when A is the next run of B. */
  lemma NextThenPrevious(s: RunSummary, a: int, b: int)
    requires WellFormed(s)
    ensures PreviousRunOnMachine(s, a) == Ok(Some(b)) ==> NextRunOnMachine(s, b) == Ok(Some(a))
    ensures NextRunOnMachine(s, b) == Ok(Some(a)) ==> PreviousRunOnMachine(s, a) == Ok(Some(b))
  {
    var rs, mach := s.runsInOrder, s.machineIdByRun;
    if PreviousRunOnMachine(s, a) == Ok(Some(b)) {
      var i := IndexOf(rs, a).value;
      var j := FirstOnMachine(rs, mach, mach[a], i + 1, |rs|).value.value;
      assert rs[j] == b;
      assert IndexOf(rs, b) == Ok(j);
      var r := LastOnMachine(rs, mach, mach[b], j);
      assert r.Ok?;
      assert r != Ok(None);
      assert r.value.value == i;
    }
    if NextRunOnMachine(s, b) == Ok(Some(a)) {
      var j := IndexOf(rs, b).value;
      var i := LastOnMachine(rs, mach, mach[b], j).value.value;
      assert rs[i] == a;
      assert IndexOf(rs, a) == Ok(i);
      var r := FirstOnMachine(rs, mach, mach[a], i + 1, |rs|);
      assert r.Ok?;
      assert r != Ok(None);
      assert r.value.value == j;
    }
  }

  /** In a well-formed summary the scans raise KeyError exactly for a run with no machine, and ValueError never. */
  lemma ScansFailOnlyForUnknownRuns(s: RunSummary, runId: int)
    requires WellFormed(s)
    requires runId in s.runsInOrder || runId !in s.machineIdByRun
    ensures PreviousRunOnMachine(s, runId).Err? <==> runId !in s.machineIdByRun
    ensures NextRunOnMachine(s, runId).Err? <==> runId !in s.machineIdByRun
  {
  }

  /** A multiset in which nothing is repeated is that of a list in which nothing is repeated. */
  lemma {:induction false} DistinctCounts<T>(a: seq<T>, x: T)
    requires Distinct(a)
    ensures multiset(a)[x] <= 1
  {
    if a != [] {
      var n := |a| - 1;
      assert a == a[..n] + [a[n]];
      assert a[n] !in a[..n];
      DistinctCounts(a[..n], x);
    }
  }

  lemma DistinctByMultiset<T>(a: seq<T>, b: seq<T>)
    requires Distinct(a) && multiset(a) == multiset(b)
    ensures Distinct(b)
  {
    forall i, j | 0 <= i < j < |b| ensures b[i] != b[j] {
      if b[i] == b[j] {
        assert b == b[..i] + [b[i]] + b[i + 1..j] + [b[j]] + b[j + 1..];
        assert multiset(b)[b[i]] >= 2;
        DistinctCounts(a, b[i]);
      }
    }
  }

  /** A summary built from the database, with one row per run, is well formed. */
  lemma BuiltSummaryIsWellFormed(s: RunSummary, db: Database, tag: string)
    requires IsRunSummaryOf(s, db, tag) && OneRowPerRun(RunOrderRows(db, tag))
    ensures WellFormed(s)
  {
    var rows := RunOrderRows(db, tag);
    RunsInOrderIsPermutation(s, db, tag);
    var all := AllRunIds(rows);
    assert Distinct(all);
    DistinctByMultiset(all, s.runsInOrder);
    forall k | 0 <= k < |s.runsInOrder| ensures s.runsInOrder[k] in s.machineIdByRun {
      var x := s.runsInOrder[k];
      assert x in multiset(s.runsInOrder);
      AllRunIdsAreRunIds(rows, x);
    }
  }
}

/**
 * The performance database as the summaries see it: the RunInfo, Run and
 * Test tables, the per-kind revision counters, and the three queries the
 * summary builders issue, as filters over those tables.
 */
module PerfDb {
  import opened Ordering

  /** The entity kinds whose revision counters the summaries depend on. */
  datatype Kind = RunKind | TestKind | RunInfoKind

  /** A key/value annotation on a run (`tag`, `run_order`, ...). */
  datatype RunInfo = RunInfo(runId: int, key: string, value: string)

  ghost predicate DistinctKeys(items: seq<(string, string)>) {
    forall i, j :: 0 <= i < j < |items| ==> items[i].0 != items[j].0
  }

  /** A test's metadata dictionary, as its (key, value) items in iteration order. */
  type Info = items: seq<(string, string)> | DistinctKeys(items) witness []

  datatype Test = Test(name: string, info: Info)

  /** One row of the run-order query: the run's order value, its id and its machine. */
  datatype RunOrderRow = RunOrderRow(order: string, runId: int, machineId: int)

  datatype Database = Database(
    path: string,
    runRevision: int,
    testRevision: int,
    runInfoRevision: int,
    runInfos: seq<RunInfo>,
    machineOfRun: map<int, int>,  // the Run table: id -> machine_id
    tests: seq<Test>)
  {
    /** get_revision_number: the live counter of one entity kind. */
    function Revision(kind: Kind): int {
      match kind
      case RunKind => runRevision
      case TestKind => testRevision
      case RunInfoKind => runInfoRevision
    }
  }

  /** The distinct values of the RunInfo entries with key `key`, in order of first appearance. */
  function DistinctValues(infos: seq<RunInfo>, key: string): (r: seq<string>)
    ensures Distinct(r)
    ensures Elems(r) == set i | 0 <= i < |infos| && infos[i].key == key :: infos[i].value
  {
    if infos == [] then []
    else
      var rest := DistinctValues(infos[..|infos| - 1], key);
      var last := infos[|infos| - 1];
      var n := |infos| - 1;
      assert forall i :: 0 <= i < n ==> infos[..n][i] == infos[i];
      assert (set i | 0 <= i < |infos| && infos[i].key == key :: infos[i].value)
          == (set i | 0 <= i < n && infos[i].key == key :: infos[i].value)
           + (if last.key == key then {last.value} else {});
      var r := if last.key == key && last.value !in rest then rest + [last.value] else rest;
      assert Elems(r) == Elems(rest) + (if last.key == key then {last.value} else {});
      r
  }

  /** `SELECT DISTINCT value FROM RunInfo WHERE key = 'tag'`. */
  function TagValues(db: Database): (r: seq<string>)
    ensures Distinct(r)
    ensures forall v :: v in r <==> exists i :: 0 <= i < |db.runInfos| && db.runInfos[i].key == "tag" && db.runInfos[i].value == v
  {
    var r := DistinctValues(db.runInfos, "tag");
    assert forall v :: v in r <==> v in Elems(r);
    r
  }

  /** The tests whose name starts with `prefix`, in table order. */
  function TestsWithPrefix(tests: seq<Test>, prefix: string): (r: seq<Test>)
    ensures |r| <= |tests|
    ensures forall t :: t in r <==> t in tests && prefix <= t.name
  {
    if tests == [] then []
    else
      var rest := TestsWithPrefix(tests[1..], prefix);
      assert forall t :: t in tests <==> t == tests[0] || t in tests[1..];
      if prefix <= tests[0].name then [tests[0]] + rest else rest
  }

  /** Whether the run `runId` carries the RunInfo `tag = tag`. */
  predicate IsTaggedRun(infos: seq<RunInfo>, runId: int, tag: string) {
    exists i :: 0 <= i < |infos| && infos[i] == RunInfo(runId, "tag", tag)
  }

  /** Joins each `run_order` entry of `infos` with its run, keeping the runs tagged `tag` in `all`. */
  function RunOrderJoin(infos: seq<RunInfo>, all: seq<RunInfo>, machineOfRun: map<int, int>, tag: string): (r: seq<RunOrderRow>)
    ensures |r| <= |infos|
    ensures forall row :: row in r <==>
      && row.runId in machineOfRun && row.machineId == machineOfRun[row.runId]
      && IsTaggedRun(all, row.runId, tag)
      && RunInfo(row.runId, "run_order", row.order) in infos
  {
    if infos == [] then []
    else
      var rest := RunOrderJoin(infos[1..], all, machineOfRun, tag);
      var ri := infos[0];
      assert forall x :: x in infos <==> x == ri || x in infos[1..];
      if ri.key == "run_order" && ri.runId in machineOfRun && IsTaggedRun(all, ri.runId, tag) then
        [RunOrderRow(ri.value, ri.runId, machineOfRun[ri.runId])] + rest
      else rest
  }

  /**
   * The run-order query: (RunInfo.value, RunInfo.run_id, Run.machine_id) for the
   * `run_order` entries of runs tagged `tag`, joined with the Run table.
   */
  function RunOrderRows(db: Database, tag: string): seq<RunOrderRow> {
    RunOrderJoin(db.runInfos, db.runInfos, db.machineOfRun, tag)
  }
}

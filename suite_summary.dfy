/**
 * PerfDBSummary (the suite listing) and SimpleSuiteSummary (the per-suite
 * index of test names, status markers and parameter sets) of
 * lnt/db/perfdbsummary.py, built from the database's tables.
 */
module SuiteSummary {
  import opened Wrappers
  import opened Ordering
  import opened PerfDb

  // ---------------------------------------------------------------------
  // The suite listing
  // ---------------------------------------------------------------------

  datatype Suite = Suite(name: string, path: seq<string>)

  datatype PerfDbSummary = PerfDbSummary(revision: int, suites: seq<Suite>)
  {
    /** The listing depends on the Run counter. */
    predicate IsUpToDate(db: Database) {
      revision == db.Revision(RunKind)
    }
  }

  /** The synthetic suite that is always listed. */
  const Nightlytest := Suite("Nightlytest", ["nightlytest"])

  /** The suite of the runs tagged `tag`. */
  function SimpleSuite(tag: string): Suite {
    Suite(tag, ["simple", tag])
  }

  ghost predicate SortedByName(s: seq<Suite>) {
    forall i, j :: 0 <= i < j < |s| ==> !StringLess(s[j].name, s[i].name)
  }

  /** Inserts `x` after every suite whose name is not greater, so that equal names keep their order. */
  function InsertByName(x: Suite, s: seq<Suite>): (r: seq<Suite>)
    requires SortedByName(s)
    ensures SortedByName(r)
    ensures multiset(r) == multiset(s) + multiset{x}
  {
    if s == [] then [x]
    else if StringLess(x.name, s[0].name) then
      assert forall j :: 0 <= j < |s| ==> !StringLess(s[j].name, x.name) by {
        forall j | 0 <= j < |s| && StringLess(s[j].name, x.name) ensures false {
          StringLessTransitive(s[j].name, x.name, s[0].name);
          StringLessIrreflexive(s[0].name);
        }
      }
      [x] + s
    else
      var t := InsertByName(x, s[1..]);
      assert s == [s[0]] + s[1..];
      assert forall j :: 0 <= j < |t| ==> !StringLess(t[j].name, s[0].name) by {
        forall j | 0 <= j < |t| ensures !StringLess(t[j].name, s[0].name) {
          assert t[j] in multiset(s[1..]) + multiset{x};
          if t[j] != x {
            assert t[j] in s[1..];
          }
        }
      }
      [s[0]] + t
  }

  /** `suites.sort(key=lambda s: s.name)`: a stable insertion sort by name. */
  function SortByName(s: seq<Suite>): (r: seq<Suite>)
    ensures SortedByName(r)
    ensures multiset(r) == multiset(s)
  {
    if s == [] then []
    else
      assert s == s[..|s| - 1] + [s[|s| - 1]];
      InsertByName(s[|s| - 1], SortByName(s[..|s| - 1]))
  }

  /** The suites named `n`, in list order. */
  function WithName(s: seq<Suite>, n: string): seq<Suite> {
    if s == [] then [] else (if s[0].name == n then [s[0]] else []) + WithName(s[1..], n)
  }

  lemma {:induction false} WithNameConcat(a: seq<Suite>, b: seq<Suite>, n: string)
    ensures WithName(a + b, n) == WithName(a, n) + WithName(b, n)
  {
    if a == [] {
      assert a + b == b;
    } else {
      var c := a + b;
      var head := if a[0].name == n then [a[0]] else [];
      assert c[0] == a[0] && c[1..] == a[1..] + b;
      WithNameConcat(a[1..], b, n);
      assert WithName(c, n) == head + WithName(c[1..], n);
      assert WithName(a, n) == head + WithName(a[1..], n);
    }
  }

  lemma {:induction false} WithNameNone(s: seq<Suite>, n: string)
    requires forall j :: 0 <= j < |s| ==> s[j].name != n
    ensures WithName(s, n) == []
  {
    if s != [] {
      WithNameNone(s[1..], n);
    }
  }

  /** Insertion is stable: `x` goes after every suite of its name already in `s`. */
  lemma {:induction false} InsertByNameStable(x: Suite, s: seq<Suite>, n: string)
    requires SortedByName(s)
    ensures WithName(InsertByName(x, s), n) == WithName(s, n) + (if x.name == n then [x] else [])
  {
    if s == [] {
      assert WithName([x], n) == (if x.name == n then [x] else []) + WithName([], n);
    } else if StringLess(x.name, s[0].name) {
      var r := [x] + s;
      assert r[1..] == s;
      if x.name == n {
        forall j | 0 <= j < |s| ensures s[j].name != n {
          if j == 0 {
            StringLessIrreflexive(s[0].name);
          }
        }
        WithNameNone(s, n);
      }
    } else {
      var t := InsertByName(x, s[1..]);
      InsertByNameStable(x, s[1..], n);
      assert ([s[0]] + t)[1..] == t;
    }
  }

  /** `suites.sort(key=lambda s: s.name)` is stable: the suites of one name keep their order. */
  lemma {:induction false} SortByNameStable(s: seq<Suite>, n: string)
    ensures WithName(SortByName(s), n) == WithName(s, n)
  {
    if s != [] {
      var init, last := s[..|s| - 1], s[|s| - 1];
      var tail := if last.name == n then [last] else [];
      assert WithName(SortByName(s), n) == WithName(init, n) + tail by {
        var sorted := SortByName(init);
        assert SortByName(s) == InsertByName(last, sorted);
        SortByNameStable(init, n);
        InsertByNameStable(last, sorted, n);
      }
      assert WithName(s, n) == WithName(init, n) + tail by {
        assert s == init + [last];
        WithNameConcat(init, [last], n);
        assert WithName([last], n) == tail + WithName([], n);
      }
    }
  }

  /** The suites a listing built from the tags `tags` holds: Nightlytest, and one simple suite per other tag. */
  ghost predicate IsListedSuite(tags: seq<string>, su: Suite) {
    || su == Nightlytest
    || (su.name in tags && su.name != "nightlytest" && su == SimpleSuite(su.name))
  }

  /** PerfDBSummary.fromdb. */
  method PerfDbSummaryFromDb(db: Database) returns (s: PerfDbSummary)
    ensures s.revision == db.Revision(RunKind)
    ensures SortedByName(s.suites)
    ensures forall su :: multiset(s.suites)[su] == if IsListedSuite(TagValues(db), su) then 1 else 0
    ensures WithName(s.suites, Nightlytest.name) ==
      [Nightlytest] + (if Nightlytest.name in TagValues(db) then [SimpleSuite(Nightlytest.name)] else [])
  {
    var tags := TagValues(db);
    var suites := [Nightlytest];
    assert WithName(suites, Nightlytest.name) == [Nightlytest] + WithName([], Nightlytest.name);
    for i := 0 to |tags|
      invariant forall su :: multiset(suites)[su] == if IsListedSuite(tags[..i], su) then 1 else 0
      invariant WithName(suites, Nightlytest.name) ==
        [Nightlytest] + (if Nightlytest.name in tags[..i] then [SimpleSuite(Nightlytest.name)] else [])
    {
      assert tags[..i + 1] == tags[..i] + [tags[i]];
      assert tags[i] !in tags[..i];
      if tags[i] != "nightlytest" {
        var su := SimpleSuite(tags[i]);
        WithNameConcat(suites, [su], Nightlytest.name);
        assert WithName([su], Nightlytest.name) == (if su.name == Nightlytest.name then [su] else []) + WithName([], Nightlytest.name);
        suites := suites + [su];
      }
    }
    assert tags[..|tags|] == tags;
    SortByNameStable(suites, Nightlytest.name);
    s := PerfDbSummary(db.Revision(RunKind), SortByName(suites));
  }

  // ---------------------------------------------------------------------
  // Test names and markers
  // ---------------------------------------------------------------------

  /** How a test name takes part in pass/fail derivation. */
  datatype Marker = Plain | StatusMarker | SuccessMarker

  predicate EndsWith(s: string, suffix: string) {
    |suffix| <= |s| && s[|s| - |suffix|..] == suffix
  }

  /** The index of the first '.' of `s`. */
  function FirstDot(s: string): (r: Option<nat>)
    ensures r.None? <==> '.' !in s
    ensures r.Some? ==> r.value < |s| && s[r.value] == '.' && '.' !in s[..r.value]
  {
    if s == [] then None
    else if s[0] == '.' then Some(0)
    else
      assert s == [s[0]] + s[1..];
      match FirstDot(s[1..])
      case None => None
      case Some(i) =>
        assert s[..i + 1] == [s[0]] + s[1..][..i];
        Some(i + 1)
  }

  /** The index of the last '.' of `s`. */
  function LastDot(s: string): (r: Option<nat>)
    ensures r.None? <==> '.' !in s
    ensures r.Some? ==> r.value < |s| && s[r.value] == '.' && forall k :: r.value < k < |s| ==> s[k] != '.'
  {
    if s == [] then None
    else if s[|s| - 1] == '.' then Some(|s| - 1)
    else
      assert s == s[..|s| - 1] + [s[|s| - 1]];
      LastDot(s[..|s| - 1])
  }

  /** `name.split('.', 1)[1]`: what follows the first '.', or IndexError when there is no '.'. */
  function AfterFirstDot(name: string): (r: Result<string>)
    ensures r.Err? <==> '.' !in name
    ensures r.Err? ==> r.error == IndexError
    ensures r.Ok? ==> FirstDot(name).Some? && r.value == name[FirstDot(name).value + 1..]
  {
    match FirstDot(name)
    case None => Err(IndexError)
    case Some(i) => Ok(name[i + 1..])
  }

  /** The stripped name is what follows a dot-free head and the first '.'. */
  lemma AfterFirstDotSplits(name: string)
    requires '.' in name
    ensures var i := FirstDot(name).value;
      '.' !in name[..i] && name == name[..i] + "." + AfterFirstDot(name).value
  {
    var i := FirstDot(name).value;
    assert name == name[..i] + "." + name[i + 1..];
  }

  /** Lines 64-71: `.success` is tested first, then `.status`. */
  function Classify(name: string): Marker {
    if EndsWith(name, ".success") then SuccessMarker
    else if EndsWith(name, ".status") then StatusMarker
    else Plain
  }

  /** A marker name ends in `.`+`word`, where `word` has no '.': its last '.' is the one before `word`. */
  lemma LastDotOfSuffix(name: string, suffix: string)
    requires |suffix| >= 1 && suffix[0] == '.' && '.' !in suffix[1..]
    requires EndsWith(name, suffix)
    ensures LastDot(name) == Some(|name| - |suffix|)
  {
    var d := LastDot(name);
    var p := |name| - |suffix|;
    assert name[p] == suffix[0];
    assert forall k :: p < k < |name| ==> name[k] == suffix[1..][k - p - 1];
  }

  /** The base test name: for a marker `name.rsplit('.', 1)[0]`, otherwise the name itself. */
  function BaseName(name: string): (r: string)
    ensures Classify(name) == Plain ==> r == name
    ensures Classify(name) == SuccessMarker ==> r + ".success" == name
    ensures Classify(name) == StatusMarker ==> r + ".status" == name
  {
    match Classify(name)
    case Plain => name
    case SuccessMarker =>
      LastDotOfSuffix(name, ".success");
      assert name == name[..|name| - 8] + ".success";
      name[..LastDot(name).value]
    case StatusMarker =>
      LastDotOfSuffix(name, ".status");
      assert name == name[..|name| - 7] + ".status";
      name[..LastDot(name).value]
  }

  // ---------------------------------------------------------------------
  // Parameter sets
  // ---------------------------------------------------------------------

  /** A parameter fingerprint: a test's metadata items, sorted. */
  type ParamSet = seq<(string, string)>

  /** Lines 57-59: the test's (key, value) items, sorted. */
  function ParamKey(info: Info): (r: ParamSet)
    ensures StrictlySorted(r, PairLess)
    ensures Elems(r) == Elems(info)
    ensures forall i, j :: 0 <= i < j < |r| ==> StringLess(r[i].0, r[j].0)
  {
    PairLessIsStrictTotal();
    var r := SortDistinct(info, PairLess);
    assert forall i :: 0 <= i < |r| ==> r[i] in Elems(info);
    assert forall i, j :: 0 <= i < j < |r| && r[i].0 == r[j].0 ==> r[i] == r[j];
    r
  }

  // ---------------------------------------------------------------------
  // The per-suite summary
  // ---------------------------------------------------------------------

  datatype SimpleSuiteSummary = SimpleSuiteSummary(
    revision: int,
    tag: string,
    testNames: seq<string>,
    testMap: map<(string, ParamSet), Test>,
    testStatusMap: map<string, (string, bool)>,
    parameterKeys: seq<string>,
    parameterSets: seq<ParamSet>)
  {
    /** The per-suite summary depends on the Test counter. */
    predicate IsUpToDate(db: Database) {
      revision == db.Revision(TestKind)
    }
  }

  /** Every test name has a '.', so that its prefix can be stripped. */
  ghost predicate AllDotted(tests: seq<Test>) {
    forall i :: 0 <= i < |tests| ==> '.' in tests[i].name
  }

  /** The test name with everything up to and including its first '.' removed. */
  function StrippedName(t: Test): string
    requires '.' in t.name
  {
    AfterFirstDot(t.name).value
  }

  /** The key of `test_map`: the stripped name and the parameter set. */
  function TestKey(t: Test): (string, ParamSet)
    requires '.' in t.name
  {
    (StrippedName(t), ParamKey(t.info))
  }

  ghost function NameSet(tests: seq<Test>): set<string>
    requires AllDotted(tests)
  {
    set i | 0 <= i < |tests| :: BaseName(StrippedName(tests[i]))
  }

  ghost function ParamSetSet(tests: seq<Test>): set<ParamSet> {
    set i | 0 <= i < |tests| :: ParamKey(tests[i].info)
  }

  ghost function KeysOf(psets: set<ParamSet>): set<string> {
    set p, kv | p in psets && kv in p :: kv.0
  }

  ghost predicate HasMarker(tests: seq<Test>, m: Marker)
    requires AllDotted(tests)
  {
    exists i :: 0 <= i < |tests| && Classify(StrippedName(tests[i])) == m
  }

  /** `test_map`: each key maps to the last test that has it. */
  ghost function TestMapOf(tests: seq<Test>): map<(string, ParamSet), Test>
    requires AllDotted(tests)
  {
    if tests == [] then map[]
    else
      var last := tests[|tests| - 1];
      TestMapOf(tests[..|tests| - 1])[TestKey(last) := last]
  }

  /** The map from every base name to its status marker. */
  ghost function MarkerMapOf(names: set<string>, suffix: string, isStatus: bool): map<string, (string, bool)> {
    map n | n in names :: (n + suffix, isStatus)
  }

  /** What SimpleSuiteSummary.fromdb(db, tag) holds, when no test name lacks a '.'. */
  ghost predicate IsSuiteSummaryOf(s: SimpleSuiteSummary, db: Database, tag: string) {
    var tests := TestsWithPrefix(db.tests, tag);
    && AllDotted(tests)
    && s.revision == db.Revision(TestKind)
    && s.tag == tag
    && StrictlySorted(s.testNames, StringLess)
    && Elems(s.testNames) == NameSet(tests)
    && (HasMarker(tests, StatusMarker) ==>
          s.testStatusMap == MarkerMapOf(NameSet(tests), ".status", true))
    && (!HasMarker(tests, StatusMarker) && HasMarker(tests, SuccessMarker) ==>
          s.testStatusMap == MarkerMapOf(NameSet(tests), ".success", false))
    && (!HasMarker(tests, StatusMarker) && !HasMarker(tests, SuccessMarker) ==>
          s.testStatusMap == map[])
    && StrictlySorted(s.parameterSets, PairsLess)
    && Elems(s.parameterSets) == ParamSetSet(tests)
    && StrictlySorted(s.parameterKeys, StringLess)
    && Elems(s.parameterKeys) == KeysOf(ParamSetSet(tests))
    && s.testMap == TestMapOf(tests)
  }

  /** Lines 76-84: one marker name per base name, all with the same suffix and flag. */
  method MarkerMap(names: set<string>, suffix: string, isStatus: bool) returns (m: map<string, (string, bool)>)
    ensures m == MarkerMapOf(names, suffix, isStatus)
  {
    m := map[];
    var rest := names;
    while rest != {}
      invariant rest <= names
      invariant m == MarkerMapOf(names - rest, suffix, isStatus)
      decreases rest
    {
      var n :| n in rest;
      m := m[n := (n + suffix, isStatus)];
      rest := rest - {n};
    }
  }

  /** What the collection loop of lines 54-73 adds for one more test. */
  lemma CollectOneMore(ts: seq<Test>, t: Test)
    requires AllDotted(ts) && '.' in t.name
    ensures AllDotted(ts + [t])
    ensures NameSet(ts + [t]) == NameSet(ts) + {BaseName(StrippedName(t))}
    ensures ParamSetSet(ts + [t]) == ParamSetSet(ts) + {ParamKey(t.info)}
    ensures TestMapOf(ts + [t]) == TestMapOf(ts)[TestKey(t) := t]
    ensures forall m :: HasMarker(ts + [t], m) <==> HasMarker(ts, m) || Classify(StrippedName(t)) == m
  {
    var u := ts + [t];
    assert forall k :: 0 <= k < |ts| ==> u[k] == ts[k];
    assert u[..|ts|] == ts;
    assert u[|ts|] == t;
    NameSetOneMore(ts, t);
    ParamSetSetOneMore(ts, t);
    forall m ensures HasMarker(u, m) <==> HasMarker(ts, m) || Classify(StrippedName(t)) == m {
      MarkerOneMore(ts, t, m);
    }
  }

  lemma NameSetOneMore(ts: seq<Test>, t: Test)
    requires AllDotted(ts) && '.' in t.name
    ensures AllDotted(ts + [t])
    ensures NameSet(ts + [t]) == NameSet(ts) + {BaseName(StrippedName(t))}
  {
    var u := ts + [t];
    assert forall k :: 0 <= k < |ts| ==> u[k] == ts[k];
    assert u[|ts|] == t;
    forall x | x in NameSet(u) ensures x in NameSet(ts) + {BaseName(StrippedName(t))} {
      var i :| 0 <= i < |u| && BaseName(StrippedName(u[i])) == x;
      if i < |ts| {
        assert BaseName(StrippedName(ts[i])) == x;
      }
    }
    forall x | x in NameSet(ts) ensures x in NameSet(u) {
      var i :| 0 <= i < |ts| && BaseName(StrippedName(ts[i])) == x;
      assert BaseName(StrippedName(u[i])) == x;
    }
    assert BaseName(StrippedName(u[|ts|])) in NameSet(u);
  }

  lemma ParamSetSetOneMore(ts: seq<Test>, t: Test)
    ensures ParamSetSet(ts + [t]) == ParamSetSet(ts) + {ParamKey(t.info)}
  {
    var u := ts + [t];
    assert forall k :: 0 <= k < |ts| ==> u[k] == ts[k];
    assert u[|ts|] == t;
  }

  lemma MarkerOneMore(ts: seq<Test>, t: Test, m: Marker)
    requires AllDotted(ts) && '.' in t.name
    ensures AllDotted(ts + [t])
    ensures HasMarker(ts + [t], m) <==> HasMarker(ts, m) || Classify(StrippedName(t)) == m
  {
    var u := ts + [t];
    assert forall k :: 0 <= k < |ts| ==> u[k] == ts[k];
    assert u[|ts|] == t;
    if HasMarker(u, m) && !HasMarker(ts, m) {
      var i :| 0 <= i < |u| && Classify(StrippedName(u[i])) == m;
      assert i == |ts|;
    }
    if HasMarker(ts, m) {
      var i :| 0 <= i < |ts| && Classify(StrippedName(ts[i])) == m;
      assert Classify(StrippedName(u[i])) == m;
    }
  }

  /** The sets, the test map and the marker flags collected so far are those of `tests`. */
  ghost predicate Collected(tests: seq<Test>, testNames: set<string>, parameterSets: set<ParamSet>,
                            testMap: map<(string, ParamSet), Test>, hasStatusMarkers: bool, hasSuccessMarkers: bool)
  {
    && AllDotted(tests)
    && testNames == NameSet(tests)
    && parameterSets == ParamSetSet(tests)
    && testMap == TestMapOf(tests)
    && hasStatusMarkers == HasMarker(tests, StatusMarker)
    && hasSuccessMarkers == HasMarker(tests, SuccessMarker)
  }

  /** One iteration of the loop of lines 54-73 extends what has been collected by one test. */
  lemma CollectStep(ts: seq<Test>, t: Test, testNames: set<string>, parameterSets: set<ParamSet>,
                    testMap: map<(string, ParamSet), Test>, hasStatusMarkers: bool, hasSuccessMarkers: bool)
    requires Collected(ts, testNames, parameterSets, testMap, hasStatusMarkers, hasSuccessMarkers)
    requires '.' in t.name
    ensures Collected(ts + [t], testNames + {BaseName(StrippedName(t))}, parameterSets + {ParamKey(t.info)},
                      testMap[TestKey(t) := t],
                      hasStatusMarkers || Classify(StrippedName(t)) == StatusMarker,
                      hasSuccessMarkers || Classify(StrippedName(t)) == SuccessMarker)
  {
    CollectOneMore(ts, t);
  }

  /** Lines 54-73: the sets, the test map and the marker flags over the suite's tests. */
  method CollectTests(tests: seq<Test>)
    returns (ok: bool, testNames: set<string>, parameterSets: set<ParamSet>,
             testMap: map<(string, ParamSet), Test>, hasStatusMarkers: bool, hasSuccessMarkers: bool)
    ensures ok <==> AllDotted(tests)
    ensures ok ==> && testNames == NameSet(tests)
                   && parameterSets == ParamSetSet(tests)
                   && testMap == TestMapOf(tests)
                   && hasStatusMarkers == HasMarker(tests, StatusMarker)
                   && hasSuccessMarkers == HasMarker(tests, SuccessMarker)
  {
    testNames, parameterSets, testMap := {}, {}, map[];
    hasStatusMarkers, hasSuccessMarkers := false, false;
    var i := 0;
    while i < |tests|
      invariant 0 <= i <= |tests|
      invariant Collected(tests[..i], testNames, parameterSets, testMap, hasStatusMarkers, hasSuccessMarkers)
    {
      var t := tests[i];
      var stripped := AfterFirstDot(t.name);
      if stripped.Err? {
        ok := false;
        return;
      }
      var name := stripped.value;
      var key := ParamKey(t.info);
      var marker := Classify(name);
      assert name == StrippedName(t) && (name, key) == TestKey(t);
      ghost var status := hasStatusMarkers || marker == StatusMarker;
      ghost var success := hasSuccessMarkers || marker == SuccessMarker;
      CollectStep(tests[..i], t, testNames, parameterSets, testMap, hasStatusMarkers, hasSuccessMarkers);
      assert tests[..i + 1] == tests[..i] + [t];
      parameterSets := parameterSets + {key};
      testMap := testMap[(name, key) := t];
      if marker == SuccessMarker {
        hasSuccessMarkers := true;
      } else if marker == StatusMarker {
        hasStatusMarkers := true;
      }
      assert hasStatusMarkers == status && hasSuccessMarkers == success;
      testNames := testNames + {BaseName(name)};
      assert Collected(tests[..i + 1], testNames, parameterSets, testMap, hasStatusMarkers, hasSuccessMarkers);
      i := i + 1;
    }
    assert tests[..i] == tests;
    ok := true;
  }

  /** SimpleSuiteSummary.fromdb: IndexError when a test of the suite has no '.' in its name. */
  method SimpleSuiteSummaryFromDb(db: Database, tag: string) returns (r: Result<SimpleSuiteSummary>)
    ensures r.Err? <==> !AllDotted(TestsWithPrefix(db.tests, tag))
    ensures r.Err? ==> r.error == IndexError
    ensures r.Ok? ==> IsSuiteSummaryOf(r.value, db, tag)
  {
    var tests := TestsWithPrefix(db.tests, tag);
    var ok, testNames, parameterSets, testMap, hasStatusMarkers, hasSuccessMarkers := CollectTests(tests);
    if !ok {
      return Err(IndexError);
    }

    var statusMap: map<string, (string, bool)> := map[];
    if hasStatusMarkers {
      statusMap := MarkerMap(testNames, ".status", true);
    } else if hasSuccessMarkers {
      statusMap := MarkerMap(testNames, ".success", false);
    }

    StringLessIsStrictTotal();
    PairsLessIsStrictTotal();
    var names := SortSet(testNames, StringLess);
    var keys := SortSet(set p, kv | p in parameterSets && kv in p :: kv.0, StringLess);
    var sets := SortSet(parameterSets, PairsLess);
    return Ok(SimpleSuiteSummary(db.Revision(TestKind), tag, names, testMap, statusMap, keys, sets));
  }

  /** The keys of `test_map` are exactly the keys of the suite's tests. */
  lemma {:induction false} TestMapDomain(tests: seq<Test>, k: (string, ParamSet))
    requires AllDotted(tests)
    ensures k in TestMapOf(tests) <==> exists j :: 0 <= j < |tests| && TestKey(tests[j]) == k
  {
    if tests != [] {
      var n := |tests| - 1;
      var init := tests[..n];
      assert forall j :: 0 <= j < n ==> init[j] == tests[j];
      assert TestMapOf(tests) == TestMapOf(init)[TestKey(tests[n]) := tests[n]];
      TestMapDomain(init, k);
      if k in TestMapOf(init) {
        var j :| 0 <= j < n && TestKey(init[j]) == k;
        assert TestKey(tests[j]) == k;
      }
    }
  }

  /** A key of `test_map` maps to the last of the suite's tests that has it. */
  lemma {:induction false} TestMapLastWins(tests: seq<Test>, j: nat)
    requires AllDotted(tests) && j < |tests|
    requires forall j' :: j < j' < |tests| ==> TestKey(tests[j']) != TestKey(tests[j])
    ensures TestKey(tests[j]) in TestMapOf(tests) && TestMapOf(tests)[TestKey(tests[j])] == tests[j]
  {
    var n := |tests| - 1;
    var init := tests[..n];
    assert forall j' :: 0 <= j' < n ==> init[j'] == tests[j'];
    assert TestMapOf(tests) == TestMapOf(init)[TestKey(tests[n]) := tests[n]];
    if j < n {
      TestMapLastWins(init, j);
    }
  }

  /** The summary is determined by the database and the tag: any two builds agree. */
  lemma SuiteSummaryDeterministic(a: SimpleSuiteSummary, b: SimpleSuiteSummary, db: Database, tag: string)
    requires IsSuiteSummaryOf(a, db, tag) && IsSuiteSummaryOf(b, db, tag)
    ensures a == b
  {
    StringLessIsStrictTotal();
    PairsLessIsStrictTotal();
    SortedUnique(a.testNames, b.testNames, StringLess);
    SortedUnique(a.parameterSets, b.parameterSets, PairsLess);
    SortedUnique(a.parameterKeys, b.parameterKeys, StringLess);
  }
}

# LNT metadata summaries and regression triage, in Dafny

This project models two parts of LNT, the LLVM performance-testing
infrastructure.

**The PerfDB summaries** (`lnt/db/perfdbsummary.py`) are three
derived indexes the web UI caches. Each records the database revision
counter it was built against and counts as stale once that counter moves.

- *The suite listing* (`PerfDBSummary.fromdb`): the synthetic
  "Nightlytest" suite plus one "simple" suite per distinct run tag, sorted
  by name. It depends on the Run counter.
- *The per-suite summary* (`SimpleSuiteSummary.fromdb`) covers the tests
  whose name starts with the tag. It holds:
  - the sorted distinct test names, with the `.success`/`.status` marker
    suffix stripped;
  - the status-marker map;
  - the sorted parameter keys and the sorted parameter sets;
  - a map from (stripped name, parameter set) to the test.
  It depends on the Test counter.
- *The run-order index* (`SimpleSuiteRunSummary.fromdb`) covers the runs
  that carry the tag. It holds:
  - the order and the machine of each run;
  - the runs grouped by run order;
  - the distinct orders, descending;
  - the total order of runs.
  It answers the queries for a run's order, its position, and the previous
  or next run on the same machine. It depends on the RunInfo counter.
- *The two caches* (`get_simple_suite_summary` with its module dictionary,
  `SimpleSuiteRunSummary.get_summary` with its class dictionary) are keyed
  by (database path, tag). Each reuses an entry while it is up to date and
  rebuilds it otherwise.

**The regression triage views** (`lnt/server/ui/regression_views.py`):

- *PrecomputedCR* is a comparison result derived from a field change's
  stored old and new values.
- *calc_impact* combines the comparisons of several field changes into one.
- *The POST handlers* act on a store of field changes, regressions,
  regression indicators and ignored changes. An indicator links one
  regression to one field change; an ignored change is a ChangeIgnore row.
  The handlers are:
  - "Create New Regression";
  - "Ignore Changes";
  - the untriaged listing;
  - "Merge Regressions";
  - "Save Changes" (edit);
  - "Split Regression";
  - "Delete".

  The design invariant is that a field change has at most one indicator.
  The handlers that rebuild indicators (merge, split) or only remove them
  (delete) are proved to preserve it. Create preserves it exactly when the
  chosen field changes are distinct and none has an indicator yet.

Files and modules:

- `wrappers.dfy` (`Wrappers`): Option, Result and the Python exceptions the
  code can raise.
- `ordering.dfy` (`Ordering`): Python's orders on strings, (key, value)
  pairs and tuples of pairs, each proved a strict total order. It also has
  `sorted(set(...))`.
- `perfdb.dfy` (`PerfDb`): the tables, the revision counters and the three
  queries the summaries issue.
- `suite_summary.dfy` (`SuiteSummary`): the suite listing and the per-suite
  summary.
- `run_order_index.dfy` (`RunOrderIndex`): the run-order index and its
  queries.
- `summary_cache.dfy` (`SummaryCache`): the two caches, as classes whose
  `entries` map is updated in place.
- `comparison.dfy` (`Comparison`): PrecomputedCR and calc_impact.
- `regressions.dfy` (`Regressions`): the triage store as a class with one
  map per table, and the handlers as its methods.

A raised Python exception is an `Err` of the matching kind: KeyError,
ValueError, IndexError, NoResultFound (SQLAlchemy's `.one()`) or
ZeroDivisionError. A handler that raises never reaches `ts.commit()`, so
each handler is modelled as one atomic step that changes nothing when it
fails.

## Model

| member | source | states |
|---|---|---|
| PerfDb.TagValues | lnt/db/perfdbsummary.py:19-20 | The tag values are distinct, and a value is listed iff some RunInfo entry with key `tag` carries it. |
| PerfDb.TestsWithPrefix | lnt/db/perfdbsummary.py:44-46 | A test is selected iff it is in the table and its name starts with the tag. |
| PerfDb.RunOrderJoin | lnt/db/perfdbsummary.py:141-148 | A row is produced iff some `run_order` entry names a run that is tagged with the tag, and the row carries that run's machine. |
| SuiteSummary.SortByName | lnt/db/perfdbsummary.py:28 | The suites end up sorted by name, and the result is a permutation of the input. |
| SuiteSummary.SortByNameStable | lnt/db/perfdbsummary.py:28 | The sort is stable: the suites of any one name keep their input order. |
| SuiteSummary.PerfDbSummaryFromDb | lnt/db/perfdbsummary.py:14-29 | The revision is the Run counter, and the suites are sorted by name. Nightlytest appears exactly once. Every other distinct tag appears exactly once as its simple suite, and the tag `nightlytest` gets no simple suite. Nothing else is listed. A tag `Nightlytest` gives a simple suite of the same name as the synthetic one, and the synthetic suite comes first. |
| SuiteSummary.PerfDbSummary.IsUpToDate | lnt/db/perfdbsummary.py:35-36 | The listing is current exactly while the Run counter still has the value it was built with. |
| SuiteSummary.AfterFirstDot | lnt/db/perfdbsummary.py:55 | IndexError iff the name has no '.'; otherwise the result is exactly what follows the first '.'. |
| SuiteSummary.AfterFirstDotSplits | lnt/db/perfdbsummary.py:55 | The name is a dot-free head, a '.', then the stripped name. |
| SuiteSummary.LastDotOfSuffix | lnt/db/perfdbsummary.py:64-69 | For a name ending in `.success` or `.status`, the last '.' is the one that starts the suffix, so `rsplit('.', 1)[0]` removes exactly the suffix. |
| SuiteSummary.Classify | lnt/db/perfdbsummary.py:64-71 | `.success` is tested first: a name ending in `.success` is a success marker, otherwise one ending in `.status` is a status marker, and any other name is plain. |
| SuiteSummary.BaseName | lnt/db/perfdbsummary.py:64-71 | A `.success` name (tested first) or a `.status` name is the base name plus that suffix. Any other name is its own base name. |
| SuiteSummary.ParamKey | lnt/db/perfdbsummary.py:57-59 | The parameter set is strictly sorted and has exactly the test's metadata items. Its keys are strictly ascending. |
| SuiteSummary.MarkerMap | lnt/db/perfdbsummary.py:76-84 | Each base name maps to its own name plus the marker suffix, paired with the status flag; no other key is present. |
| SuiteSummary.CollectStep | lnt/db/perfdbsummary.py:54-73 | One loop iteration turns the collected state of a prefix of the tests into that of the prefix extended by one test. |
| SuiteSummary.CollectTests | lnt/db/perfdbsummary.py:54-73 | The loop fails iff some selected name has no '.'. Otherwise it collects the base names, the parameter sets, whether any `.status` or `.success` marker exists, and the test map. |
| SuiteSummary.SimpleSuiteSummaryFromDb | lnt/db/perfdbsummary.py:40-101 | IndexError iff some selected test name has no '.'. Otherwise:<br>- the revision is the Test counter;<br>- the test names are sorted and distinct and are exactly the base names;<br>- the status map uses `.status` if any status marker exists, else `.success` if any success marker exists, else is empty;<br>- the parameter sets and keys are sorted and distinct and complete;<br>- the test map is the last-wins map of the tests. |
| SuiteSummary.SimpleSuiteSummary.IsUpToDate | lnt/db/perfdbsummary.py:114-115 | The per-suite summary is current exactly while the Test counter is unchanged. |
| SuiteSummary.TestMapDomain | lnt/db/perfdbsummary.py:62 | A (name, parameter set) key is in the test map iff some selected test has that key. |
| SuiteSummary.TestMapLastWins | lnt/db/perfdbsummary.py:62 | Among tests with equal keys, the later one overwrites the earlier. |
| SuiteSummary.SuiteSummaryDeterministic | lnt/db/perfdbsummary.py:86-101 | The summary is determined by the database and the tag; in particular, the sorted lists do not depend on set iteration order. |
| SummaryCache.SuiteSummaryCache.constructor | lnt/db/perfdbsummary.py:117 | The cache starts empty. |
| SummaryCache.SuiteSummaryCache.Get | lnt/db/perfdbsummary.py:118-123 | An up-to-date entry is returned unchanged. Otherwise a fresh summary replaces it, and a failing rebuild leaves the cache as it was. What is returned is always up to date. |
| SummaryCache.RunSummaryCache.constructor | lnt/db/perfdbsummary.py:126 | The cache starts empty. |
| SummaryCache.RunSummaryCache.Get | lnt/db/perfdbsummary.py:128-134 | An up-to-date entry is returned unchanged; otherwise a fresh run summary is stored and returned. What is returned is always up to date, and it is exact when the run-order rows did not change since it was built. |
| RunOrderIndex.OrderByRun | lnt/db/perfdbsummary.py:149-150 | The map's keys are exactly the run ids of the rows. |
| RunOrderIndex.OrderByRunLastWins | lnt/db/perfdbsummary.py:149-150 | Each run maps to the order of its last row, since a later assignment overwrites an earlier one. |
| RunOrderIndex.MachineByRun | lnt/db/perfdbsummary.py:151-152 | The map's keys are exactly the run ids of the rows. |
| RunOrderIndex.MachineByRunLastWins | lnt/db/perfdbsummary.py:151-152 | Each run maps to the machine of its last row, since a later assignment overwrites an earlier one. |
| RunOrderIndex.MachineByRunIsRunMachine | lnt/db/perfdbsummary.py:141-152 | For the run-order query, each run maps to the machine of its Run row, however many `run_order` entries it has. |
| RunOrderIndex.GroupByOrder | lnt/db/perfdbsummary.py:155-160 | Each order maps to its runs in row order, and there is no key without a row. |
| RunOrderIndex.DescendingOrders | lnt/db/perfdbsummary.py:163-167 | The distinct orders, strictly descending: sort followed by reverse. |
| RunOrderIndex.ConcatGroups | lnt/db/perfdbsummary.py:170-172 | The groups are concatenated in the order of the list. |
| RunOrderIndex.RunSummaryFromDb | lnt/db/perfdbsummary.py:137-176 | The result is the run summary of the database and tag: its revision, order and machine maps, groups, descending orders and total order. |
| RunOrderIndex.RunSummaryDeterministic | lnt/db/perfdbsummary.py:137-176 | The run summary is determined by the database and the tag. |
| RunOrderIndex.RunsInOrderIsPermutation | lnt/db/perfdbsummary.py:170-172 | `runs_in_order` is a permutation of the rows' run ids. |
| RunOrderIndex.RunsInOrderNonIncreasing | lnt/db/perfdbsummary.py:162-172 | With one row per run, every run of the total order has an order, and the orders never increase along it. |
| RunOrderIndex.RunSummary.IsUpToDate | lnt/db/perfdbsummary.py:188-189 | The run summary is current exactly while the RunInfo counter is unchanged. |
| RunOrderIndex.GetRunOrder | lnt/db/perfdbsummary.py:191-192 | The order recorded for the run, or None for a run without one. Its values on a built summary are given by RunOrderOfRow and OrderByRun. |
| RunOrderIndex.RunOrderOfRow | lnt/db/perfdbsummary.py:191-192 | With one row per run, `get_run_order` gives each row's order, and None for a run without a row. |
| RunOrderIndex.IndexOf | lnt/db/perfdbsummary.py:196 | ValueError iff the run is absent; otherwise the index of its first occurrence. |
| RunOrderIndex.GetRunOrderedIndex | lnt/db/perfdbsummary.py:194-200 | The position of the run's first occurrence in the total order; a run not in it re-raises ValueError. Its partner is OrderedIndexExactlyForKnownRuns. |
| RunOrderIndex.OrderedIndexExactlyForKnownRuns | lnt/db/perfdbsummary.py:194-200 | `get_run_ordered_index` succeeds iff the run has an order; otherwise it raises ValueError. |
| RunOrderIndex.FirstOnMachine | lnt/db/perfdbsummary.py:205-208 | The forward scan finds the first later run on the machine, or None when no later run is on it. It raises KeyError exactly when a run without a machine comes before any match. |
| RunOrderIndex.LastOnMachine | lnt/db/perfdbsummary.py:213-216 | The backward scan finds the nearest earlier run on the machine, or None. It raises KeyError exactly when a run without a machine is met before any match. |
| RunOrderIndex.PreviousRunOnMachine | lnt/db/perfdbsummary.py:202-208 | KeyError for a run without a machine, then ValueError for a run missing from the total order. Otherwise it gives the nearest later entry on the same machine (an older order), or None. |
| RunOrderIndex.NextRunOnMachine | lnt/db/perfdbsummary.py:210-216 | The same errors, otherwise the nearest earlier entry on the same machine (a newer order), or None. NextThenPrevious shows it inverts PreviousRunOnMachine. |
| RunOrderIndex.GetPreviousRunOnMachine | lnt/db/perfdbsummary.py:202-208 | The result is exactly the previous-run specification: KeyError for an unknown run, ValueError for a run missing from the total order, otherwise the forward scan. |
| RunOrderIndex.GetNextRunOnMachine | lnt/db/perfdbsummary.py:210-216 | The same, with the backward scan. |
| RunOrderIndex.NextThenPrevious | lnt/db/perfdbsummary.py:202-216 | In a well-formed summary, b is the previous run of a on their machine iff a is the next run of b. |
| RunOrderIndex.BuiltSummaryIsWellFormed | lnt/db/perfdbsummary.py:137-176 | With one row per run, a built summary has distinct runs, and every run in it has a machine. |
| Ordering.SortSet | lnt/db/perfdbsummary.py:87-88 | `list(s)` then `sort()` is strictly ascending and has exactly the elements of the set. |
| Ordering.SortedUnique | lnt/db/perfdbsummary.py:86-97 | Two strictly sorted lists with the same elements are equal, so set iteration order does not matter. |
| Ordering.StringLessIsStrictTotal | lnt/db/perfdbsummary.py:88 | Python's string comparison is a strict total order. |
| Ordering.PairsLessIsStrictTotal | lnt/db/perfdbsummary.py:97 | Python's comparison of tuples of (key, value) pairs is a strict total order. |
| Comparison.Precomputed | lnt/server/ui/regression_views.py:65-69 | ZeroDivisionError iff the old value is 0. Otherwise previous and current are the given values, previous + delta = current, and pct_delta * old = delta. `bigger_is_better` stays the class default, false. |
| Comparison.TestStatus | lnt/server/ui/regression_views.py:71-72 | A precomputed comparison always reports the test as passing. |
| Comparison.GetValueStatus | lnt/server/ui/regression_views.py:74-75 | A precomputed comparison always reports its value as REGRESSED. |
| Comparison.PrecomputedScales | lnt/server/ui/regression_views.py:57-75 | The new value is the old value scaled by 1 + pct_delta, and the result always reports a passing test and a REGRESSED value. |
| Comparison.CompareOne | lnt/server/ui/regression_views.py:132-135 | A field change without a stored old value gets the live comparison; one with a stored value gets PrecomputedCR of its values. |
| Comparison.Compared | lnt/server/ui/regression_views.py:128-136 | The comparisons of the present field changes, in order. The first failure stops it, and it only fails with ZeroDivisionError. |
| Comparison.Impact | lnt/server/ui/regression_views.py:127-143 | PrecomputedCR of the summed previous and current values, or of (1, 1) without any comparison. Its properties are the Impact lemmas. |
| Comparison.CalcImpact | lnt/server/ui/regression_views.py:127-143 | The loop's result equals the impact specification. |
| Comparison.ComparedConcat | lnt/server/ui/regression_views.py:128-136 | The comparisons of two lists joined are those of each list, joined; the join fails iff either part fails. |
| Comparison.ImpactOrderIrrelevant | lnt/server/ui/regression_views.py:127-143 | Swapping two halves of the field changes leaves the impact unchanged. |
| Comparison.ImpactSkipsMissing | lnt/server/ui/regression_views.py:130-131 | A missing field change does not change the impact. |
| Comparison.ImpactOfNothing | lnt/server/ui/regression_views.py:142-143 | With no present field change the impact is previous 1, current 1, delta 0, pct_delta 0. |
| Comparison.ImpactOfOne | lnt/server/ui/regression_views.py:137-141 | The impact of one precomputed field change is that change's own comparison. |
| Comparison.ImpactIsSumOfParts | lnt/server/ui/regression_views.py:137-141 | The impact of two groups adds their previous and current totals. |
| Regressions.NewIndicatorsFacts | lnt/server/ui/regression_views.py:83 | The new indicators point at exactly the given field changes and belong to the new regression. |
| Regressions.AddKeepsOnePerChange | lnt/server/ui/regression_views.py:83 | After adding indicators, each field change has at most one indicator iff that held before, the new field changes are distinct, and none of them already had an indicator. |
| Regressions.ChangesExclusive | lnt/server/ui/regression_views.py:165-169 | With one indicator per change, the field changes of distinct removed indicators are distinct, and none belongs to an indicator that stays. |
| Regressions.ReplaceKeepsOnePerChange | lnt/server/ui/regression_views.py:169-171 | Rebuilding a set of indicators for a new regression keeps at most one indicator per field change. |
| Regressions.AddKeepsOneIgnorePerChange | lnt/server/ui/regression_views.py:90-94 | After adding ChangeIgnore rows, each field change is ignored at most once iff that held before, the new ones are distinct, and none was ignored before. |
| Regressions.ReplaceKeepsTablesValid | lnt/server/ui/regression_views.py:169-172 | Replacing regressions and indicators keeps every reference and id valid. |
| Regressions.Store.constructor | lnt/server/ui/regression_views.py:81 | The test suite's tables, holding the given field changes and no regressions, indicators or ignores. |
| Regressions.Store.IsUntriaged | lnt/server/ui/regression_views.py:100-105 | A field change is untriaged when it exists and has neither a ChangeIgnore row nor an indicator. |
| Regressions.Store.GetFieldChange | lnt/server/ui/regression_views.py:53-54 | NoResultFound iff the id is unknown; otherwise the field change with that id. |
| Regressions.Store.NewRegression | lnt/server/ui/regression_views.py:83 | NoResultFound iff some id is unknown, changing nothing. Otherwise it adds a fresh regression and one indicator per field change. |
| Regressions.Store.DeleteIndicators | lnt/server/ui/regression_views.py:171 | Exactly the listed indicators are removed. |
| Regressions.Store.DeleteRegressions | lnt/server/ui/regression_views.py:172 | Exactly the listed regressions are removed. |
| Regressions.Store.Replace | lnt/server/ui/regression_views.py:169-172 | A fresh regression takes the field changes of the given indicators, with the given state, and the given regressions and indicators are deleted. The new regression owns exactly those field changes, and the invariant is kept. |
| Regressions.Store.Create | lnt/server/ui/regression_views.py:82-83 | NoResultFound iff some id is unknown. Otherwise a fresh regression owns exactly the selected field changes, and the set of field changes with an indicator grows by them. The invariant holds afterwards iff it held before and the selected changes were distinct and had no indicator. Ignored changes play no part in this condition. |
| Regressions.Store.Ignore | lnt/server/ui/regression_views.py:87-95 | NoResultFound iff some id is unknown, changing nothing. Otherwise one ChangeIgnore row is added per selected change, the ignored set grows by exactly those changes, and nothing else changes. |
| Regressions.Store.Untriaged | lnt/server/ui/regression_views.py:100-108 | At most 500 field changes, strictly descending by id, all neither ignored nor indicated. Any untriaged change left out is smaller than every listed one, and is left out only when the list is full. |
| Regressions.Store.Merge | lnt/server/ui/regression_views.py:160-173 | IndexError iff no selected regression exists, changing nothing. Otherwise:<br>- the selected regressions and all their indicators are removed;<br>- one fresh regression owns exactly their field changes;<br>- it takes the state of the first of them (the smallest id);<br>- the invariant is kept. |
| Regressions.Store.Edit | lnt/server/ui/regression_views.py:221-229 | NoResultFound iff the regression is unknown. Otherwise only its title, bug and state change, to the submitted values. |
| Regressions.Store.Split | lnt/server/ui/regression_views.py:234-247 | NoResultFound iff the regression is unknown. Otherwise the indicators on the selected field changes move to a fresh regression that has the original's state, and the original's title is rebuilt. The fresh regression owns exactly the selected changes that had an indicator, and the invariant is kept. |
| Regressions.Store.Delete | lnt/server/ui/regression_views.py:251-261 | NoResultFound iff the regression is unknown. Otherwise the regression and exactly its indicators are removed, and with one indicator per change its field changes lose their indicator. The invariant is kept. |

## Left out

- The web layer is not modelled: Flask routing, forms, `flash`, `redirect`, template rendering, and the logging calls at lines 153-155 of `regression_views.py`.
- The two `print` statements of `get_run_ordered_index` (lines 198-199 of `perfdbsummary.py`) are output only. The re-raised ValueError is modelled.
- `get_cr_for_field_change` is outside this model. Its live comparison is the parameter `live`, used where a field change has no stored old value.
- `rebuild_title` is outside this model. Its result is the parameter `rebuiltTitle` of `Regressions.Store.Split`.
- `new_regression` is outside this model and is modelled as a primitive, `Regressions.Store.NewRegression`:
  - the title, bug and initial state it chooses come in the parameter `initial`;
  - it is taken to look up every field change and to fail with NoResultFound on an unknown id.
- The untriaged listing's display loop (lines 109-124) is not modelled: `get_first_runs_of_fieldchange`, `ChangeData`, and the current comparison of each change. The same goes for the regression list and detail pages' read-only rendering.
- The join with the Test table in the untriaged query is not modelled. Every field change is taken to have its test.
- SQL result order is taken to be ascending id. This fixes which merged regression is "first" (`regressions[0]`) and the order in which new indicators are created.
- All tables share one id counter (`nextId`). The database's per-table sequences are not modelled.
- Concurrency and transactions are not modelled. Every handler is atomic, because an exception before `ts.commit()` rolls the session back. In particular, a merge with nothing selected calls `new_regression` before `regressions[0]` raises, and it is modelled as changing nothing.
- Floating-point values are `real`, so rounding is not modelled. A Python 2 integer division in `PrecomputedCR` (integer old and new values) is not modelled either; `calc_impact`'s fallback `PrecomputedCR(1, 1, True)` is exact either way.
- A regression's state is an `int`; the `RegressionState` names are not modelled.
- PerfDb.TestsWithPrefix: `Test.name.startswith(tag)` becomes SQL `LIKE 'tag%'`. There `_` and `%` in the tag are wildcards, and SQLite's default LIKE ignores the case of ASCII letters. The model selects by exact, case-sensitive prefix, so a tag containing `_` or `%`, or one that differs from a test name only in case, selects fewer tests than the database does.
- Comparison.Precomputed: the source has no guard on the old value. A zero old value is the `Err(ZeroDivisionError)` result rather than a precondition.
- `PrecomputedCR` ignores its `bigger_is_better` argument, so the flag is always the class default, false. The model does the same. When the first comparison in `calc_impact` comes from `get_cr_for_field_change` (the `live` comparison), its flag can be true, and `calc_impact` passes it to `PrecomputedCR`, which drops it. The combined result's flag is false either way.
- RunOrderIndex.RunsInOrderNonIncreasing assumes one `run_order` entry per run. With several entries, `order_by_run` keeps the last, while `runs_by_order` lists the run under every order, so the orders along `runs_in_order` need not be non-increasing.
- RunOrderIndex.RunOrderOfRow assumes one `run_order` entry per run. Without it, OrderByRunLastWins still fixes each run's order.
- RunOrderIndex.BuiltSummaryIsWellFormed assumes one `run_order` entry per run. With several entries, a run can appear more than once in `runs_in_order`.
- `lnt.viewer.PerfDB` (the ORM classes and `get_revision_number`) is outside this model. It is modelled as the `PerfDb.Database` value with one revision counter per entity kind.

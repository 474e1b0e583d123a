/**
 * The two summary caches of lnt/db/perfdbsummary.py: the module dictionary
 * behind get_simple_suite_summary and SimpleSuiteRunSummary._cache behind
 * get_summary. Both are keyed by (database path, tag) and rebuild an entry
 * whose revision no longer matches the database's counter.
 */
module SummaryCache {
  import opened Wrappers
  import opened PerfDb
  import opened SuiteSummary
  import opened RunOrderIndex

  class SuiteSummaryCache {
    var entries: map<(string, string), SimpleSuiteSummary>
    /** The database each entry was built from. */
    ghost var builtFrom: map<(string, string), Database>

    /** Every entry is the summary of its tag in a database with its path. */
    ghost predicate Valid()
      reads this
    {
      forall key :: key in entries ==>
        && key in builtFrom
        && builtFrom[key].path == key.0
        && IsSuiteSummaryOf(entries[key], builtFrom[key], key.1)
    }

    constructor()
      ensures Valid() && entries == map[]
    {
      entries := map[];
      builtFrom := map[];
    }

    /**
     * get_simple_suite_summary: the cached entry while it is up to date,
     * otherwise a fresh summary, which replaces it. A failing rebuild leaves
     * the cache as it was.
     */
    method Get(db: Database, tag: string) returns (r: Result<SimpleSuiteSummary>)
      requires Valid()
      modifies this
      ensures Valid()
      ensures var key := (db.path, tag);
        if key in old(entries) && old(entries)[key].IsUpToDate(db) then
          r == Ok(old(entries)[key]) && entries == old(entries)
        else
          && (r.Err? <==> !AllDotted(TestsWithPrefix(db.tests, tag)))
          && (r.Err? ==> r.error == IndexError && entries == old(entries))
          && (r.Ok? ==> IsSuiteSummaryOf(r.value, db, tag) && entries == old(entries)[key := r.value])
      ensures r.Ok? ==> var key := (db.path, tag);
        && key in builtFrom
        && r.value.IsUpToDate(db)
        && (db.tests == builtFrom[key].tests ==> IsSuiteSummaryOf(r.value, db, tag))
    {
      var key := (db.path, tag);
      if key in entries && entries[key].IsUpToDate(db) {
        r := Ok(entries[key]);
        return;
      }
      r := SimpleSuiteSummaryFromDb(db, tag);
      if r.Ok? {
        entries := entries[key := r.value];
        builtFrom := builtFrom[key := db];
      }
    }
  }

  class RunSummaryCache {
    var entries: map<(string, string), RunSummary>
    /** The database each entry was built from. */
    ghost var builtFrom: map<(string, string), Database>

    /** Every entry is the run summary of its tag in a database with its path. */
    ghost predicate Valid()
      reads this
    {
      forall key :: key in entries ==>
        && key in builtFrom
        && builtFrom[key].path == key.0
        && IsRunSummaryOf(entries[key], builtFrom[key], key.1)
    }

    constructor()
      ensures Valid() && entries == map[]
    {
      entries := map[];
      builtFrom := map[];
    }

    /**
     * SimpleSuiteRunSummary.get_summary: the cached entry while it is up to
     * date, otherwise a fresh summary, which replaces it.
     */
    method Get(db: Database, tag: string) returns (r: RunSummary)
      requires Valid()
      modifies this
      ensures Valid()
      ensures var key := (db.path, tag);
        if key in old(entries) && old(entries)[key].IsUpToDate(db) then
          r == old(entries)[key] && entries == old(entries)
        else
          IsRunSummaryOf(r, db, tag) && entries == old(entries)[key := r]
      ensures var key := (db.path, tag);
        && key in builtFrom
        && r.IsUpToDate(db)
        && (RunOrderRows(db, tag) == RunOrderRows(builtFrom[key], tag) ==> IsRunSummaryOf(r, db, tag))
    {
      var key := (db.path, tag);
      if key in entries && entries[key].IsUpToDate(db) {
        r := entries[key];
        return;
      }
      r := RunSummaryFromDb(db, tag);
      entries := entries[key := r];
      builtFrom := builtFrom[key := db];
    }
  }
}

/**
 * The whole incremental run, descriptions included: traverse, select with the description cache and
 * its budget, commit. Every such run is, towards the tables, a run with a selector that knows all
 * descriptions, or no run at all.
 */
module DescribedRun {
  import opened Basics
  import opened Feed
  import opened WatermarkTraversal
  import opened MonitorStore
  import opened IncrementalRun
  import D = DescriptionBudget

  datatype Failure = RunFailed(error: RunError) | SelectionFailed(reason: D.LoadError)

  datatype Described = Described(outcome: Result<Traversal, Failure>, db: Tables, rows: D.Rows)

  // ----- specification

  /** Everything before the selection. */
  function Reach(db: Tables, monitorId: MonitorId, first: Adapter, second: Adapter, maxPages: int)
    : (r: Result<Traversal, RunError>)
    ensures r.Ok? ==> monitorId in db.cursors && !r.value.Failed?
  {
    if monitorId !in db.monitors then Err(RunError.MonitorNotFound)
    else if monitorId !in db.cursors then Err(ColdStartRequired) else
      var previous := ParseWatermark(db.cursors[monitorId]);
      if previous.Err? then Err(previous.error) else
        var checkpoint := ParseCatchupCheckpoint(db.cursors[monitorId]);
        if checkpoint.Err? then Err(checkpoint.error) else
          var traversal := TraverseRecovering(first, second, previous.value, maxPages, checkpoint.value).outcome;
          if traversal.Failed? then Err(TraversalFailed(traversal.error)) else Ok(traversal)
  }

  function RunDescribed(db: Tables, rows: D.Rows, monitorId: MonitorId, runId: Option<RunId>, first: Adapter,
                        second: Adapter, maxPages: int, setting: D.Setting): Described
  {
    var reached := Reach(db, monitorId, first, second, maxPages);
    if reached.Err? then Described(Err(RunFailed(reached.error)), db, rows) else
      var traversal := reached.value;
      var selecting := D.SelectRun(setting, rows, traversal.newListings);
      if selecting.result.Err? then Described(Err(SelectionFailed(selecting.result.error)), db, selecting.work.rows) else
        var committed := CommitRun(db, RunCommit(monitorId, runId, db.cursors[monitorId].updatedAt, traversal.newListings,
                                                 selecting.result.value, traversal));
        if committed.Err? then Described(Err(RunFailed(CommitFailed(committed.error))), db, selecting.work.rows)
        else Described(Ok(traversal), committed.value, selecting.work.rows)
  }

  // ----- the code

  method RunIncrementalMonitor(store: Database, cache: D.ListingDescriptionCache, monitorId: MonitorId,
                               runId: Option<RunId>, first: Adapter, second: Adapter, maxPages: int, setting: D.Setting)
    returns (r: Result<Traversal, Failure>)
    modifies store, cache
    ensures Described(r, store.State(), cache.rows)
         == RunDescribed(old(store.State()), old(cache.rows), monitorId, runId, first, second, maxPages, setting)
  {
    hide TraverseRecovering, CommitRun, D.SelectRun;
    if monitorId !in store.monitors {
      return Err(RunFailed(RunError.MonitorNotFound));
    }
    if monitorId !in store.cursors {
      return Err(RunFailed(ColdStartRequired));
    }
    var row := store.cursors[monitorId];
    var previous := ParseWatermark(row);
    if previous.Err? {
      return Err(RunFailed(previous.error));
    }
    var checkpoint := ParseCatchupCheckpoint(row);
    if checkpoint.Err? {
      return Err(RunFailed(checkpoint.error));
    }
    var attempt := TraverseWithRecovery(first, second, previous.value, maxPages, checkpoint.value);
    var traversal := attempt.outcome;
    if traversal.Failed? {
      return Err(RunFailed(TraversalFailed(traversal.error)));
    }
    var selected := D.SelectCandidates(setting, cache, traversal.newListings);
    if selected.Err? {
      return Err(SelectionFailed(selected.error));
    }
    var refused := store.PersistMonitorRunTransaction(
      RunCommit(monitorId, runId, row.updatedAt, traversal.newListings, selected.value, traversal));
    if refused.Some? {
      return Err(RunFailed(CommitFailed(refused.value)));
    }
    r := Ok(traversal);
  }

  // ----- the candidates of a run are distinct

  ghost predicate Collected(scan: Scan) {
    && DistinctIds(scan.newListings)
    && forall i | 0 <= i < |scan.newListings| :: scan.newListings[i].listId in scan.seenIds
  }

  lemma {:induction false} AbsorbFromCollects(previous: Watermark, scan: Scan, page: nat, listings: seq<Listing>, index: nat)
    requires previous.boundaryTime.At? && index <= |listings| && Collected(scan)
    ensures var step := AbsorbFrom(previous, scan, page, listings, index);
            !step.Stop? ==> Collected(step.scan)
    decreases |listings| - index
  {
    if index < |listings| {
      var step := Absorb(previous, scan, page, index, listings[index]);
      if step.Continue? {
        AbsorbFromCollects(previous, step.scan, page, listings, index + 1);
      }
    }
  }

  lemma {:induction false} ResumeCollects(adapter: Adapter, previous: Watermark, maxPages: int,
                                          scan: Scan, cursor: Option<Cursor>, read: nat)
    requires previous.boundaryTime.At? && Collected(scan)
    ensures var outcome := Resume(adapter, previous, maxPages, scan, cursor, read).outcome;
            !outcome.Failed? ==> DistinctIds(outcome.newListings)
    decreases maxPages - read
  {
    if read < maxPages && adapter(read, cursor).Fetched? {
      var page := adapter(read, cursor).page;
      AbsorbFromCollects(previous, scan, read + 1, page.listings, 0);
      var step := AbsorbFrom(previous, scan, read + 1, page.listings, 0);
      if step.Continue? && page.nextCursor.Some? && read + 1 != maxPages {
        ResumeCollects(adapter, previous, maxPages, step.scan, page.nextCursor, read + 1);
      }
    }
  }

  /** Whatever the source answers, a traversal collects every id at most once. */
  lemma CandidatesAreDistinct(adapter: Adapter, previous: Watermark, maxPages: int, checkpoint: Option<Checkpoint>)
    ensures var outcome := Traverse(adapter, previous, maxPages, checkpoint).outcome;
            !outcome.Failed? ==> DistinctIds(outcome.newListings)
  {
    if maxPages >= 1 && previous.boundaryTime.At? && InitialScan(checkpoint).Ok? {
      ResumeCollects(adapter, previous, maxPages, InitialScan(checkpoint).value,
                     if checkpoint.Some? then Some(checkpoint.value.resumeCursor) else None, 0);
    }
  }

  lemma ReachedAreDistinct(db: Tables, monitorId: MonitorId, first: Adapter, second: Adapter, maxPages: int)
    ensures var reached := Reach(db, monitorId, first, second, maxPages);
            reached.Ok? ==> DistinctIds(reached.value.newListings)
  {
    if Reach(db, monitorId, first, second, maxPages).Ok? {
      hide Traverse;
      var previous := ParseWatermark(db.cursors[monitorId]).value;
      CandidatesAreDistinct(first, previous, maxPages, ParseCatchupCheckpoint(db.cursors[monitorId]).value);
      CandidatesAreDistinct(second, previous, maxPages, None);
    }
  }

  // ----- main results

  /**
   * A run that ends with a commit has left the tables as a run whose selector knows every description;
   * one that does not has left them alone. So the theorems about histories of runs cover these runs.
   */
  lemma DescribedRunIsRun(db: Tables, rows: D.Rows, monitorId: MonitorId, runId: Option<RunId>, first: Adapter,
                          second: Adapter, maxPages: int, setting: D.Setting)
    ensures var r := RunDescribed(db, rows, monitorId, runId, first, second, maxPages, setting);
            var known := Run(db, monitorId, runId, first, second, maxPages, D.KnowingSelector(setting, rows));
            && (r.outcome.Ok? ==> known.outcome == Ok(r.outcome.value) && known.db == r.db)
            && (r.outcome.Err? ==> r.db == db)
            && (r.outcome.Err? && r.outcome.error.RunFailed? ==> known.outcome == Err(r.outcome.error.error))
  {
    hide TraverseRecovering, CommitRun, ParseWatermark, ParseCatchupCheckpoint, Select, D.SelectRun, D.KnowingSelector;
    var reached := Reach(db, monitorId, first, second, maxPages);
    if reached.Ok? {
      ReachedAreDistinct(db, monitorId, first, second, maxPages);
      SelectsKnowing(setting, rows, reached.value.newListings);
    }
  }

  lemma SelectsKnowing(setting: D.Setting, rows: D.Rows, candidates: seq<Listing>)
    requires DistinctIds(candidates)
    ensures D.SelectRun(setting, rows, candidates).result.Ok? ==>
              D.SelectRun(setting, rows, candidates).result.value == Select(D.KnowingSelector(setting, rows), candidates)
  {
    hide D.SelectFrom, D.KnowingSelector, Select, D.Known;
    D.SelectionIsKnowing(setting, Some(D.DESCRIPTION_REQUEST_LIMIT_PER_RUN), D.Work(rows, 0, []), [], candidates);
    D.KnownIsSelect(setting, rows, candidates);
    assert [] + D.Known(setting, rows, candidates) == D.Known(setting, rows, candidates);
  }

  /** The run repeated `n` times over a source that answers the same. */
  function Repeat(db: Tables, rows: D.Rows, monitorId: MonitorId, runId: Option<RunId>, first: Adapter, second: Adapter,
                  maxPages: int, setting: D.Setting, n: nat): (Tables, D.Rows)
  {
    if n == 0 then (db, rows) else
      var before := Repeat(db, rows, monitorId, runId, first, second, maxPages, setting, n - 1);
      var run := RunDescribed(before.0, before.1, monitorId, runId, first, second, maxPages, setting);
      (run.db, run.rows)
  }

  lemma {:induction false} RepeatKeepsTables(db: Tables, rows: D.Rows, monitorId: MonitorId, runId: Option<RunId>,
                                             first: Adapter, second: Adapter, maxPages: int, setting: D.Setting, n: nat)
    requires D.Answering(setting) && Reach(db, monitorId, first, second, maxPages).Ok?
    requires var candidates := Reach(db, monitorId, first, second, maxPages).value.newListings;
             n < D.RunsNeeded(|D.Waiting(setting, rows, candidates)|)
    ensures var candidates := Reach(db, monitorId, first, second, maxPages).value.newListings;
            Repeat(db, rows, monitorId, runId, first, second, maxPages, setting, n)
            == (db, D.RowsAfter(setting, rows, candidates, n))
  {
    hide Reach, D.SelectRun, D.Waiting, D.Answering, D.KnowingSelector, RunDescribed;
    if n > 0 {
      RepeatKeepsTables(db, rows, monitorId, runId, first, second, maxPages, setting, n - 1);
      ReachedAreDistinct(db, monitorId, first, second, maxPages);
      var candidates := Reach(db, monitorId, first, second, maxPages).value.newListings;
      D.BudgetedRunsCommit(setting, rows, candidates, n - 1);
      FailedSelection(db, D.RowsAfter(setting, rows, candidates, n - 1), monitorId, runId, first, second, maxPages, setting);
    }
  }

  lemma FailedSelection(db: Tables, rows: D.Rows, monitorId: MonitorId, runId: Option<RunId>, first: Adapter,
                        second: Adapter, maxPages: int, setting: D.Setting)
    requires Reach(db, monitorId, first, second, maxPages).Ok?
    ensures var selecting := D.SelectRun(setting, rows, Reach(db, monitorId, first, second, maxPages).value.newListings);
            selecting.result.Err? ==>
              RunDescribed(db, rows, monitorId, runId, first, second, maxPages, setting)
              == Described(Err(SelectionFailed(selecting.result.error)), db, selecting.work.rows)
  {
    hide Reach, D.SelectRun, CommitRun;
  }

  /**
   * With an endpoint that answers and u candidates without a settled description, the first
   * max(1, ceil(u/10)) - 1 runs fail on the budget and leave the tables alone, and the next one does
   * to them what a run that knows every description would have done at once.
   */
  lemma CommitsAfterExactly(db: Tables, rows: D.Rows, monitorId: MonitorId, runId: Option<RunId>,
                            first: Adapter, second: Adapter, maxPages: int, setting: D.Setting, n: nat)
    requires D.Answering(setting) && Reach(db, monitorId, first, second, maxPages).Ok?
    ensures var candidates := Reach(db, monitorId, first, second, maxPages).value.newListings;
            var needed := D.RunsNeeded(|D.Waiting(setting, rows, candidates)|);
            var before := Repeat(db, rows, monitorId, runId, first, second, maxPages, setting, n);
            var run := RunDescribed(before.0, before.1, monitorId, runId, first, second, maxPages, setting);
            var known := Run(db, monitorId, runId, first, second, maxPages, D.KnowingSelector(setting, rows));
            && (n + 1 < needed ==> run.outcome == Err(SelectionFailed(D.BudgetExceeded)) && run.db == db)
            && (n + 1 == needed ==>
                  run.db == known.db
                  && (run.outcome.Ok? <==> known.outcome.Ok?)
                  && (run.outcome.Ok? ==> run.outcome.value == known.outcome.value))
  {
    hide TraverseRecovering, CommitRun, ParseWatermark, ParseCatchupCheckpoint, Select, D.SelectRun, D.Waiting, Repeat,
         D.KnowingSelector, D.Answering;
    var candidates := Reach(db, monitorId, first, second, maxPages).value.newListings;
    if n < D.RunsNeeded(|D.Waiting(setting, rows, candidates)|) {
      RepeatKeepsTables(db, rows, monitorId, runId, first, second, maxPages, setting, n);
      ReachedAreDistinct(db, monitorId, first, second, maxPages);
      D.BudgetedRunsCommit(setting, rows, candidates, n);
    }
  }
}

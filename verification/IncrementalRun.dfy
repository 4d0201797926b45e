/**
 * One incremental run: read the monitor and its cursor, resume a saved catch-up checkpoint if there
 * is one, fall back to a traversal from the top when that checkpoint is stale, select, commit.
 */
module IncrementalRun {
  import opened Basics
  import opened Feed
  import opened WatermarkTraversal
  import opened MonitorStore

  datatype RunError =
    | MonitorNotFound
    | ColdStartRequired
    | InvalidBoundaryTime
    | InvalidBoundaryIds
    | InvalidCheckpoint
    | TraversalFailed(cause: TraversalError)
    | CommitFailed(reason: StoreError)

  function ParseWatermark(row: CursorRow): Result<Watermark, RunError> {
    if row.boundaryTime.None? then Err(ColdStartRequired)
    else if row.boundaryTime.value.Unparsable? then Err(InvalidBoundaryTime)
    else if row.boundaryIds.OtherJson? then Err(InvalidBoundaryIds)
    else Ok(Watermark(row.boundaryTime.value, row.boundaryIds.items))
  }

  function ParseCatchupCheckpoint(row: CursorRow): Result<Option<Checkpoint>, RunError> {
    if row.catchupCursor.None? then
      if row.catchupBoundaryTime.Some? || row.catchupLastListTime.Some? || row.catchupLastListId.Some?
         || row.catchupBoundaryIds != StringArray([])
      then Err(InvalidCheckpoint) else Ok(None)
    else if row.catchupBoundaryTime.None? || row.catchupBoundaryTime.value.Unparsable?
            || row.catchupBoundaryIds.OtherJson?
            || row.catchupLastListTime.Some? != row.catchupLastListId.Some?
            || (row.catchupLastListTime.Some? && row.catchupLastListTime.value.Unparsable?)
    then Err(InvalidCheckpoint)
    else Ok(Some(Checkpoint(
      row.catchupCursor.value,
      Watermark(row.catchupBoundaryTime.value, row.catchupBoundaryIds.items),
      if row.catchupLastListTime.Some?
      then Some(LastObservation(row.catchupLastListId.value, row.catchupLastListTime.value)) else None)))
  }

  predicate IsStaleCatchupCheckpointError(outcome: Traversal) {
    outcome.Failed? && outcome.error.BadOrder?
    && outcome.error.previous.page == 0 && outcome.error.previous.index == -1
  }

  /** `first` is what the source answers to the resumed traversal, `second` to one started afterwards. */
  function TraverseRecovering(first: Adapter, second: Adapter, previous: Watermark, maxPages: int,
                              checkpoint: Option<Checkpoint>): Attempt
  {
    var resumed := Traverse(first, previous, maxPages, checkpoint);
    if checkpoint.Some? && IsStaleCatchupCheckpointError(resumed.outcome) then
      var restarted := Traverse(second, previous, maxPages, None);
      Attempt(restarted.outcome, resumed.requests + restarted.requests)
    else resumed
  }

  method TraverseWithRecovery(first: Adapter, second: Adapter, previous: Watermark, maxPages: int,
                              checkpoint: Option<Checkpoint>) returns (r: Attempt)
    ensures r == TraverseRecovering(first, second, previous, maxPages, checkpoint)
  {
    if checkpoint.None? {
      r := TraverseWatermark(first, previous, maxPages, None);
      return;
    }
    r := TraverseWatermark(first, previous, maxPages, checkpoint);
    if IsStaleCatchupCheckpointError(r.outcome) {
      var requests := r.requests;
      r := TraverseWatermark(second, previous, maxPages, None);
      r := Attempt(r.outcome, requests + r.requests);
    }
  }

  /** The keyword rules and filters in force during the run; None means the listing is not selected. */
  type Selector = Listing -> Option<Selection>

  function Select(select: Selector, listings: seq<Listing>): seq<SelectedListing> {
    if listings == [] then [] else
      var before := Select(select, listings[..|listings| - 1]);
      var last := listings[|listings| - 1];
      if select(last).Some? then before + [SelectedListing(last, select(last).value)] else before
  }

  datatype RunResult = RunResult(outcome: Result<Traversal, RunError>, db: Tables)

  function Run(db: Tables, monitorId: MonitorId, runId: Option<RunId>, first: Adapter, second: Adapter,
               maxPages: int, select: Selector): RunResult
  {
    if monitorId !in db.monitors then RunResult(Err(RunError.MonitorNotFound), db)
    else if monitorId !in db.cursors then RunResult(Err(ColdStartRequired), db) else
      var row := db.cursors[monitorId];
      var previous := ParseWatermark(row);
      if previous.Err? then RunResult(Err(previous.error), db) else
        var checkpoint := ParseCatchupCheckpoint(row);
        if checkpoint.Err? then RunResult(Err(checkpoint.error), db) else
          var traversal := TraverseRecovering(first, second, previous.value, maxPages, checkpoint.value).outcome;
          if traversal.Failed? then RunResult(Err(TraversalFailed(traversal.error)), db) else
            var input := RunCommit(monitorId, runId, row.updatedAt, traversal.newListings,
                                   Select(select, traversal.newListings), traversal);
            var committed := CommitRun(db, input);
            if committed.Err? then RunResult(Err(CommitFailed(committed.error)), db)
            else RunResult(Ok(traversal), committed.value)
  }

  /** A run without a baseline asks for a cold start; only a missing monitor or a row that cannot be read stops it before. */
  lemma RunNeedsBaseline(db: Tables, monitorId: MonitorId, runId: Option<RunId>, first: Adapter, second: Adapter,
                         maxPages: int, select: Selector)
    ensures var outcome := Run(db, monitorId, runId, first, second, maxPages, select).outcome;
      && (outcome == Err(RunError.MonitorNotFound) <==> monitorId !in db.monitors)
      && (outcome == Err(ColdStartRequired) <==>
            monitorId in db.monitors && (monitorId !in db.cursors || db.cursors[monitorId].boundaryTime == None))
  {
    hide TraverseRecovering, CommitRun, Select;
  }

  // ----- persistence round trip

  ghost predicate Persistable(saved: Checkpoint) {
    saved.pendingWatermark.boundaryTime.At?
    && (saved.lastObservation.Some? ==> saved.lastObservation.value.listTime.At?)
  }

  /** A saved checkpoint reads back as itself exactly when its times are times. */
  lemma CheckpointRoundTrip(row: CursorRow, traversal: Traversal, revision: nat)
    requires traversal.Incomplete?
    ensures ParseCatchupCheckpoint(AdvanceCursor(row, traversal, revision)) == Ok(Some(traversal.checkpoint))
       <==> Persistable(traversal.checkpoint)
    ensures ParseWatermark(AdvanceCursor(row, traversal, revision)) == ParseWatermark(row)
  {
  }

  lemma CompletionRoundTrip(row: CursorRow, traversal: Traversal, revision: nat)
    requires traversal.Complete? && traversal.nextWatermark.boundaryTime.At?
    ensures ParseCatchupCheckpoint(AdvanceCursor(row, traversal, revision)) == Ok(None)
    ensures ParseWatermark(AdvanceCursor(row, traversal, revision)) == Ok(traversal.nextWatermark)
  {
  }

  /** The catch-up columns hold this checkpoint, or all of them are empty. */
  ghost predicate Holds(row: CursorRow, saved: Option<Checkpoint>) {
    match saved
    case None =>
      && row.catchupCursor == None && row.catchupBoundaryTime == None && row.catchupBoundaryIds == StringArray([])
      && row.catchupLastListTime == None && row.catchupLastListId == None
    case Some(checkpoint) =>
      && row.catchupCursor == Some(checkpoint.resumeCursor)
      && row.catchupBoundaryTime == Some(checkpoint.pendingWatermark.boundaryTime)
      && row.catchupBoundaryIds == StringArray(checkpoint.pendingWatermark.boundaryIds)
      && (if checkpoint.lastObservation.None? then row.catchupLastListTime == None && row.catchupLastListId == None
          else row.catchupLastListTime == Some(checkpoint.lastObservation.value.listTime)
               && row.catchupLastListId == Some(checkpoint.lastObservation.value.listId))
  }

  /** A row reads as a checkpoint exactly when its columns hold it, whole and timed; anything half filled is an error. */
  lemma ParsesExactly(row: CursorRow)
    ensures forall saved :: ParseCatchupCheckpoint(row) == Ok(saved)
              <==> Holds(row, saved) && (saved.Some? ==> Persistable(saved.value))
    ensures ParseCatchupCheckpoint(row).Err? ==> ParseCatchupCheckpoint(row) == Err(InvalidCheckpoint)
    ensures forall w :: ParseWatermark(row) == Ok(w) <==>
              w.boundaryTime.At? && row.boundaryTime == Some(w.boundaryTime) && row.boundaryIds == StringArray(w.boundaryIds)
    ensures ParseWatermark(row) == Err(ColdStartRequired) <==> row.boundaryTime == None
  {
    forall saved
      ensures ParseCatchupCheckpoint(row) == Ok(saved) <==> Holds(row, saved) && (saved.Some? ==> Persistable(saved.value))
    {
      if saved.Some? && saved.value.lastObservation.Some? {
        var LastObservation(id, time) := saved.value.lastObservation.value;
      }
    }
  }

  // ----- the stale-checkpoint error

  /** The first listing a traversal processes: the first one of the first page that has any. */
  function FirstProcessed(adapter: Adapter, maxPages: int, cursor: Option<Cursor>, read: nat): Option<Observation>
    decreases maxPages - read
  {
    if read >= maxPages then None else
      match adapter(read, cursor)
      case FetchFailed(_) => None
      case Fetched(page) =>
        if page.listings != [] then
          Some(Observation(read + 1, 0, page.listings[0].listId, page.listings[0].listTime))
        else if page.nextCursor.None? then None
        else FirstProcessed(adapter, maxPages, page.nextCursor, read + 1)
  }

  lemma {:induction false} AbsorbFromBlames(previous: Watermark, scan: Scan, page: nat, listings: seq<Listing>, index: nat)
    requires previous.boundaryTime.At? && index <= |listings| && page >= 1
    requires scan.previousObservation.Some? ==> scan.previousObservation.value.observation.page >= 1
    ensures var step := AbsorbFrom(previous, scan, page, listings, index);
      if step.Stop? then step.error.BadOrder? ==> step.error.previous.page >= 1
      else step.scan.previousObservation.Some? ==> step.scan.previousObservation.value.observation.page >= 1
    decreases |listings| - index
  {
    if index < |listings| {
      var step := Absorb(previous, scan, page, index, listings[index]);
      if step.Continue? {
        AbsorbFromBlames(previous, step.scan, page, listings, index + 1);
      }
    }
  }

  lemma {:induction false} ResumeBlames(adapter: Adapter, previous: Watermark, maxPages: int,
                                        scan: Scan, cursor: Option<Cursor>, read: nat)
    requires previous.boundaryTime.At?
    requires scan.previousObservation.Some? ==> scan.previousObservation.value.observation.page >= 1
    ensures !IsStaleCatchupCheckpointError(Resume(adapter, previous, maxPages, scan, cursor, read).outcome)
    decreases maxPages - read
  {
    if read < maxPages && adapter(read, cursor).Fetched? {
      var page := adapter(read, cursor).page;
      AbsorbFromBlames(previous, scan, read + 1, page.listings, 0);
      var step := AbsorbFrom(previous, scan, read + 1, page.listings, 0);
      if step.Continue? && page.nextCursor.Some? && read + 1 != maxPages {
        ResumeBlames(adapter, previous, maxPages, step.scan, page.nextCursor, read + 1);
      }
    }
  }

  /** From the checkpoint's own observation on, the error is decided by the first processed listing alone. */
  lemma {:induction false} ResumeFromCheckpoint(adapter: Adapter, previous: Watermark, maxPages: int,
                                                scan: Scan, cursor: Option<Cursor>, read: nat, last: Ordering)
    requires previous.boundaryTime.At?
    requires scan.seenIds == {} && scan.previousObservation == Some(last)
    requires last.observation.page == 0 && last.observation.index == -1
    ensures var outcome := Resume(adapter, previous, maxPages, scan, cursor, read).outcome;
      var first := FirstProcessed(adapter, maxPages, cursor, read);
      && (IsStaleCatchupCheckpointError(outcome) <==>
            first.Some? && first.value.listTime.At? && first.value.listTime.epoch > last.epoch)
      && (IsStaleCatchupCheckpointError(outcome) ==>
            outcome == Failed(BadOrder(last.observation, first.value)))
    decreases maxPages - read
  {
    if read < maxPages && adapter(read, cursor).Fetched? {
      var page := adapter(read, cursor).page;
      if page.listings == [] {
        if page.nextCursor.Some? && read + 1 != maxPages {
          ResumeFromCheckpoint(adapter, previous, maxPages, scan, page.nextCursor, read + 1, last);
        }
      } else {
        var step := Absorb(previous, scan, read + 1, 0, page.listings[0]);
        if step.Continue? {
          AbsorbFromBlames(previous, step.scan, read + 1, page.listings, 1);
          var end := AbsorbFrom(previous, step.scan, read + 1, page.listings, 1);
          if end.Continue? && page.nextCursor.Some? && read + 1 != maxPages {
            ResumeBlames(adapter, previous, maxPages, end.scan, page.nextCursor, read + 1);
          }
        }
      }
    }
  }

  /**
   * The stale-checkpoint error arises exactly when a checkpoint with a last observation is resumed
   * and the very first listing processed, before anything could be collected, is newer than it.
   */
  lemma StaleExactly(adapter: Adapter, previous: Watermark, maxPages: int, checkpoint: Option<Checkpoint>)
    ensures IsStaleCatchupCheckpointError(Traverse(adapter, previous, maxPages, checkpoint).outcome) <==>
      && maxPages >= 1 && previous.boundaryTime.At?
      && checkpoint.Some? && Persistable(checkpoint.value) && checkpoint.value.lastObservation.Some?
      && var first := FirstProcessed(adapter, maxPages, Some(checkpoint.value.resumeCursor), 0);
      && first.Some? && first.value.listTime.At?
      && first.value.listTime.epoch > checkpoint.value.lastObservation.value.listTime.epoch
  {
    if maxPages >= 1 && previous.boundaryTime.At? && InitialScan(checkpoint).Ok? {
      var scan := InitialScan(checkpoint).value;
      var cursor := if checkpoint.Some? then Some(checkpoint.value.resumeCursor) else None;
      if scan.previousObservation.Some? {
        ResumeFromCheckpoint(adapter, previous, maxPages, scan, cursor, 0, scan.previousObservation.value);
      } else {
        ResumeBlames(adapter, previous, maxPages, scan, cursor, 0);
      }
    }
  }

  lemma {:induction false} ResumeRequests(adapter: Adapter, previous: Watermark, maxPages: int,
                                          scan: Scan, cursor: Option<Cursor>, read: nat)
    requires previous.boundaryTime.At? && read < maxPages
    ensures Resume(adapter, previous, maxPages, scan, cursor, read).requests <= maxPages
    ensures Resume(adapter, previous, maxPages, scan, cursor, read).outcome != Failed(LoopEnded)
    decreases maxPages - read
  {
    if adapter(read, cursor).Fetched? {
      var page := adapter(read, cursor).page;
      StopIsNotLoopEnd(previous, scan, read + 1, page.listings, 0);
      var step := AbsorbFrom(previous, scan, read + 1, page.listings, 0);
      if step.Continue? && page.nextCursor.Some? && read + 1 != maxPages {
        ResumeRequests(adapter, previous, maxPages, step.scan, page.nextCursor, read + 1);
      }
    }
  }

  lemma {:induction false} StopIsNotLoopEnd(previous: Watermark, scan: Scan, page: nat, listings: seq<Listing>, index: nat)
    requires previous.boundaryTime.At? && index <= |listings|
    ensures AbsorbFrom(previous, scan, page, listings, index) != Stop(LoopEnded)
    decreases |listings| - index
  {
    if index < |listings| {
      var step := Absorb(previous, scan, page, index, listings[index]);
      if step.Continue? {
        StopIsNotLoopEnd(previous, step.scan, page, listings, index + 1);
      }
    }
  }

  /** Whatever the source answers, the loop never runs off its end and respects the page cap. */
  lemma TraverseBounded(adapter: Adapter, previous: Watermark, maxPages: int, checkpoint: Option<Checkpoint>)
    ensures Traverse(adapter, previous, maxPages, checkpoint).outcome != Failed(LoopEnded)
    ensures Traverse(adapter, previous, maxPages, checkpoint).requests <= if maxPages < 1 then 0 else maxPages
  {
    if maxPages >= 1 && previous.boundaryTime.At? && InitialScan(checkpoint).Ok? {
      ResumeRequests(adapter, previous, maxPages, InitialScan(checkpoint).value,
                     if checkpoint.Some? then Some(checkpoint.value.resumeCursor) else None, 0);
    }
  }

  /**
   * Recovery restarts at most once, only for that error, within twice the page cap; what it hands
   * back is never that error, and any other outcome of the resumed traversal is handed back as it is.
   */
  lemma RecoverySound(first: Adapter, second: Adapter, previous: Watermark, maxPages: int,
                      checkpoint: Option<Checkpoint>)
    ensures var r := TraverseRecovering(first, second, previous, maxPages, checkpoint);
      var resumed := Traverse(first, previous, maxPages, checkpoint);
      && !IsStaleCatchupCheckpointError(r.outcome)
      && r.requests <= (if maxPages < 1 then 0 else 2 * maxPages)
      && (if IsStaleCatchupCheckpointError(resumed.outcome)
          then r.outcome == Traverse(second, previous, maxPages, None).outcome
          else r == resumed)
  {
    StaleExactly(first, previous, maxPages, checkpoint);
    StaleExactly(second, previous, maxPages, None);
    TraverseBounded(first, previous, maxPages, checkpoint);
    TraverseBounded(second, previous, maxPages, None);
  }
}

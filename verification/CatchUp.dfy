/**
 * Page-capped runs chained through the persisted cursor. On an unchanging newest-first feed with
 * distinct ids, the chain reports what one uncapped traversal reports and leaves its boundary.
 */
module CatchUp {
  import opened Basics
  import opened Feed
  import opened WatermarkTraversal
  import opened WatermarkMeaning
  import opened FeedRun
  import opened MonitorStore
  import opened IncrementalRun

  // ----- one traversal

  /** A complete traversal reports exactly the new listings and leaves exactly the feed's boundary. */
  lemma CompleteTraversalIsExact(pages: seq<seq<Listing>>, previous: Watermark, maxPages: nat)
    requires previous.boundaryTime.At? && maxPages >= 1 && pages != []
    requires Sorted(Ahead(pages, 0, |pages|))
    ensures var all := Ahead(pages, 0, |pages|);
      var run := Traverse(FixedFeed(pages), previous, maxPages, None).outcome;
      && !run.Failed?
      && (maxPages >= |pages| ==> run.Complete?)
      && (run.Complete? ==>
            && run.newListings == NewOf(previous, all)
            && IsNextBoundary(previous, all, run.nextWatermark))
  {
    hide Traverse, NewOf, IsNextBoundary, Ahead, Sorted;
    assert [] + Ahead(pages, 0, |pages|) == Ahead(pages, 0, |pages|);
    TraverseMeaning(pages, previous, maxPages, [], None);
  }

  lemma SettledBoundary(previous: Watermark, all: seq<Listing>, next: Watermark)
    requires previous.boundaryTime.At? && Sorted(all)
    requires IsNextBoundary(previous, all, next)
    ensures IsNextBoundary(next, all, next)
    ensures NewOf(next, all) == []
  {
    forall x | x in all ensures !IsNew(next, x) {
      assert x.listTime == next.boundaryTime ==> x.listId in IdsAt(all, next.boundaryTime.epoch);
      assert x.listTime == next.boundaryTime ==> x.listId in Elements(next.boundaryIds);
    }
    NothingNew(next, all);
  }

  /** Running again on the same feed reports nothing and keeps the boundary. */
  lemma RerunReportsNothing(pages: seq<seq<Listing>>, previous: Watermark, maxPages: nat, again: nat)
    requires previous.boundaryTime.At? && maxPages >= 1 && again >= 1 && pages != []
    requires Sorted(Ahead(pages, 0, |pages|))
    requires Traverse(FixedFeed(pages), previous, maxPages, None).outcome.Complete?
    ensures var next := Traverse(FixedFeed(pages), previous, maxPages, None).outcome.nextWatermark;
      var run := Traverse(FixedFeed(pages), next, again, None).outcome;
      && !run.Failed? && run.newListings == []
      && SameBoundary(run.nextWatermark, next)
  {
    hide Traverse, NewOf, IsNextBoundary, Sorted, Ahead, CheckpointFor;
    var all := Ahead(pages, 0, |pages|);
    CompleteTraversalIsExact(pages, previous, maxPages);
    var next := Traverse(FixedFeed(pages), previous, maxPages, None).outcome.nextWatermark;
    SettledBoundary(previous, all, next);
    NextBoundaryTimed(previous, all, next);
    assert [] + all == all;
    TraverseMeaning(pages, next, again, [], None);
    var run := Traverse(FixedFeed(pages), next, again, None).outcome;
    if run.Complete? {
      NextBoundaryUnique(next, all, run.nextWatermark, next);
    } else {
      var tail := AheadPrefix(pages, 0, again, |pages|);
      NewOfAppend(next, Ahead(pages, 0, again), tail);
    }
  }

  lemma NextBoundaryTimed(previous: Watermark, all: seq<Listing>, next: Watermark)
    requires previous.boundaryTime.At?
    requires IsNextBoundary(previous, all, next)
    ensures next.boundaryTime.At? && next.boundaryTime.epoch >= previous.boundaryTime.epoch
  {
  }

  // ----- runs chained through the cursor row

  ghost predicate ValidFeed(pages: seq<seq<Listing>>) {
    pages != [] && Sorted(Flatten(pages)) && DistinctIds(Flatten(pages))
  }

  lemma AheadIsFlat(pages: seq<seq<Listing>>, start: nat, end: nat)
    requires ValidFeed(pages) && start <= end <= |pages|
    ensures Ahead(pages, start, end) == Flatten(pages[start..end])
    ensures Flatten(pages) == Flatten(pages[..start]) + Flatten(pages[start..])
    ensures Flatten(pages[..end]) == Flatten(pages[..start]) + Flatten(pages[start..end])
  {
    hide Flatten, Unseen, Sorted;
    FlattenSplit(pages, start);
    FlattenSplit(pages, end);
    FlattenSplit(pages[..end], start);
    assert pages[..end][..start] == pages[..start] && pages[..end][start..] == pages[start..end];
    DistinctMiddle(Flatten(pages[..start]), Flatten(pages[start..end]), Flatten(pages[end..]));
    UnseenAll(Flatten(pages[start..end]), {});
  }

  lemma DistinctMiddle(a: seq<Listing>, b: seq<Listing>, c: seq<Listing>)
    requires DistinctIds(a + b + c)
    ensures DistinctIds(b)
  {
    forall i, j | 0 <= i < j < |b| ensures b[i].listId != b[j].listId {
      assert b[i] == (a + b + c)[|a| + i] && b[j] == (a + b + c)[|a| + j];
    }
  }

  /** Between two runs of a pass: `at` pages are done, their new listings reported, the checkpoint stands for them. */
  ghost predicate MidPass(db: Tables, monitorId: MonitorId, pages: seq<seq<Listing>>,
                          previous: Watermark, at: nat, reported: seq<Listing>)
  {
    && previous.boundaryTime.At?
    && at < |pages|
    && monitorId in db.monitors && monitorId in db.cursors
    && ParseWatermark(db.cursors[monitorId]) == Ok(previous)
    && reported == NewOf(previous, Flatten(pages[..at]))
    && var saved := ParseCatchupCheckpoint(db.cursors[monitorId]);
    && saved.Ok?
    && (saved.value.None? <==> at == 0)
    && (saved.value.Some? ==>
          saved.value.value.resumeCursor == at
          && CheckpointFor(previous, Flatten(pages[..at]), saved.value.value))
  }

  /** After the last run of a pass. */
  ghost predicate PassDone(db: Tables, monitorId: MonitorId, pages: seq<seq<Listing>>,
                           previous: Watermark, next: Watermark, reported: seq<Listing>)
  {
    && previous.boundaryTime.At?
    && monitorId in db.monitors && monitorId in db.cursors
    && ParseWatermark(db.cursors[monitorId]) == Ok(next)
    && ParseCatchupCheckpoint(db.cursors[monitorId]) == Ok(None)
    && reported == NewOf(previous, Flatten(pages))
    && IsNextBoundary(previous, Flatten(pages), next)
  }

  /** A run that fails commits nothing. */
  lemma FailedRunChangesNothing(db: Tables, monitorId: MonitorId, runId: Option<RunId>, first: Adapter,
                                second: Adapter, maxPages: int, select: Selector)
    ensures var r := Run(db, monitorId, runId, first, second, maxPages, select);
      r.outcome.Err? ==> r.db == db
  {
  }

  /** What a run that succeeds writes. */
  lemma RunWrites(db: Tables, monitorId: MonitorId, runId: Option<RunId>, first: Adapter,
                  second: Adapter, maxPages: int, select: Selector)
    ensures var r := Run(db, monitorId, runId, first, second, maxPages, select);
      r.outcome.Ok? ==>
        && monitorId in db.cursors && !r.outcome.value.Failed?
        && r.db.monitors == db.monitors
        && r.db.cursors == db.cursors[monitorId := AdvanceCursor(db.cursors[monitorId], r.outcome.value, db.revision + 1)]
        && r.db.matches == InsertMatches(db.matches, monitorId, Select(select, r.outcome.value.newListings))
  {
    hide TraverseRecovering, InsertMatches, Select, UpsertListings;
  }

  lemma RunIsTraversal(db: Tables, monitorId: MonitorId, runId: Option<RunId>, first: Adapter,
                       second: Adapter, maxPages: int, select: Selector,
                       previous: Watermark, checkpoint: Option<Checkpoint>)
    requires monitorId in db.monitors && monitorId in db.cursors
    requires ParseWatermark(db.cursors[monitorId]) == Ok(previous)
    requires ParseCatchupCheckpoint(db.cursors[monitorId]) == Ok(checkpoint)
    requires !TraverseRecovering(first, second, previous, maxPages, checkpoint).outcome.Failed?
    ensures var r := Run(db, monitorId, runId, first, second, maxPages, select);
      if runId.None? || runId.value in db.runs
      then r.outcome == Ok(TraverseRecovering(first, second, previous, maxPages, checkpoint).outcome)
      else r.outcome.Err?
  {
    hide TraverseRecovering, ParseWatermark, ParseCatchupCheckpoint, InsertMatches, Select, UpsertListings, AdvanceCursor;
  }

  /** A committed traversal over the pages from `at` on brings a pass one chunk further, or ends it. */
  lemma {:induction false} PassAfterRun(db: Tables, monitorId: MonitorId, pages: seq<seq<Listing>>, previous: Watermark, at: nat,
                     runId: Option<RunId>, first: Adapter, second: Adapter, maxPages: nat, select: Selector)
    requires ValidFeed(pages) && maxPages >= 1 && at < |pages| && previous.boundaryTime.At?
    requires monitorId in db.monitors && monitorId in db.cursors && ParseWatermark(db.cursors[monitorId]) == Ok(previous)
    requires var r := Run(db, monitorId, runId, first, second, maxPages, select);
      r.outcome.Ok? && RunMeaning(pages, previous, maxPages, at, Flatten(pages[..at]), r.outcome.value)
    ensures var r := Run(db, monitorId, runId, first, second, maxPages, select);
      var reported := NewOf(previous, Flatten(pages[..at])) + r.outcome.value.newListings;
      && (r.outcome.value.Complete? ==> PassDone(r.db, monitorId, pages, previous, r.outcome.value.nextWatermark, reported))
      && (r.outcome.value.Incomplete? ==> MidPass(r.db, monitorId, pages, previous, at + maxPages, reported))
  {
    hide Run, Sorted, DistinctIds, Flatten, NewOf, Unseen, IsNextBoundary, CheckpointFor,
      ParseWatermark, ParseCatchupCheckpoint, AdvanceCursor, InsertMatches, Select;
    var row := db.cursors[monitorId];
    var before := Flatten(pages[..at]);
    AheadIsFlat(pages, at, |pages|);
    assert pages[at..|pages|] == pages[at..];
    RunWrites(db, monitorId, runId, first, second, maxPages, select);
    var traversal := Run(db, monitorId, runId, first, second, maxPages, select).outcome.value;
    if traversal.Complete? {
      NextBoundaryTimed(previous, Flatten(pages), traversal.nextWatermark);
      CompletionRoundTrip(row, traversal, db.revision + 1);
      NewOfAppend(previous, before, Flatten(pages[at..]));
    } else {
      AheadIsFlat(pages, at, at + maxPages);
      CheckpointTimed(previous, Flatten(pages[..at + maxPages]), traversal.checkpoint);
      CheckpointRoundTrip(row, traversal, db.revision + 1);
      NewOfAppend(previous, before, Flatten(pages[at..at + maxPages]));
    }
  }

  /** One run in the middle of a pass brings the pass one chunk further, or ends it. */
  lemma RunAdvancesPass(db: Tables, monitorId: MonitorId, pages: seq<seq<Listing>>, previous: Watermark,
                        at: nat, reported: seq<Listing>, runId: Option<RunId>, second: Adapter,
                        maxPages: nat, select: Selector)
    requires ValidFeed(pages) && maxPages >= 1
    requires MidPass(db, monitorId, pages, previous, at, reported)
    requires runId.None? || runId.value in db.runs
    ensures var r := Run(db, monitorId, runId, FixedFeed(pages), second, maxPages, select);
      && r.outcome.Ok? && !r.outcome.value.Failed?
      && (r.outcome.value.Complete? ==>
            PassDone(r.db, monitorId, pages, previous, r.outcome.value.nextWatermark,
                     reported + r.outcome.value.newListings))
      && (r.outcome.value.Incomplete? ==>
            MidPass(r.db, monitorId, pages, previous, at + maxPages, reported + r.outcome.value.newListings))
  {
    hide Run, Traverse, Sorted, DistinctIds, Flatten, NewOf, Unseen, CheckpointFor, ParseWatermark,
      ParseCatchupCheckpoint, PassDone;
    var checkpoint := ParseCatchupCheckpoint(db.cursors[monitorId]).value;
    var before := Flatten(pages[..at]);
    assert at == 0 ==> pages[..at] == [] && before == [] by { FlattenNothing(); }
    AheadIsFlat(pages, at, |pages|);
    assert pages[at..|pages|] == pages[at..];
    TraverseMeaning(pages, previous, maxPages, before, checkpoint);
    RunIsTraversal(db, monitorId, runId, FixedFeed(pages), second, maxPages, select, previous, checkpoint);
    PassAfterRun(db, monitorId, pages, previous, at, runId, FixedFeed(pages), second, maxPages, select);
  }

  /** A run that restarts begins the pass anew, at the top of the feed as it is now. */
  lemma {:induction false} RestartBeginsPass(db: Tables, monitorId: MonitorId, pages: seq<seq<Listing>>, previous: Watermark,
                          saved: Checkpoint, runId: Option<RunId>, first: Adapter, maxPages: nat, select: Selector)
    requires ValidFeed(pages) && maxPages >= 1 && previous.boundaryTime.At?
    requires monitorId in db.monitors && monitorId in db.cursors
    requires ParseWatermark(db.cursors[monitorId]) == Ok(previous)
    requires ParseCatchupCheckpoint(db.cursors[monitorId]) == Ok(Some(saved))
    requires IsStaleCatchupCheckpointError(Traverse(first, previous, maxPages, Some(saved)).outcome)
    requires runId.None? || runId.value in db.runs
    ensures var r := Run(db, monitorId, runId, first, FixedFeed(pages), maxPages, select);
      && r.outcome.Ok? && !r.outcome.value.Failed?
      && (r.outcome.value.Complete? ==>
            PassDone(r.db, monitorId, pages, previous, r.outcome.value.nextWatermark, r.outcome.value.newListings))
      && (r.outcome.value.Incomplete? ==>
            MidPass(r.db, monitorId, pages, previous, maxPages, r.outcome.value.newListings))
  {
    hide Run, Traverse, Sorted, DistinctIds, Flatten, NewOf, Unseen, CheckpointFor, ParseWatermark,
      ParseCatchupCheckpoint, PassDone, MidPass;
    AheadIsFlat(pages, 0, |pages|);
    assert pages[0..|pages|] == pages && pages[..0] == [] && [] + Flatten(pages) == Flatten(pages);
    FlattenNothing();
    TraverseMeaning(pages, previous, maxPages, [], None);
    RunIsTraversal(db, monitorId, runId, first, FixedFeed(pages), maxPages, select, previous, Some(saved));
    PassAfterRun(db, monitorId, pages, previous, 0, runId, first, FixedFeed(pages), maxPages, select);
    NothingNew(previous, []);
    var news := Run(db, monitorId, runId, first, FixedFeed(pages), maxPages, select).outcome.value.newListings;
    assert [] + news == news;
  }

  lemma FlattenNothing()
    ensures Flatten([]) == []
  {
  }

  lemma CheckpointTimed(previous: Watermark, done: seq<Listing>, saved: Checkpoint)
    requires previous.boundaryTime.At?
    requires CheckpointFor(previous, done, saved)
    ensures Persistable(saved)
  {
    if done != [] {
      assert done[|done| - 1] in done;
    }
  }

  datatype Progress = Progress(db: Tables, reported: seq<Listing>, complete: bool)

  /** `n` runs of one monitor on one feed, stopping when a run completes. */
  function Chain(db: Tables, monitorId: MonitorId, pages: seq<seq<Listing>>, maxPages: nat,
                 select: Selector, n: nat): Progress
  {
    if n == 0 then Progress(db, [], false) else
      var before := Chain(db, monitorId, pages, maxPages, select, n - 1);
      if before.complete then before else
        var r := Run(before.db, monitorId, None, FixedFeed(pages), FixedFeed(pages), maxPages, select);
        if r.outcome.Err? then before
        else Progress(r.db, before.reported + r.outcome.value.newListings, r.outcome.value.Complete?)
  }

  lemma {:induction false} ChainInvariant(db: Tables, monitorId: MonitorId, pages: seq<seq<Listing>>,
                                          previous: Watermark, maxPages: nat, select: Selector, n: nat)
    requires ValidFeed(pages) && maxPages >= 1
    requires MidPass(db, monitorId, pages, previous, 0, [])
    ensures var p := Chain(db, monitorId, pages, maxPages, select, n);
      if p.complete then
        exists next :: PassDone(p.db, monitorId, pages, previous, next, p.reported)
      else MidPass(p.db, monitorId, pages, previous, n * maxPages, p.reported)
  {
    hide ValidFeed, MidPass, PassDone, Run;
    if n > 0 {
      ChainInvariant(db, monitorId, pages, previous, maxPages, select, n - 1);
      var before := Chain(db, monitorId, pages, maxPages, select, n - 1);
      if !before.complete {
        RunAdvancesPass(before.db, monitorId, pages, previous, (n - 1) * maxPages, before.reported, None,
                        FixedFeed(pages), maxPages, select);
        assert (n - 1) * maxPages + maxPages == n * maxPages;
        var r := Run(before.db, monitorId, None, FixedFeed(pages), FixedFeed(pages), maxPages, select);
        if r.outcome.value.Complete? {
          assert PassDone(r.db, monitorId, pages, previous, r.outcome.value.nextWatermark,
                          before.reported + r.outcome.value.newListings);
        }
      }
    }
  }

  function CeilDiv(a: nat, b: nat): nat
    requires b >= 1
  {
    (a + b - 1) / b
  }

  lemma CeilDivCovers(a: nat, b: nat)
    requires b >= 1
    ensures CeilDiv(a, b) * b >= a
  {
    var q := (a + b - 1) / b;
    assert a + b - 1 == q * b + (a + b - 1) % b;
  }

  /**
   * Chunked catch-up refines one uncapped traversal: within ceil(pages / cap) runs, each reading the
   * checkpoint the one before it saved, the same listings are reported in the same order, and the
   * cursor holds the same boundary and no checkpoint.
   */
  lemma ChunkedCatchUpRefinesOnePass(db: Tables, monitorId: MonitorId, pages: seq<seq<Listing>>,
                                     previous: Watermark, maxPages: nat, select: Selector)
    requires ValidFeed(pages) && maxPages >= 1 && previous.boundaryTime.At?
    requires monitorId in db.monitors && monitorId in db.cursors
    requires ParseWatermark(db.cursors[monitorId]) == Ok(previous)
    requires ParseCatchupCheckpoint(db.cursors[monitorId]) == Ok(None)
    ensures var chunked := Chain(db, monitorId, pages, maxPages, select, CeilDiv(|pages|, maxPages));
      var whole := Traverse(FixedFeed(pages), previous, |pages|, None).outcome;
      && whole.Complete? && chunked.complete
      && chunked.reported == whole.newListings
      && monitorId in chunked.db.cursors
      && var row := chunked.db.cursors[monitorId];
      && ParseCatchupCheckpoint(row) == Ok(None)
      && ParseWatermark(row).Ok? && SameBoundary(ParseWatermark(row).value, whole.nextWatermark)
  {
    hide Traverse, Chain, Sorted, DistinctIds, NewOf, IsNextBoundary, CheckpointFor, CeilDiv,
      ParseWatermark, ParseCatchupCheckpoint;
    var n := CeilDiv(|pages|, maxPages);
    assert pages[..0] == [] && Flatten([]) == [] && NewOf(previous, []) == [] by { NothingNew(previous, []); }
    ChainInvariant(db, monitorId, pages, previous, maxPages, select, n);
    CeilDivCovers(|pages|, maxPages);
    var chunked := Chain(db, monitorId, pages, maxPages, select, n);
    assert chunked.complete;
    var next :| PassDone(chunked.db, monitorId, pages, previous, next, chunked.reported);
    AheadIsFlat(pages, 0, |pages|);
    assert pages[0..|pages|] == pages;
    CompleteTraversalIsExact(pages, previous, |pages|);
    NextBoundaryUnique(previous, Flatten(pages), next,
                       Traverse(FixedFeed(pages), previous, |pages|, None).outcome.nextWatermark);
  }
}

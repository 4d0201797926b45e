/** One traversal of an unchanging newest-first feed, fresh or resumed from a checkpoint. */
module FeedRun {
  import opened Basics
  import opened Feed
  import opened WatermarkTraversal
  import opened WatermarkMeaning

  /** The listings a run starting at page `start` has in front of it, up to page `end`. */
  function Ahead(pages: seq<seq<Listing>>, start: nat, end: nat): seq<Listing>
    requires start <= end <= |pages|
  {
    Unseen(Flatten(pages[start..end]), {})
  }

  /**
   * The outcome of a run over `pages[start..]` whose checkpoint stands for `before`: it never
   * fails; a complete run reports every new listing down to the end of the feed and leaves the
   * boundary of the whole feed, though it may have stopped reading earlier; an incomplete run did
   * the same for exactly the pages it read, and its checkpoint stands for them.
   */
  ghost predicate RunMeaning(pages: seq<seq<Listing>>, previous: Watermark, maxPages: nat,
                             start: nat, before: seq<Listing>, outcome: Traversal)
    requires previous.boundaryTime.At? && start <= |pages|
  {
    && !outcome.Failed?
    && (outcome.Complete? ==>
          && outcome.newListings == NewOf(previous, Ahead(pages, start, |pages|))
          && IsNextBoundary(previous, before + Ahead(pages, start, |pages|), outcome.nextWatermark))
    && (outcome.Incomplete? ==>
          && start + maxPages < |pages|
          && outcome.pagesRead == maxPages
          && outcome.newListings == NewOf(previous, Ahead(pages, start, start + maxPages))
          && outcome.nextWatermark == previous
          && outcome.checkpoint.resumeCursor == start + maxPages
          && CheckpointFor(previous, before + Ahead(pages, start, start + maxPages), outcome.checkpoint))
  }

  /** Reading one more page extends what lies behind the run by that page's unseen listings. */
  lemma AheadStep(pages: seq<seq<Listing>>, start: nat, at: nat, end: nat)
    requires start <= at < end <= |pages|
    ensures var seen := Ids(Flatten(pages[start..at]));
      && Ahead(pages, start, at + 1) == Ahead(pages, start, at) + Unseen(pages[at], seen)
      && Ids(Flatten(pages[start..at + 1])) == seen + Ids(pages[at])
  {
    var upTo := pages[start..at + 1];
    assert upTo[..|upTo| - 1] == pages[start..at] && upTo[|upTo| - 1] == pages[at];
    assert Flatten(upTo) == Flatten(pages[start..at]) + pages[at];
    UnseenAppend(Flatten(pages[start..at]), pages[at], {});
    IdsConcat(Flatten(pages[start..at]), pages[at]);
    assert {} + Ids(Flatten(pages[start..at])) == Ids(Flatten(pages[start..at]));
  }

  lemma AheadPrefix(pages: seq<seq<Listing>>, start: nat, at: nat, end: nat) returns (tail: seq<Listing>)
    requires start <= at <= end <= |pages|
    ensures Ahead(pages, start, end) == Ahead(pages, start, at) + tail
  {
    hide Unseen, Flatten, Ids;
    var near, far := Flatten(pages[start..at]), Flatten(pages[at..end]);
    FlattenSplit(pages[start..end], at - start);
    assert pages[start..end][..at - start] == pages[start..at];
    assert pages[start..end][at - start..] == pages[at..end];
    UnseenAppend(near, far, {});
    tail := Unseen(far, {} + Ids(near));
  }

  lemma MakesCheckpointFor(previous: Watermark, done: seq<Listing>, scan: Scan, cursor: Cursor)
    requires previous.boundaryTime.At?
    requires Represents(previous, done, scan)
    ensures CheckpointFor(previous, done, MakeCheckpoint(previous, scan, cursor))
  {
  }

  /** The loop, standing before page `at` of the feed. */
  lemma {:induction false} ResumeMeaning(
    pages: seq<seq<Listing>>, previous: Watermark, maxPages: nat, start: nat, before: seq<Listing>,
    scan: Scan, cursor: Option<Cursor>, read: nat)
    requires previous.boundaryTime.At?
    requires read < maxPages && start + read < |pages|
    requires cursor == Some(start + read) || (cursor == None && start + read == 0)
    requires Sorted(before + Ahead(pages, start, |pages|))
    requires scan.seenIds == Ids(Flatten(pages[start..start + read]))
    requires scan.newListings == NewOf(previous, Ahead(pages, start, start + read))
    requires Represents(previous, before + Ahead(pages, start, start + read), scan)
    ensures RunMeaning(pages, previous, maxPages, start, before,
                       Resume(FixedFeed(pages), previous, maxPages, scan, cursor, read).outcome)
    decreases maxPages - read
  {
    hide Represents, Sorted, IsNextBoundary, AccumulatedWatermark, NewOf, Ids, Flatten, Unseen,
      AbsorbFrom, CheckpointFor, MakeCheckpoint, Ahead;
    var at := start + read;
    var listings := pages[at];
    var chunk := Ahead(pages, start, at);
    var rest := Unseen(listings, scan.seenIds);
    var chunk' := Ahead(pages, start, at + 1);
    assert chunk' == chunk + rest by { AheadStep(pages, start, at, |pages|); AheadIsUnseen(pages, start, at, listings); }
    assert Ids(Flatten(pages[start..at + 1])) == scan.seenIds + Ids(listings) by { AheadStep(pages, start, at, |pages|); }
    var tail := AheadPrefix(pages, start, at + 1, |pages|);
    assert before + (chunk' + tail) == (before + chunk + rest) + tail;
    SortedPrefix(before + chunk + rest, tail);
    assert listings[0..] == listings;
    PageMeaning(previous, before + chunk, chunk, scan, read + 1, listings, 0);
    assert before + chunk + rest == before + chunk';
    var step := AbsorbFrom(previous, scan, read + 1, listings, 0);
    assert FixedFeed(pages)(read, cursor)
        == Fetched(Page(listings, if at + 1 < |pages| then Some(at + 1) else None));
    if step.Crossed? {
      assert before + chunk' + tail == before + Ahead(pages, start, |pages|);
      OlderTail(previous, before + chunk', tail, AccumulatedWatermark(previous, step.scan));
      NewOfAppend(previous, chunk', tail);
    } else if at + 1 == |pages| {
      assert IsNextBoundary(previous, before + chunk', AccumulatedWatermark(previous, step.scan)) by {
        RepresentsBoundary(previous, before + chunk', step.scan);
      }
    } else if read + 1 == maxPages {
      MakesCheckpointFor(previous, before + chunk', step.scan, at + 1);
      CheckpointCursor(previous, step.scan, at + 1);
    } else {
      ResumeMeaning(pages, previous, maxPages, start, before, step.scan, Some(at + 1), read + 1);
    }
  }

  lemma AheadIsUnseen(pages: seq<seq<Listing>>, start: nat, at: nat, listings: seq<Listing>)
    requires start <= at < |pages| && listings == pages[at]
    ensures Ahead(pages, start, at) == Unseen(Flatten(pages[start..at]), {})
  {
  }

  lemma RepresentsBoundary(previous: Watermark, done: seq<Listing>, scan: Scan)
    requires previous.boundaryTime.At?
    requires Represents(previous, done, scan)
    ensures IsNextBoundary(previous, done, AccumulatedWatermark(previous, scan))
  {
  }

  lemma CheckpointCursor(previous: Watermark, scan: Scan, cursor: Cursor)
    requires previous.boundaryTime.At?
    ensures MakeCheckpoint(previous, scan, cursor).resumeCursor == cursor
  {
  }

  /** A checkpoint that stands for everything before the page it resumes at. */
  ghost predicate Resumable(pages: seq<seq<Listing>>, previous: Watermark, before: seq<Listing>,
                            checkpoint: Option<Checkpoint>)
    requires previous.boundaryTime.At?
  {
    if checkpoint.None? then before == [] && pages != []
    else checkpoint.value.resumeCursor < |pages| && CheckpointFor(previous, before, checkpoint.value)
  }

  function StartPage(checkpoint: Option<Checkpoint>): nat {
    if checkpoint.None? then 0 else checkpoint.value.resumeCursor
  }

  lemma TraverseMeaning(pages: seq<seq<Listing>>, previous: Watermark, maxPages: nat,
                        before: seq<Listing>, checkpoint: Option<Checkpoint>)
    requires previous.boundaryTime.At? && maxPages >= 1
    requires Resumable(pages, previous, before, checkpoint)
    requires Sorted(before + Ahead(pages, StartPage(checkpoint), |pages|))
    ensures RunMeaning(pages, previous, maxPages, StartPage(checkpoint), before,
                       Traverse(FixedFeed(pages), previous, maxPages, checkpoint).outcome)
  {
    hide RunMeaning, Sorted;
    var start := StartPage(checkpoint);
    assert pages[start..start] == [] && before + [] == before;
    assert Ahead(pages, start, start) == [];
    if checkpoint.Some? {
      CheckpointResumes(previous, before, checkpoint.value);
    } else {
      FreshScanRepresents(previous);
    }
    ResumeMeaning(pages, previous, maxPages, start, before, InitialScan(checkpoint).value,
                  if checkpoint.Some? then Some(start) else None, 0);
  }
}

/**
 * The incremental traversal: page through a newest-first source until the remembered boundary,
 * or stop at the page cap and hand out a catch-up checkpoint.
 */
module WatermarkTraversal {
  import opened Basics
  import opened Feed

  datatype Watermark = Watermark(boundaryTime: Instant, boundaryIds: seq<ListingId>)

  datatype LastObservation = LastObservation(listId: ListingId, listTime: Instant)

  datatype Checkpoint = Checkpoint(
    resumeCursor: Cursor,
    pendingWatermark: Watermark,
    lastObservation: Option<LastObservation>)

  /** Where in the traversal a listing was met; a checkpoint's own observation is page 0, index -1. */
  datatype Observation = Observation(page: nat, index: int, listId: ListingId, listTime: Instant)

  datatype ConfigField = MaxPages | PreviousBoundaryTime | PendingBoundaryTime

  datatype TraversalError =
    | BadConfig(field: ConfigField)
    | BadOrder(previous: Observation, current: Observation)
    | BadListingTime(observation: Observation)
    | SourceFailed(reason: string)
    | LoopEnded

  datatype Traversal =
    | Complete(newListings: seq<Listing>, nextWatermark: Watermark, pagesRead: nat)
    | Incomplete(newListings: seq<Listing>, nextWatermark: Watermark, pagesRead: nat, checkpoint: Checkpoint)
    | Failed(error: TraversalError)

  /** How a traversal ended, and how many page requests it made. */
  datatype Attempt = Attempt(outcome: Traversal, requests: nat)

  datatype Ordering = Ordering(observation: Observation, epoch: int)

  /** The traversal's local variables. */
  datatype Scan = Scan(
    seenIds: set<ListingId>,
    newListings: seq<Listing>,
    maximumEpoch: Option<int>,
    idsAtMaximum: seq<ListingId>,
    previousObservation: Option<Ordering>)

  datatype Step =
    | Continue(scan: Scan)
    | Crossed(scan: Scan)
    | Stop(error: TraversalError)

  // ----- specification of one traversal

  function NoteMaximum(scan: Scan, epoch: int, listId: ListingId): Scan {
    if scan.maximumEpoch.None? || epoch > scan.maximumEpoch.value then
      scan.(maximumEpoch := Some(epoch), idsAtMaximum := [listId])
    else if epoch == scan.maximumEpoch.value && listId !in scan.idsAtMaximum then
      scan.(idsAtMaximum := scan.idsAtMaximum + [listId])
    else scan
  }

  /** One turn of the inner loop. */
  function Absorb(previous: Watermark, scan: Scan, page: nat, index: nat, current: Listing): Step
    requires previous.boundaryTime.At?
  {
    if current.listId in scan.seenIds then Continue(scan) else
      var observation := Observation(page, index, current.listId, current.listTime);
      if current.listTime.Unparsable? then Stop(BadListingTime(observation)) else
        var epoch := current.listTime.epoch;
        if scan.previousObservation.Some? && epoch > scan.previousObservation.value.epoch then
          Stop(BadOrder(scan.previousObservation.value.observation, observation))
        else
          var noted := NoteMaximum(
            scan.(seenIds := scan.seenIds + {current.listId},
                  previousObservation := Some(Ordering(observation, epoch))),
            epoch, current.listId);
          if epoch > previous.boundaryTime.epoch then
            Continue(noted.(newListings := noted.newListings + [current]))
          else if epoch == previous.boundaryTime.epoch then
            Continue(if current.listId in previous.boundaryIds then noted
                     else noted.(newListings := noted.newListings + [current]))
          else Crossed(noted)
  }

  /** The rest of a page, from `index` on. */
  function AbsorbFrom(previous: Watermark, scan: Scan, page: nat, listings: seq<Listing>, index: nat): Step
    requires previous.boundaryTime.At?
    requires index <= |listings|
    decreases |listings| - index
  {
    if index == |listings| then Continue(scan) else
      var step := Absorb(previous, scan, page, index, listings[index]);
      if step.Continue? then AbsorbFrom(previous, step.scan, page, listings, index + 1) else step
  }

  function AccumulatedWatermark(previous: Watermark, scan: Scan): Watermark
    requires previous.boundaryTime.At?
  {
    if scan.maximumEpoch.None? || scan.maximumEpoch.value < previous.boundaryTime.epoch then previous
    else if scan.maximumEpoch.value == previous.boundaryTime.epoch then
      Watermark(previous.boundaryTime, Unique(previous.boundaryIds + scan.idsAtMaximum))
    else Watermark(At(scan.maximumEpoch.value), Unique(scan.idsAtMaximum))
  }

  /** The checkpoint handed out at the page cap. */
  function MakeCheckpoint(previous: Watermark, scan: Scan, cursor: Cursor): Checkpoint
    requires previous.boundaryTime.At?
  {
    Checkpoint(cursor, AccumulatedWatermark(previous, scan),
               if scan.previousObservation.None? then None else
                 var seen := scan.previousObservation.value.observation;
                 Some(LastObservation(seen.listId, seen.listTime)))
  }

  /** The outer loop, after `pagesRead` pages. */
  function Resume(adapter: Adapter, previous: Watermark, maxPages: int,
                  scan: Scan, cursor: Option<Cursor>, pagesRead: nat): Attempt
    requires previous.boundaryTime.At?
    decreases maxPages - pagesRead
  {
    if pagesRead >= maxPages then Attempt(Failed(LoopEnded), pagesRead) else
      match adapter(pagesRead, cursor)
      case FetchFailed(reason) => Attempt(Failed(SourceFailed(reason)), pagesRead + 1)
      case Fetched(page) =>
        var read := pagesRead + 1;
        var step := AbsorbFrom(previous, scan, read, page.listings, 0);
        if step.Stop? then Attempt(Failed(step.error), read)
        else if step.Crossed? || page.nextCursor.None? then
          Attempt(Complete(step.scan.newListings, AccumulatedWatermark(previous, step.scan), read), read)
        else if read == maxPages then
          Attempt(Incomplete(step.scan.newListings, previous, read,
                             MakeCheckpoint(previous, step.scan, page.nextCursor.value)), read)
        else Resume(adapter, previous, maxPages, step.scan, page.nextCursor, read)
  }

  /** The local variables before the first request. */
  function InitialScan(checkpoint: Option<Checkpoint>): Result<Scan, TraversalError> {
    match checkpoint
    case None => Ok(Scan({}, [], None, [], None))
    case Some(saved) =>
      if saved.pendingWatermark.boundaryTime.Unparsable? then Err(BadConfig(PendingBoundaryTime)) else
        var start := Scan({}, [], Some(saved.pendingWatermark.boundaryTime.epoch),
                          saved.pendingWatermark.boundaryIds, None);
        if saved.lastObservation.None? then Ok(start) else
          var last := saved.lastObservation.value;
          var observation := Observation(0, -1, last.listId, last.listTime);
          if last.listTime.Unparsable? then Err(BadListingTime(observation))
          else Ok(start.(previousObservation := Some(Ordering(observation, last.listTime.epoch))))
  }

  function Traverse(adapter: Adapter, previous: Watermark, maxPages: int,
                    checkpoint: Option<Checkpoint>): Attempt
  {
    if maxPages < 1 then Attempt(Failed(BadConfig(MaxPages)), 0)
    else if previous.boundaryTime.Unparsable? then Attempt(Failed(BadConfig(PreviousBoundaryTime)), 0)
    else match InitialScan(checkpoint)
      case Err(error) => Attempt(Failed(error), 0)
      case Ok(scan) =>
        Resume(adapter, previous, maxPages, scan,
               if checkpoint.Some? then Some(checkpoint.value.resumeCursor) else None, 0)
  }

  // ----- the traversal as the worker runs it

  method TraverseWatermark(adapter: Adapter, previous: Watermark, maxPages: int, checkpoint: Option<Checkpoint>)
    returns (r: Attempt)
    ensures r == Traverse(adapter, previous, maxPages, checkpoint)
  {
    if maxPages < 1 {
      return Attempt(Failed(BadConfig(MaxPages)), 0);
    }
    if previous.boundaryTime.Unparsable? {
      return Attempt(Failed(BadConfig(PreviousBoundaryTime)), 0);
    }
    var previousEpoch := previous.boundaryTime.epoch;
    var previousIds := Elements(previous.boundaryIds);

    var seenIds: set<ListingId> := {};
    var newListings: seq<Listing> := [];
    var idsAtMaximum: seq<ListingId> := [];
    var maximumEpoch: Option<int> := None;
    var cursor: Option<Cursor> := None;
    var previousObservation: Option<Ordering> := None;
    if checkpoint.Some? {
      var pending := checkpoint.value.pendingWatermark;
      if pending.boundaryTime.Unparsable? {
        return Attempt(Failed(BadConfig(PendingBoundaryTime)), 0);
      }
      idsAtMaximum := pending.boundaryIds;
      maximumEpoch := Some(pending.boundaryTime.epoch);
      cursor := Some(checkpoint.value.resumeCursor);
      if checkpoint.value.lastObservation.Some? {
        var last := checkpoint.value.lastObservation.value;
        var observation := Observation(0, -1, last.listId, last.listTime);
        if last.listTime.Unparsable? {
          return Attempt(Failed(BadListingTime(observation)), 0);
        }
        previousObservation := Some(Ordering(observation, last.listTime.epoch));
      }
    }
    var pagesRead := 0;
    var boundaryCrossed := false;
    ghost var whole := Traverse(adapter, previous, maxPages, checkpoint);

    while pagesRead < maxPages
      invariant 0 <= pagesRead <= maxPages
      invariant !boundaryCrossed
      invariant whole == Resume(adapter, previous, maxPages,
                                Scan(seenIds, newListings, maximumEpoch, idsAtMaximum, previousObservation),
                                cursor, pagesRead)
    {
      var answer := adapter(pagesRead, cursor);
      if answer.FetchFailed? {
        return Attempt(Failed(SourceFailed(answer.reason)), pagesRead + 1);
      }
      var page := answer.page;
      ghost var before := Scan(seenIds, newListings, maximumEpoch, idsAtMaximum, previousObservation);
      pagesRead := pagesRead + 1;

      var index := 0;
      while index < |page.listings|
        invariant index <= |page.listings|
        invariant !boundaryCrossed
        invariant
          AbsorbFrom(previous, before, pagesRead, page.listings, 0)
          == AbsorbFrom(previous, Scan(seenIds, newListings, maximumEpoch, idsAtMaximum, previousObservation),
                        pagesRead, page.listings, index)
      {
        var current := page.listings[index];
        if current.listId in seenIds {
          index := index + 1;
          continue;
        }
        seenIds := seenIds + {current.listId};

        var observation := Observation(pagesRead, index, current.listId, current.listTime);
        if current.listTime.Unparsable? {
          return Attempt(Failed(BadListingTime(observation)), pagesRead);
        }
        var epoch := current.listTime.epoch;
        if previousObservation.Some? && epoch > previousObservation.value.epoch {
          return Attempt(Failed(BadOrder(previousObservation.value.observation, observation)), pagesRead);
        }
        previousObservation := Some(Ordering(observation, epoch));

        if maximumEpoch.None? || epoch > maximumEpoch.value {
          maximumEpoch := Some(epoch);
          idsAtMaximum := [current.listId];
        } else if epoch == maximumEpoch.value && current.listId !in idsAtMaximum {
          idsAtMaximum := idsAtMaximum + [current.listId];
        }

        if epoch > previousEpoch {
          newListings := newListings + [current];
          index := index + 1;
          continue;
        }
        if epoch == previousEpoch {
          if current.listId !in previousIds {
            newListings := newListings + [current];
          }
          index := index + 1;
          continue;
        }
        boundaryCrossed := true;
        break;
      }

      var scan := Scan(seenIds, newListings, maximumEpoch, idsAtMaximum, previousObservation);
      if boundaryCrossed || page.nextCursor.None? {
        return Attempt(Complete(newListings, AccumulatedWatermark(previous, scan), pagesRead), pagesRead);
      }
      if pagesRead == maxPages {
        var saved := MakeCheckpoint(previous, scan, page.nextCursor.value);
        return Attempt(Incomplete(newListings, previous, pagesRead, saved), pagesRead);
      }
      cursor := page.nextCursor;
    }
    r := Attempt(Failed(LoopEnded), pagesRead);
  }
}

/** The cold start: read pages until the tie at the newest time is closed, and start from there. */
module ColdStart {
  import opened Basics
  import opened Feed
  import opened WatermarkTraversal
  import opened WatermarkMeaning
  import opened FeedRun

  datatype Baseline =
    | Baseline(listings: seq<Listing>, pagesRead: nat, nextWatermark: Watermark)
    | IncompleteBaseline(maxPages: int, pagesRead: nat)
    | BaselineFailed(error: TraversalError)

  /** The traversal's local variables. */
  datatype BaselineScan = BaselineScan(
    seenIds: set<ListingId>,
    listings: seq<Listing>,
    boundaryEpoch: Option<int>,
    boundaryIds: seq<ListingId>,
    previousObservation: Option<Ordering>,
    tieClosed: bool)

  datatype BaselineStep = Went(scan: BaselineScan) | Halted(error: TraversalError)

  function Absorb(scan: BaselineScan, page: nat, index: nat, current: Listing): BaselineStep {
    if current.listId in scan.seenIds then Went(scan) else
      var observation := Observation(page, index, current.listId, current.listTime);
      if current.listTime.Unparsable? then Halted(BadListingTime(observation)) else
        var epoch := current.listTime.epoch;
        if scan.previousObservation.Some? && epoch > scan.previousObservation.value.epoch then
          Halted(BadOrder(scan.previousObservation.value.observation, observation))
        else
          var noted := scan.(seenIds := scan.seenIds + {current.listId},
                             listings := scan.listings + [current],
                             previousObservation := Some(Ordering(observation, epoch)));
          Went(
            if scan.boundaryEpoch.None? then
              noted.(boundaryEpoch := Some(epoch), boundaryIds := scan.boundaryIds + [current.listId])
            else if epoch == scan.boundaryEpoch.value then
              noted.(boundaryIds := scan.boundaryIds + [current.listId])
            else if epoch < scan.boundaryEpoch.value then noted.(tieClosed := true)
            else noted)
  }

  function AbsorbFrom(scan: BaselineScan, page: nat, listings: seq<Listing>, index: nat): BaselineStep
    requires index <= |listings|
    decreases |listings| - index
  {
    if index == |listings| then Went(scan) else
      var step := Absorb(scan, page, index, listings[index]);
      if step.Went? then AbsorbFrom(step.scan, page, listings, index + 1) else step
  }

  /** The outer loop, after `pagesRead` pages. */
  function Resume(adapter: Adapter, maxPages: int, startedAt: int,
                  scan: BaselineScan, cursor: Option<Cursor>, pagesRead: nat): Baseline
    decreases maxPages - pagesRead
  {
    if pagesRead >= maxPages then BaselineFailed(LoopEnded) else
      match adapter(pagesRead, cursor)
      case FetchFailed(reason) => BaselineFailed(SourceFailed(reason))
      case Fetched(page) =>
        var read := pagesRead + 1;
        if read == 1 && page.listings == [] then Baseline([], read, Watermark(At(startedAt), [])) else
          var step := AbsorbFrom(scan.(tieClosed := false), read, page.listings, 0);
          if step.Halted? then BaselineFailed(step.error)
          else if step.scan.boundaryEpoch.Some? && (step.scan.tieClosed || page.nextCursor.None?) then
            Baseline(step.scan.listings, read,
                     Watermark(At(step.scan.boundaryEpoch.value), step.scan.boundaryIds))
          else if read == maxPages then IncompleteBaseline(maxPages, read)
          else Resume(adapter, maxPages, startedAt, step.scan, page.nextCursor, read)
  }

  const EMPTY_SCAN := BaselineScan({}, [], None, [], None, false)

  function Traverse(adapter: Adapter, maxPages: int, startedAt: int): Baseline {
    if maxPages < 1 then BaselineFailed(BadConfig(MaxPages))
    else Resume(adapter, maxPages, startedAt, EMPTY_SCAN, None, 0)
  }

  method TraverseColdStartBaseline(adapter: Adapter, maxPages: int, startedAt: int) returns (r: Baseline)
    ensures r == Traverse(adapter, maxPages, startedAt)
  {
    if maxPages < 1 {
      return BaselineFailed(BadConfig(MaxPages));
    }
    var seenIds: set<ListingId> := {};
    var listings: seq<Listing> := [];
    var boundaryIds: seq<ListingId> := [];
    var boundaryEpoch: Option<int> := None;
    var previousObservation: Option<Ordering> := None;
    var cursor: Option<Cursor> := None;
    var pagesRead := 0;
    ghost var closedBefore := false;
    while pagesRead < maxPages
      invariant 0 <= pagesRead <= maxPages
      invariant Traverse(adapter, maxPages, startedAt)
             == Resume(adapter, maxPages, startedAt,
                       BaselineScan(seenIds, listings, boundaryEpoch, boundaryIds, previousObservation, closedBefore),
                       cursor, pagesRead)
    {
      var answer := adapter(pagesRead, cursor);
      if answer.FetchFailed? {
        return BaselineFailed(SourceFailed(answer.reason));
      }
      var page := answer.page;
      pagesRead := pagesRead + 1;
      if pagesRead == 1 && page.listings == [] {
        return Baseline([], pagesRead, Watermark(At(startedAt), []));
      }
      var topTimeTieClosed := false;
      ghost var before := BaselineScan(seenIds, listings, boundaryEpoch, boundaryIds, previousObservation, false);
      var index := 0;
      while index < |page.listings|
        invariant index <= |page.listings|
        invariant AbsorbFrom(before, pagesRead, page.listings, 0)
               == AbsorbFrom(BaselineScan(seenIds, listings, boundaryEpoch, boundaryIds, previousObservation, topTimeTieClosed),
                             pagesRead, page.listings, index)
      {
        var current := page.listings[index];
        if current.listId in seenIds {
          index := index + 1;
          continue;
        }
        seenIds := seenIds + {current.listId};
        listings := listings + [current];
        var observation := Observation(pagesRead, index, current.listId, current.listTime);
        if current.listTime.Unparsable? {
          return BaselineFailed(BadListingTime(observation));
        }
        var epoch := current.listTime.epoch;
        if previousObservation.Some? && epoch > previousObservation.value.epoch {
          return BaselineFailed(BadOrder(previousObservation.value.observation, observation));
        }
        previousObservation := Some(Ordering(observation, epoch));
        index := index + 1;
        if boundaryEpoch.None? {
          boundaryEpoch := Some(epoch);
          boundaryIds := boundaryIds + [current.listId];
          continue;
        }
        if epoch == boundaryEpoch.value {
          boundaryIds := boundaryIds + [current.listId];
          continue;
        }
        if epoch < boundaryEpoch.value {
          topTimeTieClosed := true;
        }
      }
      if boundaryEpoch.Some? && (topTimeTieClosed || page.nextCursor.None?) {
        return Baseline(listings, pagesRead, Watermark(At(boundaryEpoch.value), boundaryIds));
      }
      if pagesRead == maxPages {
        return IncompleteBaseline(maxPages, pagesRead);
      }
      cursor := page.nextCursor;
      closedBefore := topTimeTieClosed;
    }
    r := BaselineFailed(LoopEnded);
  }

  // ----- what a cold start means on an unchanging newest-first feed

  /** Where a cold start stands after processing `done`, first listing first. */
  ghost predicate Represents(done: seq<Listing>, scan: BaselineScan) {
    && Sorted(done)
    && scan.listings == done
    && scan.seenIds == Ids(done)
    && (done == [] ==> scan == EMPTY_SCAN)
    && (done != [] ==>
          && scan.boundaryEpoch == Some(done[0].listTime.epoch)
          && Elements(scan.boundaryIds) == IdsAt(done, done[0].listTime.epoch)
          && scan.previousObservation.Some?
          && scan.previousObservation.value.epoch == done[|done| - 1].listTime.epoch
          && (scan.tieClosed <==> done[|done| - 1].listTime.epoch < done[0].listTime.epoch))
  }

  lemma AbsorbMeaning(done: seq<Listing>, scan: BaselineScan, page: nat, index: nat, x: Listing)
    requires Represents(done, scan)
    requires x.listId !in scan.seenIds
    requires Sorted(done + [x])
    ensures var step := Absorb(scan, page, index, x);
      step.Went? && Represents(done + [x], step.scan)
  {
    assert (done + [x])[|done|] == x && x in done + [x];
    IdsAppend(done, x);
    if done == [] {
      AbsorbFirst(scan, page, index, x);
    } else {
      hide IdsAt, Elements, Ids;
      SortedEnds(done, x);
      IdsAtAppend(done, [x], done[0].listTime.epoch);
      IdsAtOne(x, done[0].listTime.epoch);
      ElementsAppend(scan.boundaryIds, x.listId);
      AbsorbLater(done, scan, page, index, x);
    }
  }

  lemma SortedEnds(done: seq<Listing>, x: Listing)
    requires done != [] && Sorted(done + [x])
    ensures x.listTime.At? && done[0].listTime.At? && done[|done| - 1].listTime.At?
    ensures x.listTime.epoch <= done[|done| - 1].listTime.epoch <= done[0].listTime.epoch
  {
    var all := done + [x];
    assert all[|done|] == x && all[|done| - 1] == done[|done| - 1] && all[0] == done[0];
    assert x in all && done[0] in all && all[|done| - 1] in all;
  }

  lemma AbsorbFirst(scan: BaselineScan, page: nat, index: nat, x: Listing)
    requires scan == EMPTY_SCAN && x.listTime.At?
    ensures var step := Absorb(scan, page, index, x);
      step.Went? && Represents([] + [x], step.scan)
  {
    var step := Absorb(scan, page, index, x);
    assert [] + [x] == [x] && x in [x];
    IdsAtOne(x, x.listTime.epoch);
    assert [] + [x.listId] == [x.listId] && Elements([x.listId]) == {x.listId};
    assert Ids([x]) == {x.listId};
    hide Elements, IdsAt, Ids;
  }

  lemma AbsorbLater(done: seq<Listing>, scan: BaselineScan, page: nat, index: nat, x: Listing)
    requires done != [] && Represents(done, scan) && Sorted(done + [x])
    requires x.listId !in scan.seenIds && x.listTime.At?
    requires done[0].listTime.At? && done[|done| - 1].listTime.At?
    requires x.listTime.epoch <= done[|done| - 1].listTime.epoch <= done[0].listTime.epoch
    requires Ids(done + [x]) == Ids(done) + {x.listId}
    requires IdsAt(done + [x], done[0].listTime.epoch)
          == IdsAt(done, done[0].listTime.epoch) + if x.listTime == done[0].listTime then {x.listId} else {}
    requires Elements(scan.boundaryIds + [x.listId]) == Elements(scan.boundaryIds) + {x.listId}
    ensures var step := Absorb(scan, page, index, x);
      step.Went? && Represents(done + [x], step.scan)
  {
    hide IdsAt, Elements, Ids, Sorted;
    assert (done + [x])[0] == done[0] && (done + [x])[|done|] == x;
  }

  lemma {:induction false} PageMeaning(done: seq<Listing>, scan: BaselineScan, page: nat, listings: seq<Listing>, index: nat)
    requires index <= |listings|
    requires Represents(done, scan)
    requires Sorted(done + Unseen(listings[index..], scan.seenIds))
    ensures var step := AbsorbFrom(scan, page, listings, index);
      step.Went? && Represents(done + Unseen(listings[index..], scan.seenIds), step.scan)
    decreases |listings| - index
  {
    hide Represents, Sorted, Absorb, Ids, Unseen;
    if index == |listings| {
      assert listings[index..] == [];
      UnseenNothing(scan.seenIds);
      assert done + [] == done;
    } else {
      var x := listings[index];
      var tail := Unseen(listings[index + 1..], scan.seenIds + {x.listId});
      UnseenCons(listings, index, scan.seenIds);
      if x.listId in scan.seenIds {
        AbsorbSeen(scan, page, index, x);
        assert scan.seenIds + {x.listId} == scan.seenIds;
        assert [] + tail == tail;
        PageMeaning(done, scan, page, listings, index + 1);
      } else {
        assert done + ([x] + tail) == done + [x] + tail;
        SortedPrefix(done + [x], tail);
        AbsorbMeaning(done, scan, page, index, x);
        var step := Absorb(scan, page, index, x);
        SeenAfter(done, scan, x, step.scan);
        PageMeaning(done + [x], step.scan, page, listings, index + 1);
      }
    }
  }

  lemma UnseenNothing(seen: set<ListingId>)
    ensures Unseen([], seen) == []
  {
  }

  lemma AbsorbSeen(scan: BaselineScan, page: nat, index: nat, x: Listing)
    requires x.listId in scan.seenIds
    ensures Absorb(scan, page, index, x) == Went(scan)
  {
  }

  lemma SeenAfter(done: seq<Listing>, scan: BaselineScan, x: Listing, next: BaselineScan)
    requires Represents(done, scan) && Represents(done + [x], next)
    ensures next.seenIds == scan.seenIds + {x.listId}
  {
    IdsAppend(done, x);
  }

  /**
   * The outcome of a cold start on a feed whose first page is not empty: either the page cap was
   * hit while every listing read was still tied at the newest time, or the boundary is the newest
   * time of the whole feed with exactly the feed's ids at that time.
   */
  ghost predicate BaselineMeaning(pages: seq<seq<Listing>>, maxPages: int, outcome: Baseline) {
    var all := Ahead(pages, 0, |pages|);
    && !outcome.BaselineFailed? && all != [] && all[0].listTime.At?
    && (outcome.IncompleteBaseline? ==>
          && outcome.pagesRead == maxPages < |pages|
          && var read := Ahead(pages, 0, maxPages);
          && read != [] && forall x | x in read :: x.listTime == all[0].listTime)
    && (outcome.Baseline? ==>
          && outcome.pagesRead <= |pages| && outcome.pagesRead <= maxPages
          && outcome.listings == Ahead(pages, 0, outcome.pagesRead)
          && outcome.nextWatermark.boundaryTime == all[0].listTime
          && Elements(outcome.nextWatermark.boundaryIds) == IdsAt(all, all[0].listTime.epoch))
  }

  /** Once the tie is closed, nothing further down shares the newest time. */
  lemma ClosedTie(done: seq<Listing>, tail: seq<Listing>)
    requires Sorted(done + tail) && done != []
    requires done[|done| - 1].listTime.epoch < done[0].listTime.epoch
    ensures IdsAt(done + tail, done[0].listTime.epoch) == IdsAt(done, done[0].listTime.epoch)
  {
    var all := done + tail;
    IdsAtAppend(done, tail, done[0].listTime.epoch);
    forall x | x in tail ensures x.listTime != At(done[0].listTime.epoch) {
      var k :| 0 <= k < |tail| && tail[k] == x;
      assert all[|done| + k] == x && all[|done| - 1] == done[|done| - 1];
    }
  }

  lemma OpenTie(done: seq<Listing>)
    requires Sorted(done) && done != []
    requires done[|done| - 1].listTime.epoch >= done[0].listTime.epoch
    ensures forall x | x in done :: x.listTime == done[0].listTime
  {
    assert done[0] in done && done[|done| - 1] in done;
    forall x | x in done ensures x.listTime == done[0].listTime {
      var k :| 0 <= k < |done| && done[k] == x;
    }
  }

  lemma {:induction false} ResumeMeaning(pages: seq<seq<Listing>>, maxPages: nat, startedAt: int,
                                         scan: BaselineScan, cursor: Option<Cursor>, read: nat)
    requires pages != [] && pages[0] != []
    requires read < maxPages && read < |pages|
    requires cursor == Some(read) || (cursor == None && read == 0)
    requires Sorted(Ahead(pages, 0, |pages|))
    requires Represents(Ahead(pages, 0, read), scan.(tieClosed := false))
    requires read == 0 ==> scan == EMPTY_SCAN
    requires read > 0 ==> Ahead(pages, 0, read) != []
    ensures BaselineMeaning(pages, maxPages, Resume(FixedFeed(pages), maxPages, startedAt, scan, cursor, read))
    decreases maxPages - read
  {
    hide Represents, Sorted, Unseen, Flatten, AbsorbFrom, IdsAt, Ids;
    var listings := pages[read];
    var done := Ahead(pages, 0, read);
    var done' := Ahead(pages, 0, read + 1);
    var open := scan.(tieClosed := false);
    SeenIsAhead(pages, read, open);
    assert done' == done + Unseen(listings, open.seenIds) by { AheadStep(pages, 0, read, |pages|); }
    var tail := AheadPrefix(pages, 0, read + 1, |pages|);
    SortedPrefix(done', tail);
    assert listings[0..] == listings;
    PageMeaning(done, open, read + 1, listings, 0);
    var step := AbsorbFrom(open, read + 1, listings, 0);
    assert FixedFeed(pages)(read, cursor)
        == Fetched(Page(listings, if read + 1 < |pages| then Some(read + 1) else None));
    SomethingProcessed(pages, read, done, done');
    RepresentsFacts(done', step.scan);
    assert Ahead(pages, 0, |pages|) == done' + tail;
    assert Ahead(pages, 0, |pages|)[0] == done'[0];
    if step.scan.tieClosed {
      ClosedTie(done', tail);
    } else if read + 1 == |pages| {
      assert done' == Ahead(pages, 0, |pages|);
    } else {
      OpenTie(done');
      if read + 1 < maxPages {
        assert step.scan.(tieClosed := false) == step.scan;
        ResumeMeaning(pages, maxPages, startedAt, step.scan, Some(read + 1), read + 1);
      }
    }
  }

  lemma SeenIsAhead(pages: seq<seq<Listing>>, read: nat, scan: BaselineScan)
    requires read <= |pages|
    requires Represents(Ahead(pages, 0, read), scan)
    ensures scan.seenIds == Ids(Flatten(pages[0..read]))
  {
  }

  /** After the first page something has been processed. */
  lemma SomethingProcessed(pages: seq<seq<Listing>>, read: nat, done: seq<Listing>, done': seq<Listing>)
    requires read < |pages| && pages[0] != []
    requires done == Ahead(pages, 0, read) && done' == Ahead(pages, 0, read + 1)
    requires read > 0 ==> done != []
    ensures done' != []
  {
    if read == 0 {
      AheadStep(pages, 0, 0, |pages|);
      assert pages[0][0].listId in Ids(pages[0]);
      assert pages[0..1] == [pages[0]] && Flatten(pages[0..1]) == pages[0] by {
        assert Flatten([pages[0]]) == Flatten([]) + pages[0];
      }
      assert Ids(done') == Ids(pages[0]);
    } else {
      AheadStep(pages, 0, read, |pages|);
    }
  }

  lemma RepresentsFacts(done: seq<Listing>, scan: BaselineScan)
    requires Represents(done, scan) && done != []
    ensures done[0].listTime.At? && done[|done| - 1].listTime.At?
    ensures scan.listings == done
    ensures scan.boundaryEpoch == Some(done[0].listTime.epoch)
    ensures Elements(scan.boundaryIds) == IdsAt(done, done[0].listTime.epoch)
    ensures scan.tieClosed <==> done[|done| - 1].listTime.epoch < done[0].listTime.epoch
  {
    assert done[0] in done && done[|done| - 1] in done;
  }

  /** A cold start either fails at the page cap inside the top tie, or closes the tie completely. */
  lemma ColdStartClosesTopTie(pages: seq<seq<Listing>>, maxPages: nat, startedAt: int)
    requires maxPages >= 1 && pages != [] && pages[0] != []
    requires Sorted(Ahead(pages, 0, |pages|))
    ensures BaselineMeaning(pages, maxPages, Traverse(FixedFeed(pages), maxPages, startedAt))
  {
    assert Ahead(pages, 0, 0) == [];
    ResumeMeaning(pages, maxPages, startedAt, EMPTY_SCAN, None, 0);
  }

  /** A source whose first page is empty starts from the clock, with no ids. */
  lemma ColdStartOnEmptyFirstPage(adapter: Adapter, maxPages: nat, startedAt: int)
    requires maxPages >= 1 && adapter(0, None).Fetched? && adapter(0, None).page.listings == []
    ensures Traverse(adapter, maxPages, startedAt) == Baseline([], 1, Watermark(At(startedAt), []))
  {
  }

  // ----- whatever the source answers

  /** `closed`: something older than the newest time was met, or the feed ended. */
  datatype Heard = Heard(listings: seq<Listing>, refused: bool, closed: bool)

  predicate TieIsClosed(listings: seq<Listing>) {
    listings != [] && listings[0].listTime.At? && listings[|listings| - 1].listTime.At?
    && listings[|listings| - 1].listTime.epoch < listings[0].listTime.epoch
  }

  /** The listings of all pages asked for, each id once; pages are asked for until the tie is closed. */
  function Hear(adapter: Adapter, maxPages: int, done: seq<Listing>, cursor: Option<Cursor>, read: nat): Heard
    decreases maxPages - read
  {
    if read >= maxPages then Heard(done, false, false) else
      match adapter(read, cursor)
      case FetchFailed(_) => Heard(done, true, false)
      case Fetched(page) =>
        var all := done + Unseen(page.listings, Ids(done));
        if all == [] || TieIsClosed(all) || page.nextCursor.None? then Heard(all, false, true)
        else Hear(adapter, maxPages, all, page.nextCursor, read + 1)
  }

  /** The outcome, said of what was heard. */
  ghost predicate HeardMeaning(heard: Heard, startedAt: int, outcome: Baseline) {
    && (outcome.BaselineFailed? <==> heard.refused || !Sorted(heard.listings))
    && (!outcome.BaselineFailed? ==> (outcome.Baseline? <==> heard.closed))
    && (outcome.Baseline? ==>
          && outcome.listings == heard.listings
          && (heard.listings == [] ==> outcome.nextWatermark == Watermark(At(startedAt), []))
          && (heard.listings != [] ==>
                && outcome.nextWatermark.boundaryTime == heard.listings[0].listTime
                && forall id :: id in outcome.nextWatermark.boundaryIds <==>
                     exists x :: x in heard.listings && x.listId == id && x.listTime == heard.listings[0].listTime))
  }

  lemma AbsorbKeepsOrder(done: seq<Listing>, scan: BaselineScan, page: nat, index: nat, x: Listing)
    requires Represents(done, scan) && x.listId !in scan.seenIds
    requires Absorb(scan, page, index, x).Went?
    ensures Sorted(done + [x])
  {
    var all := done + [x];
    assert all[|done|] == x;
    forall y | y in all ensures y.listTime.At? {
      assert y in done || y == x;
    }
    forall i, j | 0 <= i < j < |all| ensures all[i].listTime.epoch >= all[j].listTime.epoch {
      assert all[i] == done[i];
      if j == |done| {
        assert done[i].listTime.epoch >= done[|done| - 1].listTime.epoch;
      } else {
        assert all[j] == done[j];
      }
    }
  }

  lemma {:induction false} WentInOrder(done: seq<Listing>, scan: BaselineScan, page: nat, listings: seq<Listing>, index: nat)
    requires index <= |listings| && Represents(done, scan)
    requires AbsorbFrom(scan, page, listings, index).Went?
    ensures Sorted(done + Unseen(listings[index..], scan.seenIds))
    decreases |listings| - index
  {
    hide Absorb, Ids, Unseen;
    if index == |listings| {
      assert listings[index..] == [];
      UnseenNothing(scan.seenIds);
      assert done + [] == done;
    } else {
      var x := listings[index];
      var tail := Unseen(listings[index + 1..], scan.seenIds + {x.listId});
      UnseenCons(listings, index, scan.seenIds);
      if x.listId in scan.seenIds {
        AbsorbSeen(scan, page, index, x);
        assert scan.seenIds + {x.listId} == scan.seenIds;
        assert [] + tail == tail;
        hide Represents, Sorted;
        WentInOrder(done, scan, page, listings, index + 1);
      } else {
        assert done + ([x] + tail) == done + [x] + tail;
        AbsorbKeepsOrder(done, scan, page, index, x);
        AbsorbMeaning(done, scan, page, index, x);
        hide Represents, Sorted;
        var step := Absorb(scan, page, index, x);
        SeenAfter(done, scan, x, step.scan);
        WentInOrder(done + [x], step.scan, page, listings, index + 1);
      }
    }
  }

  /** What is heard later never takes back what was heard before. */
  lemma {:induction false} HearGrows(adapter: Adapter, maxPages: int, done: seq<Listing>, cursor: Option<Cursor>, read: nat)
    ensures done <= Hear(adapter, maxPages, done, cursor, read).listings
    decreases maxPages - read
  {
    hide Unseen, TieIsClosed, Ids;
    if read < maxPages && adapter(read, cursor).Fetched? {
      var page := adapter(read, cursor).page;
      var all := done + Unseen(page.listings, Ids(done));
      if !(all == [] || TieIsClosed(all) || page.nextCursor.None?) {
        HearGrows(adapter, maxPages, all, page.nextCursor, read + 1);
      }
    }
  }

  lemma BoundaryFacts(done: seq<Listing>, scan: BaselineScan)
    requires Represents(done, scan) && done != []
    ensures done[0].listTime.At? && done[|done| - 1].listTime.At? && Sorted(done)
    ensures scan.listings == done && scan.boundaryEpoch == Some(done[0].listTime.epoch)
    ensures scan.tieClosed <==> TieIsClosed(done)
    ensures forall id :: id in scan.boundaryIds <==>
      exists x :: x in done && x.listId == id && x.listTime == done[0].listTime
  {
    RepresentsFacts(done, scan);
    forall id ensures id in scan.boundaryIds <==> exists x :: x in done && x.listId == id && x.listTime == done[0].listTime {
      assert id in scan.boundaryIds <==> id in Elements(scan.boundaryIds);
      assert id in IdsAt(done, done[0].listTime.epoch) <==> exists x :: x in done && x.listId == id && x.listTime == done[0].listTime;
    }
  }

  lemma {:induction false} ResumeHears(adapter: Adapter, maxPages: int, startedAt: int, scan: BaselineScan,
                                       done: seq<Listing>, cursor: Option<Cursor>, read: nat)
    requires read < maxPages && Represents(done, scan) && !scan.tieClosed
    requires read == 0 <==> done == []
    ensures HeardMeaning(Hear(adapter, maxPages, done, cursor, read), startedAt,
                         Resume(adapter, maxPages, startedAt, scan, cursor, read))
    decreases maxPages - read
  {
    hide Represents, Sorted, Unseen, AbsorbFrom, IdsAt, Ids, TieIsClosed;
    if adapter(read, cursor).Fetched? {
      var page := adapter(read, cursor).page;
      var listings := page.listings;
      var all := done + Unseen(listings, Ids(done));
      var step := AbsorbFrom(scan, read + 1, listings, 0);
      assert listings[0..] == listings && scan.(tieClosed := false) == scan;
      assert scan.seenIds == Ids(done) by { assert Represents(done, scan); SeenIsDone(done, scan); }
      HeardSomething(done, listings);
      if read == 0 && listings == [] {
        assert all == [];
        NothingIsSorted();
      } else if step.Halted? {
        HearGrows(adapter, maxPages, done, cursor, read);
        HaltedOutOfOrder(done, scan, read + 1, listings);
        var rest := Hear(adapter, maxPages, done, cursor, read).listings;
        OutOfOrderStays(adapter, maxPages, done, cursor, read);
      } else {
        WentInOrder(done, scan, read + 1, listings, 0);
        PageMeaning(done, scan, read + 1, listings, 0);
        BoundaryFacts(all, step.scan);
        if !step.scan.tieClosed && page.nextCursor.Some? && read + 1 < maxPages {
          ResumeHears(adapter, maxPages, startedAt, step.scan, all, page.nextCursor, read + 1);
        }
      }
    } else {
      assert Sorted(done) by { SeenIsDone(done, scan); }
    }
  }

  lemma NothingIsSorted()
    ensures Sorted([])
  {
  }

  lemma SeenIsDone(done: seq<Listing>, scan: BaselineScan)
    requires Represents(done, scan)
    ensures scan.seenIds == Ids(done) && Sorted(done)
  {
  }

  lemma HeardSomething(done: seq<Listing>, listings: seq<Listing>)
    ensures done + Unseen(listings, Ids(done)) == [] <==> done == [] && listings == []
  {
    if done == [] && listings != [] {
      assert Ids(done) == {};
      assert listings[0].listId in Ids(listings);
      assert Ids(Unseen(listings, {})) == Ids(listings) - {};
    }
  }

  lemma HaltedOutOfOrder(done: seq<Listing>, scan: BaselineScan, page: nat, listings: seq<Listing>)
    requires Represents(done, scan) && AbsorbFrom(scan, page, listings, 0).Halted?
    ensures !Sorted(done + Unseen(listings, Ids(done)))
  {
    assert listings[0..] == listings;
    SeenIsDone(done, scan);
    if Sorted(done + Unseen(listings, Ids(done))) {
      PageMeaning(done, scan, page, listings, 0);
    }
  }

  lemma OutOfOrderStays(adapter: Adapter, maxPages: int, done: seq<Listing>, cursor: Option<Cursor>, read: nat)
    requires read < maxPages && adapter(read, cursor).Fetched?
    requires !Sorted(done + Unseen(adapter(read, cursor).page.listings, Ids(done)))
    ensures !Sorted(Hear(adapter, maxPages, done, cursor, read).listings)
  {
    var page := adapter(read, cursor).page;
    var all := done + Unseen(page.listings, Ids(done));
    var heard := Hear(adapter, maxPages, done, cursor, read);
    hide Unseen, Ids, Sorted;
    if !(all == [] || TieIsClosed(all) || page.nextCursor.None?) {
      HearGrows(adapter, maxPages, all, page.nextCursor, read + 1);
    }
    assert heard.listings == all + heard.listings[|all|..];
    if Sorted(heard.listings) {
      SortedPrefix(all, heard.listings[|all|..]);
    }
  }

  /**
   * Whatever the source answers, a cold start fails exactly when a request is refused or what it has heard
   * is not timed and newest first; else it is incomplete exactly when the page cap came before the tie was
   * closed or the feed ended; else all it heard is the baseline, with the ids at the newest time.
   */
  lemma ColdStartIsExact(adapter: Adapter, maxPages: int, startedAt: int)
    requires maxPages >= 1
    ensures HeardMeaning(Hear(adapter, maxPages, [], None, 0), startedAt, Traverse(adapter, maxPages, startedAt))
  {
    ResumeHears(adapter, maxPages, startedAt, EMPTY_SCAN, [], None, 0);
  }

  /** An incremental run right after a cold start, on the same feed, reports nothing and keeps the boundary. */
  lemma NothingNewAfterColdStart(pages: seq<seq<Listing>>, coldMaxPages: nat, startedAt: int, maxPages: nat)
    requires coldMaxPages >= 1 && maxPages >= 1 && pages != [] && pages[0] != []
    requires Sorted(Ahead(pages, 0, |pages|))
    requires Traverse(FixedFeed(pages), coldMaxPages, startedAt).Baseline?
    ensures var baseline := Traverse(FixedFeed(pages), coldMaxPages, startedAt);
      var run := WatermarkTraversal.Traverse(FixedFeed(pages), baseline.nextWatermark, maxPages, None).outcome;
      && !run.Failed? && run.newListings == []
      && (run.Complete? ==> SameBoundary(run.nextWatermark, baseline.nextWatermark))
      && (run.Incomplete? ==> run.nextWatermark == baseline.nextWatermark)
  {
    hide Traverse, WatermarkTraversal.Traverse, IsNextBoundary, IsNew, Sorted, Ahead, CheckpointFor;
    var boundary := Traverse(FixedFeed(pages), coldMaxPages, startedAt).nextWatermark;
    var all := Ahead(pages, 0, |pages|);
    ColdStartClosesTopTie(pages, coldMaxPages, startedAt);
    TopTieCovers(all, boundary);
    assert [] + all == all;
    TraverseMeaning(pages, boundary, maxPages, [], None);
    var run := WatermarkTraversal.Traverse(FixedFeed(pages), boundary, maxPages, None).outcome;
    if run.Complete? {
      NextBoundaryUnique(boundary, all, run.nextWatermark, boundary);
    } else {
      var tail := AheadPrefix(pages, 0, maxPages, |pages|);
      NewOfAppend(boundary, Ahead(pages, 0, maxPages), tail);
    }
  }

  lemma TopTieCovers(all: seq<Listing>, boundary: Watermark)
    requires Sorted(all) && all != [] && all[0].listTime.At?
    requires boundary.boundaryTime == all[0].listTime
    requires Elements(boundary.boundaryIds) == IdsAt(all, all[0].listTime.epoch)
    ensures NewOf(boundary, all) == []
    ensures IsNextBoundary(boundary, all, boundary)
  {
    assert all[0] in all;
    forall x | x in all ensures !IsNew(boundary, x) && x.listTime.epoch <= all[0].listTime.epoch {
      var k :| 0 <= k < |all| && all[k] == x;
      assert x.listTime == all[0].listTime ==> x.listId in IdsAt(all, all[0].listTime.epoch);
      assert x.listTime == all[0].listTime ==> x.listId in Elements(boundary.boundaryIds);
    }
    NothingNew(boundary, all);
  }
}
